/** A poll read off its calls alone: who voted what, who revealed, which digest stands, and when a
    call of either kind is taken. */
module PollHistory {
  import opened Chain
  import opened PollTally
  import opened SecretPoll
  import opened Sums

  // --- What the calls alone say ---

  /** The vote that stands for `v`: the last she cast, at the power last reported. */
  function VoteBy(calls: seq<Call>, v: Address): Option<Vote> {
    if calls == [] then None
    else
      var before := VoteBy(calls[..|calls| - 1], v);
      var call := calls[|calls| - 1];
      match call.request
      case CastVote(choice, stake, _) => if call.sender == v then Some(Vote(choice, stake)) else before
      case UpdatePower(voter, power) =>
        if voter == v && before.Some? then Some(Vote(before.value.choice, power)) else before
      case Finalize(_, _) => before
  }

  /** The digest of the last vote cast. */
  function DigestBy(calls: seq<Call>): string {
    if calls == [] then ""
    else
      match calls[|calls| - 1].request
      case CastVote(_, _, digest) => digest
      case _ => DigestBy(calls[..|calls| - 1])
  }

  /** Who revealed, in order. */
  function RevealersBy(calls: seq<Call>): seq<Address> {
    if calls == [] then []
    else
      var before := RevealersBy(calls[..|calls| - 1]);
      if calls[|calls| - 1].request.Finalize? then before + [calls[|calls| - 1].sender] else before
  }

  ghost function Voters(calls: seq<Call>): set<Address> {
    if calls == [] then {}
    else Voters(calls[..|calls| - 1])
         + (if calls[|calls| - 1].request.CastVote? then {calls[|calls| - 1].sender} else {})
  }

  ghost function PowerBy(calls: seq<Call>): Address -> int {
    v => if VoteBy(calls, v).Some? then VoteBy(calls, v).value.votingPower else 0
  }

  ghost function PowerForBy(calls: seq<Call>, choice: nat): Address -> int {
    v => if VoteBy(calls, v).Some? && VoteBy(calls, v).value.choice == choice then VoteBy(calls, v).value.votingPower else 0
  }

  /** All power that was voted with, and the part of it that stands for one choice. */
  ghost function TotalPower(calls: seq<Call>): int {
    Sum(Voters(calls), PowerBy(calls))
  }

  ghost function PowerOfChoice(calls: seq<Call>, choice: nat): int {
    Sum(Voters(calls), PowerForBy(calls, choice))
  }

  // --- The state agrees with the calls ---

  ghost predicate Agrees(owner: Address, time: nat, msg: InitMsg, calls: seq<Call>, t: State) {
    && t.owner == owner && t.stakingPool == msg.stakingPool
    && t.config == StoredConfig(time + msg.config.duration, msg.config.quorum, msg.config.minThreshold, msg.choices,
                                t.config.finalized, t.config.valid, DigestBy(calls))
    && t.revealConfig == Reveal(msg.committee, |RevealersBy(calls)|, RevealersBy(calls))
    && t.votes.Keys == Voters(calls)
    && forall v :: PreviousVote(t, v) == VoteBy(calls, v)
  }

  lemma VoteAgrees(owner: Address, time: nat, msg: InitMsg, calls: seq<Call>, t: State, call: Call, u: Address, vote: Vote)
    requires Agrees(owner, time, msg, calls, t) && Exact(t)
    requires UpdateVote(t, u, PreviousVote(t, u), vote).Ok?
    ensures var s := UpdateVote(t, u, PreviousVote(t, u), vote).value;
      && s == t.(tally := s.tally, numOfVoters := s.numOfVoters, votes := t.votes[u := vote])
      && s.votes.Keys == Voters(calls) + {u}
      && forall v :: PreviousVote(s, v) == (if v == u then Some(vote) else VoteBy(calls, v))
  {
    UpdateShape(t, u, vote);
    hide UpdateVote, Exact, VoteBy;
    var s := UpdateVote(t, u, PreviousVote(t, u), vote).value;
    forall v
      ensures PreviousVote(s, v) == (if v == u then Some(vote) else VoteBy(calls, v))
    {
      assert PreviousVote(t, v) == VoteBy(calls, v);
    }
  }

  lemma CastAgrees(owner: Address, time: nat, msg: InitMsg, calls: seq<Call>, t: State, call: Call)
    requires Agrees(owner, time, msg, calls, t) && Exact(t) && call.request.CastVote? && Handle(t, call).Ok?
    ensures Agrees(owner, time, msg, calls + [call], Handle(t, call).value)
  {
    assert (calls + [call])[..|calls|] == calls;
    var vote := Vote(call.request.choice, call.request.stake);
    VoteAgrees(owner, time, msg, calls, t, call, call.sender, vote);
    hide UpdateVote, Exact;
    var s := Handle(t, call).value;
    assert s.votes == t.votes[call.sender := vote];
    forall v
      ensures PreviousVote(s, v) == VoteBy(calls + [call], v)
    {
      assert PreviousVote(t, v) == VoteBy(calls, v);
    }
  }

  lemma PowerAgrees(owner: Address, time: nat, msg: InitMsg, calls: seq<Call>, t: State, call: Call)
    requires Agrees(owner, time, msg, calls, t) && Exact(t) && call.request.UpdatePower? && Handle(t, call).Ok?
    ensures Agrees(owner, time, msg, calls + [call], Handle(t, call).value)
  {
    assert (calls + [call])[..|calls|] == calls;
    var u := call.request.voter;
    assert PreviousVote(t, u) == VoteBy(calls, u);
    if u in t.votes {
      VoteAgrees(owner, time, msg, calls, t, call, u, Vote(t.votes[u].choice, call.request.newPower));
      assert Voters(calls) + {u} == Voters(calls);
    }
    hide UpdateVote, Exact;
  }

  lemma RevealAgrees(owner: Address, time: nat, msg: InitMsg, calls: seq<Call>, t: State, call: Call)
    requires Agrees(owner, time, msg, calls, t) && call.request.Finalize? && Handle(t, call).Ok?
    ensures Agrees(owner, time, msg, calls + [call], Handle(t, call).value)
  {
    assert (calls + [call])[..|calls|] == calls;
    hide SumTally, MaxTally;
    var s := Handle(t, call).value;
    assert s.votes == t.votes;
    forall v
      ensures PreviousVote(s, v) == VoteBy(calls + [call], v)
    {
      assert PreviousVote(t, v) == VoteBy(calls, v);
    }
  }

  lemma {:induction false} RunAgrees(owner: Address, time: nat, msg: InitMsg, calls: seq<Call>)
    requires Init(owner, time, msg).Ok? && Run(Init(owner, time, msg).value, calls).Ok?
    ensures var t := Run(Init(owner, time, msg).value, calls).value;
      Agrees(owner, time, msg, calls, t) && Exact(t) && Decided(t)
  {
    hide Agrees, Handle, Exact, Decided, Init;
    AlwaysExact(owner, time, msg, calls);
    if calls == [] {
      InitAgrees(owner, time, msg);
    } else {
      var before := calls[..|calls| - 1];
      var call := calls[|calls| - 1];
      RunAgrees(owner, time, msg, before);
      var t := Run(Init(owner, time, msg).value, before).value;
      assert before + [call] == calls;
      match call.request {
        case CastVote(_, _, _) => CastAgrees(owner, time, msg, before, t, call);
        case UpdatePower(_, _) => PowerAgrees(owner, time, msg, before, t, call);
        case Finalize(_, _) => RevealAgrees(owner, time, msg, before, t, call);
      }
    }
  }

  lemma InitAgrees(owner: Address, time: nat, msg: InitMsg)
    requires Init(owner, time, msg).Ok?
    ensures Agrees(owner, time, msg, [], Init(owner, time, msg).value)
  {
  }

  /** In every reachable state the poll is what its calls say: the votes that stand, the digest of
      the last one, who revealed in which order; and nothing else of what it was started with
      has changed. */
  lemma {:induction false} PollFromCalls(owner: Address, time: nat, msg: InitMsg, calls: seq<Call>)
    requires Init(owner, time, msg).Ok? && Run(Init(owner, time, msg).value, calls).Ok?
    ensures var t := Run(Init(owner, time, msg).value, calls).value;
      && t.owner == owner && t.stakingPool == msg.stakingPool
      && t.config == StoredConfig(time + msg.config.duration, msg.config.quorum, msg.config.minThreshold, msg.choices,
                                  t.config.finalized, t.config.valid, DigestBy(calls))
      && t.revealConfig == Reveal(msg.committee, |RevealersBy(calls)|, RevealersBy(calls))
      && t.votes.Keys == Voters(calls)
      && forall v :: (if v in t.votes then Some(t.votes[v]) else None) == VoteBy(calls, v)
  {
    hide Handle, Init, Exact, Decided;
    RunAgrees(owner, time, msg, calls);
    var t := Run(Init(owner, time, msg).value, calls).value;
    forall v
      ensures (if v in t.votes then Some(t.votes[v]) else None) == VoteBy(calls, v)
    {
      assert PreviousVote(t, v) == VoteBy(calls, v);
    }
  }

  // --- When calls are taken ---

  /** Votes and reports are taken up to the end and reveals from the end on; reports only from the
      owner, and reveals only from the committee. */
  predicate InSeason(owner: Address, end: nat, committee: RevealCommittee, call: Call) {
    match call.request
    case CastVote(_, _, _) => call.time <= end
    case UpdatePower(_, _) => call.time <= end && call.sender == owner
    case Finalize(_, _) => call.time >= end && call.sender in committee.revealers
  }

  lemma CommittedInSeason(t: State, call: Call)
    requires Handle(t, call).Ok?
    ensures InSeason(t.owner, t.config.endTimestamp, t.revealConfig.committee, call)
  {
    hide UpdateVote, SumTally, MaxTally;
  }

  lemma {:induction false} RunInSeason(owner: Address, time: nat, msg: InitMsg, calls: seq<Call>)
    requires Init(owner, time, msg).Ok? && Run(Init(owner, time, msg).value, calls).Ok?
    ensures forall call | call in calls :: InSeason(owner, time + msg.config.duration, msg.committee, call)
  {
    hide Handle, Init, InSeason;
    if calls != [] {
      var before := calls[..|calls| - 1];
      RunInSeason(owner, time, msg, before);
      PollFromCalls(owner, time, msg, before);
      CommittedInSeason(Run(Init(owner, time, msg).value, before).value, calls[|calls| - 1]);
      assert calls == before + [calls[|calls| - 1]];
    }
  }

  lemma {:induction false} RevealerCalled(calls: seq<Call>) returns (i: nat)
    requires RevealersBy(calls) != []
    ensures i < |calls| && calls[i].request.Finalize?
  {
    if calls[|calls| - 1].request.Finalize? {
      i := |calls| - 1;
    } else {
      i := RevealerCalled(calls[..|calls| - 1]);
    }
  }

  lemma FinalizedWhen(t: State, call: Call)
    requires Handle(t, call).Ok?
    ensures Handle(t, call).value.config.finalized
            <==> || t.config.finalized
                 || (call.request.Finalize? && t.revealConfig.numRevealed + 1 == t.revealConfig.committee.n)
  {
    hide SumTally, MaxTally;
  }

  /** With an empty quorum of revealers nothing is ever finalized. */
  lemma {:induction false} NeverFinalizedWithoutQuorum(owner: Address, time: nat, msg: InitMsg, calls: seq<Call>)
    requires Init(owner, time, msg).Ok? && Run(Init(owner, time, msg).value, calls).Ok? && msg.committee.n == 0
    ensures !Run(Init(owner, time, msg).value, calls).value.config.finalized
  {
    hide Handle;
    if calls != [] {
      var before := calls[..|calls| - 1];
      NeverFinalizedWithoutQuorum(owner, time, msg, before);
      PollFromCalls(owner, time, msg, before);
      FinalizedWhen(Run(Init(owner, time, msg).value, before).value, calls[|calls| - 1]);
    }
  }

  /** Nothing is revealed or decided before the end: if anybody is recorded as a revealer, or the
      poll is finalized, some reveal of the run came at the end time or after it. */
  lemma {:induction false} NothingDecidedEarly(owner: Address, time: nat, msg: InitMsg, calls: seq<Call>)
    requires Init(owner, time, msg).Ok? && Run(Init(owner, time, msg).value, calls).Ok?
    ensures var t := Run(Init(owner, time, msg).value, calls).value;
      t.revealConfig.revealed != [] || t.config.finalized ==>
        exists call :: call in calls && call.request.Finalize? && call.time >= time + msg.config.duration
  {
    hide Handle, Init, Exact;
    RunAgrees(owner, time, msg, calls);
    RunInSeason(owner, time, msg, calls);
    var t := Run(Init(owner, time, msg).value, calls).value;
    if msg.committee.n == 0 {
      NeverFinalizedWithoutQuorum(owner, time, msg, calls);
    }
    if t.revealConfig.revealed != [] || t.config.finalized {
      var i := RevealerCalled(calls);
      assert calls[i] in calls;
    }
  }

  lemma PowersAgree(owner: Address, time: nat, msg: InitMsg, calls: seq<Call>, t: State)
    requires Agrees(owner, time, msg, calls, t) && Exact(t)
    ensures SumTally(t.tally) == TotalPower(calls)
    ensures forall c | 0 <= c < |t.tally| :: t.tally[c] == PowerOfChoice(calls, c)
  {
    hide SumTally, VoteBy;
    TallyTotal(t);
    forall v
      ensures PowerAt(t.votes)(v) == PowerBy(calls)(v)
      ensures forall c: nat :: PowerFor(t.votes, c)(v) == PowerForBy(calls, c)(v)
    {
      assert PreviousVote(t, v) == VoteBy(calls, v);
    }
    SumAgree(Voters(calls), PowerAt(t.votes), PowerBy(calls));
    forall c | 0 <= c < |t.tally|
      ensures t.tally[c] == PowerOfChoice(calls, c)
    {
      SumAgree(Voters(calls), PowerFor(t.votes, c), PowerForBy(calls, c));
    }
  }

  /** The tally that the deciding reveal publishes, from the calls alone. */
  lemma {:induction false} TallyFromCalls(owner: Address, time: nat, msg: InitMsg, calls: seq<Call>)
    requires Init(owner, time, msg).Ok? && Run(Init(owner, time, msg).value, calls).Ok?
    ensures var t := Run(Init(owner, time, msg).value, calls).value;
      && |t.tally| == |msg.choices|
      && forall c | 0 <= c < |t.tally| :: t.tally[c] == PowerOfChoice(calls, c)
  {
    hide Handle, Init, PowerOfChoice;
    RunAgrees(owner, time, msg, calls);
    PowersAgree(owner, time, msg, calls, Run(Init(owner, time, msg).value, calls).value);
  }

  /** A reveal that decides the poll divides by the stake, and multiplies before that. */
  predicate Decidable(total: int, totalLocked: nat) {
    totalLocked > 0 && 100 * total < U128_LIMIT
  }

  /** When a reveal is recorded, in every reachable state: exactly if it comes at the end or after
      it, from a member of the committee who has not revealed, with the digest of the last vote
      that was cast; and if it is the one that decides, the arithmetic is defined. */
  lemma {:induction false} RevealRecordedIff(
      owner: Address, time: nat, msg: InitMsg, calls: seq<Call>, now: nat, sender: Address, hash: string, totalLocked: nat)
    requires Init(owner, time, msg).Ok? && Run(Init(owner, time, msg).value, calls).Ok?
    ensures var t := Run(Init(owner, time, msg).value, calls).value;
      Handle(t, Call(now, sender, Finalize(hash, totalLocked))).Ok?
      <==> && now >= time + msg.config.duration
           && hash == DigestBy(calls)
           && sender in msg.committee.revealers && sender !in RevealersBy(calls)
           && |RevealersBy(calls)| + 1 < U64_LIMIT
           && (|RevealersBy(calls)| + 1 == msg.committee.n ==> Decidable(TotalPower(calls), totalLocked))
  {
    hide Init, SumTally, MaxTally, TotalPower, RevealersBy, DigestBy, UpdateVote;
    var t := Run(Init(owner, time, msg).value, calls).value;
    RunAgrees(owner, time, msg, calls);
    PowersAgree(owner, time, msg, calls, t);
    HasChoices(owner, time, msg);
  }

  lemma HasChoices(owner: Address, time: nat, msg: InitMsg)
    requires Init(owner, time, msg).Ok?
    ensures |msg.choices| >= 2
  {
  }

  /** When a vote is taken, in every reachable state: exactly up to the end, for a choice there is,
      if the slot and the count of voters fit. */
  lemma {:induction false} VoteTakenIff(
      owner: Address, time: nat, msg: InitMsg, calls: seq<Call>, now: nat, sender: Address,
      choice: nat, stake: nat, digest: string)
    requires Init(owner, time, msg).Ok? && Run(Init(owner, time, msg).value, calls).Ok?
    ensures var t := Run(Init(owner, time, msg).value, calls).value;
      Handle(t, Call(now, sender, CastVote(choice, stake, digest))).Ok?
      <==> && now <= time + msg.config.duration
           && choice < |msg.choices|
           && (VoteBy(calls, sender).Some? || |Voters(calls)| + 1 < U64_LIMIT)
           && PowerOfChoice(calls, choice) - PowerForBy(calls, choice)(sender) + stake < U128_LIMIT
  {
    hide Init, UpdateVote, SumTally, VoteBy, Voters;
    var t := Run(Init(owner, time, msg).value, calls).value;
    RunAgrees(owner, time, msg, calls);
    PowersAgree(owner, time, msg, calls, t);
    SlotFits(owner, time, msg, calls, t, sender, Vote(choice, stake));
  }

  /** When a report is taken: exactly up to the end and from the owner, if the voter's slot fits. */
  lemma {:induction false} ReportTakenIff(
      owner: Address, time: nat, msg: InitMsg, calls: seq<Call>, now: nat, sender: Address, voter: Address, power: nat)
    requires Init(owner, time, msg).Ok? && Run(Init(owner, time, msg).value, calls).Ok?
    ensures var t := Run(Init(owner, time, msg).value, calls).value;
      Handle(t, Call(now, sender, UpdatePower(voter, power))).Ok?
      <==> && now <= time + msg.config.duration
           && sender == owner
           && (VoteBy(calls, voter).Some? ==>
                 var choice := VoteBy(calls, voter).value.choice;
                 PowerOfChoice(calls, choice) - VoteBy(calls, voter).value.votingPower + power < U128_LIMIT)
  {
    hide Init, UpdateVote, SumTally, VoteBy, Voters;
    var t := Run(Init(owner, time, msg).value, calls).value;
    RunAgrees(owner, time, msg, calls);
    PowersAgree(owner, time, msg, calls, t);
    assert PreviousVote(t, voter) == VoteBy(calls, voter);
    if voter in t.votes {
      SlotFits(owner, time, msg, calls, t, voter, Vote(t.votes[voter].choice, power));
    }
  }

  lemma SlotFits(owner: Address, time: nat, msg: InitMsg, calls: seq<Call>, t: State, u: Address, vote: Vote)
    requires Agrees(owner, time, msg, calls, t) && Exact(t)
    ensures UpdateVote(t, u, PreviousVote(t, u), vote).Ok?
            <==> && vote.choice < |msg.choices|
                 && (VoteBy(calls, u).Some? || |Voters(calls)| + 1 < U64_LIMIT)
                 && PowerOfChoice(calls, vote.choice) - PowerForBy(calls, vote.choice)(u) + vote.votingPower < U128_LIMIT
  {
    hide UpdateVote, Sum, VoteBy;
    UpdateFailsOnlyForTheNew(t, u, vote);
    assert |t.votes| == |t.votes.Keys|;
    assert PreviousVote(t, u) == VoteBy(calls, u);
    PowersAgree(owner, time, msg, calls, t);
  }
}
