/** What a poll knows about itself in every reachable state: an exact tally, and a committee
    decision that is taken once. */
module PollTally {
  import opened Chain
  import opened SecretPoll
  import opened Sums
  import opened Division

  ghost function PowerFor(votes: map<Address, Vote>, choice: nat): Address -> int {
    v => if v in votes && votes[v].choice == choice then votes[v].votingPower else 0
  }

  ghost function PowerAt(votes: map<Address, Vote>): Address -> int {
    v => if v in votes then votes[v].votingPower else 0
  }

  /** Each slot is the power of the voters who chose it, and voters are counted once. */
  ghost predicate Exact(s: State) {
    && |s.tally| == |s.config.choices|
    && s.numOfVoters == |s.votes|
    && (forall v | v in s.votes :: s.votes[v].choice < |s.tally|)
    && forall c | 0 <= c < |s.tally| :: s.tally[c] == Sum(s.votes.Keys, PowerFor(s.votes, c))
  }

  /** The committee part: who revealed, how many, and what follows from it. */
  ghost predicate Decided(s: State) {
    && s.revealConfig.numRevealed == |s.revealConfig.revealed|
    && (forall i, j | 0 <= i < j < |s.revealConfig.revealed| :: s.revealConfig.revealed[i] != s.revealConfig.revealed[j])
    && (forall r | r in s.revealConfig.revealed :: r in s.revealConfig.committee.revealers)
    && (s.revealConfig.committee.n >= 1 ==>
          (s.config.finalized <==> s.revealConfig.numRevealed >= s.revealConfig.committee.n))
    && (s.config.valid ==> s.config.finalized)
  }

  lemma InitValid(sender: Address, time: nat, msg: InitMsg)
    requires Init(sender, time, msg).Ok?
    ensures Exact(Init(sender, time, msg).value) && Decided(Init(sender, time, msg).value)
    ensures Init(sender, time, msg).value.config.endTimestamp == time + msg.config.duration
  {
  }

  /** The vote before, as the power it contributes. */
  lemma OldPower(s: State, voter: Address, c: nat)
    requires Exact(s) && c < |s.tally|
    ensures PowerFor(s.votes, c)(voter) <= s.tally[c]
    ensures 0 <= PowerFor(s.votes, c)(voter)
  {
    SumNonNegative(s.votes.Keys, PowerFor(s.votes, c));
    if voter in s.votes {
      assert PowerFor(s.votes, c)(voter) <= Sum(s.votes.Keys, PowerFor(s.votes, c));
    }
  }

  /** A vote update fails only for the new vote's own reasons: a missing choice, or a tally or
      voter count that outgrows its integer. Taking the old vote out never does. */
  lemma UpdateFailsOnlyForTheNew(s: State, voter: Address, vote: Vote)
    requires Exact(s)
    ensures var c := vote.choice;
      UpdateVote(s, voter, PreviousVote(s, voter), vote).Ok?
      <==> && c < |s.tally|
           && (voter in s.votes || |s.votes| + 1 < U64_LIMIT)
           && s.tally[c] - PowerFor(s.votes, c)(voter) + vote.votingPower < U128_LIMIT
  {
    if voter in s.votes {
      OldPower(s, voter, s.votes[voter].choice);
    }
  }

  /** What an update does to each slot, and that it touches little else. */
  lemma UpdateShape(s: State, voter: Address, vote: Vote)
    requires Exact(s) && UpdateVote(s, voter, PreviousVote(s, voter), vote).Ok?
    ensures var t := UpdateVote(s, voter, PreviousVote(s, voter), vote).value;
      && t == s.(tally := t.tally, numOfVoters := t.numOfVoters, votes := s.votes[voter := vote])
      && |t.tally| == |s.tally| && vote.choice < |t.tally|
      && t.numOfVoters == s.numOfVoters + (if voter in s.votes then 0 else 1)
      && forall c | 0 <= c < |t.tally| ::
           t.tally[c] == s.tally[c] - PowerFor(s.votes, c)(voter) + PowerFor(t.votes, c)(voter)
  {
  }

  lemma SlotSum(votes: map<Address, Vote>, voter: Address, vote: Vote, c: nat)
    ensures var after := votes[voter := vote];
      Sum(after.Keys, PowerFor(after, c))
      == Sum(votes.Keys, PowerFor(votes, c)) - PowerFor(votes, c)(voter) + PowerFor(after, c)(voter)
  {
    var after := votes[voter := vote];
    assert after.Keys == votes.Keys + {voter};
    SumUpdate(votes.Keys, PowerFor(votes, c), PowerFor(after, c), voter);
  }

  lemma VotersCounted(votes: map<Address, Vote>, voter: Address, vote: Vote)
    ensures |votes[voter := vote]| == |votes| + (if voter in votes then 0 else 1)
  {
    var after := votes[voter := vote];
    assert after.Keys == votes.Keys + {voter};
    assert |after| == |after.Keys| && |votes| == |votes.Keys|;
    assert voter in votes ==> votes.Keys + {voter} == votes.Keys;
  }

  lemma {:induction false} UpdateKeepsExact(s: State, voter: Address, vote: Vote)
    requires Exact(s) && UpdateVote(s, voter, PreviousVote(s, voter), vote).Ok?
    ensures var t := UpdateVote(s, voter, PreviousVote(s, voter), vote).value;
      && Exact(t)
      && t == s.(tally := t.tally, numOfVoters := t.numOfVoters, votes := s.votes[voter := vote])
  {
    UpdateShape(s, voter, vote);
    hide UpdateVote, Sum;
    var t := UpdateVote(s, voter, PreviousVote(s, voter), vote).value;
    VotersCounted(s.votes, voter, vote);
    forall c: nat | c < |t.tally|
      ensures t.tally[c] == Sum(t.votes.Keys, PowerFor(t.votes, c))
    {
      SlotSum(s.votes, voter, vote, c);
    }
    assert forall v | v in t.votes :: t.votes[v].choice < |t.tally|;
  }

  lemma {:induction false} CallKeepsExact(s: State, call: Call)
    requires Exact(s) && Handle(s, call).Ok?
    ensures Exact(Handle(s, call).value)
  {
    match call.request
    case CastVote(choice, stake, _) => UpdateKeepsExact(s, call.sender, Vote(choice, stake));
    case UpdatePower(voter, power) =>
      if voter in s.votes {
        UpdateKeepsExact(s, voter, Vote(s.votes[voter].choice, power));
      }
    case Finalize(_, _) =>
  }

  lemma CallKeepsDecided(s: State, call: Call)
    requires Exact(s) && Decided(s) && Handle(s, call).Ok?
    ensures Decided(Handle(s, call).value)
  {
    match call.request
    case CastVote(choice, stake, _) => UpdateKeepsExact(s, call.sender, Vote(choice, stake));
    case UpdatePower(voter, power) =>
      if voter in s.votes {
        UpdateKeepsExact(s, voter, Vote(s.votes[voter].choice, power));
      }
    case Finalize(_, _) =>
  }

  /** Tally and committee are right in every reachable state. */
  lemma {:induction false} AlwaysExact(sender: Address, time: nat, msg: InitMsg, calls: seq<Call>)
    requires Init(sender, time, msg).Ok? && Run(Init(sender, time, msg).value, calls).Ok?
    ensures Exact(Run(Init(sender, time, msg).value, calls).value)
    ensures Decided(Run(Init(sender, time, msg).value, calls).value)
  {
    var s := Init(sender, time, msg).value;
    if calls == [] {
      InitValid(sender, time, msg);
    } else {
      var before := calls[..|calls| - 1];
      AlwaysExact(sender, time, msg, before);
      CallKeepsExact(Run(s, before).value, calls[|calls| - 1]);
      CallKeepsDecided(Run(s, before).value, calls[|calls| - 1]);
    }
  }

  /** Strictly after its end a poll's votes and tally are frozen; and once finalized, its
      verdict is. */
  lemma {:induction false} VerdictIsFinal(s: State, calls: seq<Call>)
    requires Exact(s) && Decided(s) && Run(s, calls).Ok?
    ensures var t := Run(s, calls).value;
      && ((forall call | call in calls :: call.time > s.config.endTimestamp) ==> t.tally == s.tally && t.votes == s.votes)
      && (s.revealConfig.committee.n >= 1 && s.config.finalized ==> t.config.finalized && t.config.valid == s.config.valid)
      && t.config.endTimestamp == s.config.endTimestamp && t.revealConfig.committee == s.revealConfig.committee
      && Exact(t) && Decided(t)
  {
    if calls != [] {
      var before := calls[..|calls| - 1];
      var call := calls[|calls| - 1];
      assert call in calls && forall c | c in before :: c in calls;
      VerdictIsFinal(s, before);
      var mid := Run(s, before).value;
      CallKeepsExact(mid, call);
      CallKeepsDecided(mid, call);
      VerdictStep(mid, call);
    }
  }

  lemma VerdictStep(s: State, call: Call)
    requires Exact(s) && Decided(s) && Handle(s, call).Ok?
    ensures var t := Handle(s, call).value;
      && (call.time > s.config.endTimestamp ==> t.tally == s.tally && t.votes == s.votes)
      && (s.revealConfig.committee.n >= 1 && s.config.finalized ==> t.config.finalized && t.config.valid == s.config.valid)
      && t.config.endTimestamp == s.config.endTimestamp && t.revealConfig.committee == s.revealConfig.committee
  {
    match call.request
    case CastVote(choice, stake, _) => UpdateKeepsExact(s, call.sender, Vote(choice, stake));
    case UpdatePower(voter, power) =>
      if voter in s.votes {
        UpdateKeepsExact(s, voter, Vote(s.votes[voter].choice, power));
      }
    case Finalize(_, _) =>
  }

  // --- Totals ---

  ghost function PowerUpTo(votes: map<Address, Vote>, n: nat): Address -> int {
    v => if v in votes && votes[v].choice < n then votes[v].votingPower else 0
  }

  lemma {:induction false} TallyPrefix(s: State, n: nat)
    requires Exact(s) && n <= |s.tally|
    ensures SumTally(s.tally[..n]) == Sum(s.votes.Keys, PowerUpTo(s.votes, n))
  {
    if n == 0 {
      SumAgree(s.votes.Keys, PowerUpTo(s.votes, 0), _ => 0);
      SumAtMost(s.votes.Keys, _ => 0, 0);
      SumNonNegative(s.votes.Keys, PowerUpTo(s.votes, 0));
    } else {
      TallyPrefix(s, n - 1);
      assert s.tally[..n][..n - 1] == s.tally[..n - 1];
      SumLinear(s.votes.Keys, PowerUpTo(s.votes, n - 1), 1, PowerFor(s.votes, n - 1), PowerUpTo(s.votes, n));
    }
  }

  /** The tally adds up to the power of all voters. */
  lemma TallyTotal(s: State)
    requires Exact(s)
    ensures SumTally(s.tally) == Sum(s.votes.Keys, PowerAt(s.votes))
    ensures forall c | 0 <= c < |s.tally| :: s.tally[c] <= SumTally(s.tally)
  {
    TallyPrefix(s, |s.tally|);
    assert s.tally[..|s.tally|] == s.tally;
    SumAgree(s.votes.Keys, PowerUpTo(s.votes, |s.tally|), PowerAt(s.votes));
    forall c | 0 <= c < |s.tally|
      ensures s.tally[c] <= SumTally(s.tally)
    {
      SumMonotone(s.votes.Keys, PowerFor(s.votes, c), PowerAt(s.votes));
    }
  }

  // --- The decision ---

  lemma {:induction false} MaxIsReached(tally: seq<nat>, bound: nat)
    requires tally != []
    ensures MaxTally(tally) > bound <==> exists c :: 0 <= c < |tally| && tally[c] > bound
  {
    var before := tally[..|tally| - 1];
    if before != [] {
      MaxIsReached(before, bound);
      if exists c :: 0 <= c < |before| && before[c] > bound {
        var c :| 0 <= c < |before| && before[c] > bound;
        assert tally[c] > bound;
      }
      if exists c :: 0 <= c < |tally| && tally[c] > bound {
        var c :| 0 <= c < |tally| && tally[c] > bound;
        assert c < |before| ==> before[c] > bound;
      }
    }
    assert tally[|tally| - 1] > bound ==> exists c :: 0 <= c < |tally| && tally[c] > bound;
  }

  /** What the n-th reveal decides, in terms of the votes: the poll is valid exactly if the power
      of all voters is more than the quorum's percentage of the stake, rounded down, and some
      choice has more power than the threshold, counted in tokens. */
  lemma {:induction false} DecisionMeans(s: State, time: nat, sender: Address, hash: string, totalLocked: nat)
    requires Exact(s) && Decided(s) && ApplyFinalize(s, time, sender, hash, totalLocked).Ok?
    requires s.revealConfig.numRevealed + 1 == s.revealConfig.committee.n
    ensures var t := ApplyFinalize(s, time, sender, hash, totalLocked).value;
      && totalLocked > 0 && t.config.finalized
      && (t.config.valid
          <==> && 100 * Sum(s.votes.Keys, PowerAt(s.votes)) >= (s.config.quorum + 1) * totalLocked
               && exists c :: 0 <= c < |s.tally| && Sum(s.votes.Keys, PowerFor(s.votes, c)) > s.config.minThreshold)
  {
    hide Sum, SumTally, MaxTally;
    TallyTotal(s);
    MaxIsReached(s.tally, s.config.minThreshold);
    DivideGalois(100 * SumTally(s.tally), totalLocked, s.config.quorum + 1);
    assert forall c | 0 <= c < |s.tally| :: s.tally[c] == Sum(s.votes.Keys, PowerFor(s.votes, c));
  }
}
