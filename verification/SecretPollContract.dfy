/** The secret-poll contract in its own form: each handler loads what it needs, changes it and
    stores it back. */
module SecretPollContract {
  import opened Chain
  import P = SecretPoll
  import PollTally

  class Contract {
    var owner: Address
    var stakingPool: Address
    var config: P.StoredConfig
    var tally: seq<nat>
    var numOfVoters: nat
    var votes: map<Address, P.Vote>
    var revealConfig: P.Reveal

    ghost function Model(): P.State
      reads this
    {
      P.State(owner, stakingPool, config, tally, numOfVoters, votes, revealConfig)
    }

    ghost predicate Follows(expected: Result<P.State>, r: Result<()>)
      reads this
    {
      match expected
      case Ok(state) => r == Ok(()) && Model() == state
      case Abort(error) => r == Abort(error)
    }

    constructor (sender: Address, ending: nat, msg: P.InitMsg)
      ensures Model() == P.State(
                sender, msg.stakingPool,
                P.StoredConfig(ending, msg.config.quorum, msg.config.minThreshold, msg.choices, false, false, ""),
                seq(|msg.choices|, _ => 0), 0, map[], P.Reveal(msg.committee, 0, []))
    {
      owner := sender; // This is in fact the factory contract
      stakingPool := msg.stakingPool;
      tally := seq(|msg.choices|, _ => 0);
      config := P.StoredConfig(
        ending, msg.config.quorum, msg.config.minThreshold, msg.choices, false, false, "");
      numOfVoters := 0;
      votes := map[];
      revealConfig := P.Reveal(msg.committee, 0, []);
    }

    method RequireVoteOngoing(time: nat) returns (r: Result<()>)
      ensures r == if P.Ongoing(Model(), time) then Ok(()) else Abort(Closed)
    {
      if time > config.endTimestamp {
        return Abort(Closed);
      }
      return Ok(());
    }

    method UpdateVote(voter: Address, previousVote: Option<P.Vote>, newVote: P.Vote) returns (r: Result<()>)
      modifies this`tally, this`numOfVoters, this`votes
      ensures Follows(P.UpdateVote(old(Model()), voter, previousVote, newVote), r)
    {
      var slots := tally;
      if previousVote.Some? {
        var previous := previousVote.value;
        if previous.choice >= |slots| {
          return Abort(NotFound);
        }
        var rest :- Sub(slots[previous.choice], previous.votingPower);
        slots := slots[previous.choice := rest];
      } else {
        numOfVoters :- Add64(numOfVoters, 1);
      }
      if newVote.choice >= |slots| {
        return Abort(NotFound);
      }
      var sum :- Add128(slots[newVote.choice], newVote.votingPower);
      slots := slots[newVote.choice := sum];
      votes := votes[voter := newVote];
      tally := slots;
      return Ok(());
    }

    /** From an exact tally the update commits unless the new vote itself does not fit; and then
        each slot is again the power of those who chose it. */
    method Vote(time: nat, sender: Address, choice: nat, stake: nat, digest: string) returns (r: Result<()>)
      modifies this`config, this`tally, this`numOfVoters, this`votes
      ensures Follows(P.ApplyVote(old(Model()), time, sender, choice, stake, digest), r)
      ensures PollTally.Exact(old(Model())) && r.Ok? ==>
                PollTally.Exact(Model()) && Model().votes == old(votes)[sender := P.Vote(choice, stake)]
    {
      ghost var before := Model();
      var _ :- RequireVoteOngoing(time);
      var previous := if sender in votes then Some(votes[sender]) else None;
      var _ :- UpdateVote(sender, previous, P.Vote(choice, stake));
      config := config.(rollingHash := digest);
      if PollTally.Exact(before) {
        PollTally.UpdateKeepsExact(before, sender, P.Vote(choice, stake));
      }
      return Ok(());
    }

    method UpdateVotingPower(time: nat, sender: Address, voter: Address, newPower: nat) returns (r: Result<()>)
      modifies this`tally, this`numOfVoters, this`votes
      ensures Follows(P.ApplyPower(old(Model()), time, sender, voter, newPower), r)
      ensures PollTally.Exact(old(Model())) && r.Ok? ==>
                && PollTally.Exact(Model())
                && votes == if voter in old(votes) then old(votes)[voter := P.Vote(old(votes)[voter].choice, newPower)]
                            else old(votes)
    {
      ghost var before := Model();
      var _ :- RequireVoteOngoing(time);
      if sender != owner {
        return Abort(Unauthorized);
      }
      if voter in votes {
        var previous := votes[voter];
        var _ :- UpdateVote(voter, Some(previous), P.Vote(previous.choice, newPower));
        if PollTally.Exact(before) {
          PollTally.UpdateKeepsExact(before, voter, P.Vote(previous.choice, newPower));
        }
      }
      return Ok(());
    }

    method Finalize(time: nat, sender: Address, rollingHash: string, totalLocked: nat) returns (r: Result<()>)
      modifies this`config, this`revealConfig
      ensures Follows(P.ApplyFinalize(old(Model()), time, sender, rollingHash, totalLocked), r)
    {
      if time < config.endTimestamp {
        return Abort(Closed);
      }
      if config.rollingHash != rollingHash {
        return Abort(Malformed);
      }
      if sender !in revealConfig.committee.revealers {
        return Abort(Unauthorized);
      }
      if sender in revealConfig.revealed {
        return Abort(Malformed);
      }
      revealConfig := revealConfig.(revealed := revealConfig.revealed + [sender]);
      var count :- Add64(revealConfig.numRevealed, 1);
      revealConfig := revealConfig.(numRevealed := count);
      if revealConfig.numRevealed > revealConfig.committee.n {
        return Ok(());
      } else if revealConfig.numRevealed < revealConfig.committee.n {
        return Ok(());
      }

      config := config.(finalized := true);
      if tally == [] {
        return Abort(Malformed);
      }
      var totalVoteCount :- TotalOf(tally);
      var scaled :- Mul128(100, totalVoteCount);
      var participation :- Div(scaled, totalLocked);
      if participation > config.quorum {
        config := config.(valid := true);
      }
      var winning := WinnerOf(tally);
      config := config.(valid := config.valid && winning > config.minThreshold);
      return Ok(());
    }
  }

  /** The init entry point: the sanity checks, the end time, and the first contents of storage. */
  method Instantiate(sender: Address, time: nat, msg: P.InitMsg) returns (r: Result<Contract>)
    ensures match P.Init(sender, time, msg)
            case Ok(state) => r.Ok? && fresh(r.value) && r.value.Model() == state && PollTally.Exact(state)
            case Abort(error) => r == Abort(error)
  {
    if |msg.choices| < 2 {
      return Abort(Malformed);
    }
    if |msg.metadata.title| < 2 {
      return Abort(Malformed);
    }
    if |msg.metadata.description| < 10 {
      return Abort(Malformed);
    }
    if |msg.metadata.authorAlias| < 3 {
      return Abort(Malformed);
    }
    var ending :- Add64(time, msg.config.duration);
    var poll := new Contract(sender, ending, msg);
    PollTally.InitValid(sender, time, msg);
    return Ok(poll);
  }

  lemma {:induction false} TotalGrows(tally: seq<nat>, i: nat)
    requires i < |tally|
    ensures P.SumTally(tally[..i + 1]) == P.SumTally(tally[..i]) + tally[i]
    ensures P.SumTally(tally[..i + 1]) <= P.SumTally(tally)
  {
    assert tally[..i + 1][..i] == tally[..i];
    if i + 1 < |tally| {
      var rest := tally[..|tally| - 1];
      TotalGrows(rest, i);
      assert rest[..i + 1] == tally[..i + 1] && rest[..i] == tally[..i];
    } else {
      assert tally[..i + 1] == tally;
    }
  }

  /** The checked sum over all slots. */
  method TotalOf(tally: seq<nat>) returns (r: Result<nat>)
    ensures r == if P.SumTally(tally) < U128_LIMIT then Ok(P.SumTally(tally)) else Abort(Arithmetic)
  {
    var total := 0;
    for i := 0 to |tally|
      invariant total == P.SumTally(tally[..i]) < U128_LIMIT
    {
      TotalGrows(tally, i);
      total :- Add128(total, tally[i]);
    }
    assert tally[..|tally|] == tally;
    return Ok(total);
  }

  /** The largest slot: no slot exceeds it, and some slot has it. */
  method WinnerOf(tally: seq<nat>) returns (winning: nat)
    requires tally != []
    ensures winning in tally && forall k | 0 <= k < |tally| :: tally[k] <= winning
    ensures winning == P.MaxTally(tally)
  {
    winning := tally[0];
    for i := 1 to |tally|
      invariant winning in tally[..i] && forall k | 0 <= k < i :: tally[k] <= winning
      invariant winning == P.MaxTally(tally[..i])
    {
      assert tally[..i + 1][..i] == tally[..i];
      if winning <= tally[i] {
        winning := tally[i];
      }
    }
    assert tally[..|tally|] == tally;
  }
}
