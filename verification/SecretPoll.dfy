/** The secret-poll contract as a state machine over values. The digest that `roll_hash` makes of
    a vote is a parameter of the call, like the stake its voter has. */
module SecretPoll {
  import opened Chain

  datatype Vote = Vote(choice: nat, votingPower: nat)

  datatype Metadata = Metadata(title: string, description: string, authorAlias: string)

  datatype PollConfig = PollConfig(duration: nat, quorum: nat, minThreshold: nat)

  datatype RevealCommittee = RevealCommittee(n: nat, revealers: seq<Address>)

  datatype InitMsg = InitMsg(
    metadata: Metadata, config: PollConfig, committee: RevealCommittee, choices: seq<string>, stakingPool: Address)

  datatype StoredConfig = StoredConfig(
    endTimestamp: nat,
    quorum: nat,
    minThreshold: nat,
    choices: seq<string>,
    finalized: bool,
    valid: bool,
    rollingHash: string)

  datatype Reveal = Reveal(committee: RevealCommittee, numRevealed: nat, revealed: seq<Address>)

  datatype State = State(
    owner: Address,
    stakingPool: Address,
    config: StoredConfig,
    tally: seq<nat>,
    numOfVoters: nat,
    votes: map<Address, Vote>,
    revealConfig: Reveal)

  datatype Request =
    | CastVote(choice: nat, stake: nat, digest: string)
    | UpdatePower(voter: Address, newPower: nat)
    | Finalize(rollingHash: string, totalLocked: nat)

  datatype Call = Call(time: nat, sender: Address, request: Request)

  function Init(sender: Address, time: nat, msg: InitMsg): Result<State> {
    if |msg.choices| < 2 || |msg.metadata.title| < 2 || |msg.metadata.description| < 10
       || |msg.metadata.authorAlias| < 3 then Abort(Malformed)
    else
      var ending :- Add64(time, msg.config.duration);
      Ok(State(
           sender, msg.stakingPool,
           StoredConfig(ending, msg.config.quorum, msg.config.minThreshold, msg.choices, false, false, ""),
           seq(|msg.choices|, _ => 0), 0, map[], Reveal(msg.committee, 0, [])))
  }

  predicate Ongoing(s: State, time: nat) {
    time <= s.config.endTimestamp
  }

  /** Takes the previous vote out of its choice, or counts a new voter, and then adds the new one. */
  function UpdateVote(s: State, voter: Address, previous: Option<Vote>, vote: Vote): Result<State> {
    var removed :- match previous {
      case Some(p) =>
        if p.choice >= |s.tally| then Abort(NotFound)
        else (var rest :- Sub(s.tally[p.choice], p.votingPower); Ok(s.(tally := s.tally[p.choice := rest])))
      case None =>
        (var voters :- Add64(s.numOfVoters, 1); Ok(s.(numOfVoters := voters)))
    };
    if vote.choice >= |removed.tally| then Abort(NotFound)
    else
      var sum :- Add128(removed.tally[vote.choice], vote.votingPower);
      Ok(removed.(tally := removed.tally[vote.choice := sum], votes := removed.votes[voter := vote]))
  }

  function PreviousVote(s: State, voter: Address): Option<Vote> {
    if voter in s.votes then Some(s.votes[voter]) else None
  }

  function ApplyVote(s: State, time: nat, voter: Address, choice: nat, stake: nat, digest: string): Result<State> {
    if !Ongoing(s, time) then Abort(Closed)
    else
      var t :- UpdateVote(s, voter, PreviousVote(s, voter), Vote(choice, stake));
      Ok(t.(config := t.config.(rollingHash := digest)))
  }

  /** The factory reports a stake; a voter who has not voted is none of the poll's business. */
  function ApplyPower(s: State, time: nat, sender: Address, voter: Address, newPower: nat): Result<State> {
    if !Ongoing(s, time) then Abort(Closed)
    else if sender != s.owner then Abort(Unauthorized)
    else if voter in s.votes then
      UpdateVote(s, voter, Some(s.votes[voter]), Vote(s.votes[voter].choice, newPower))
    else Ok(s)
  }

  function SumTally(tally: seq<nat>): nat {
    if tally == [] then 0 else SumTally(tally[..|tally| - 1]) + tally[|tally| - 1]
  }

  function MaxTally(tally: seq<nat>): nat
    requires tally != []
  {
    if |tally| == 1 then tally[0]
    else
      var before := MaxTally(tally[..|tally| - 1]);
      var last := tally[|tally| - 1];
      if before < last then last else before
  }

  /** The n-th reveal decides the poll; earlier and later ones are only recorded. */
  function ApplyFinalize(s: State, time: nat, sender: Address, rollingHash: string, totalLocked: nat): Result<State> {
    if time < s.config.endTimestamp then Abort(Closed)
    else if s.config.rollingHash != rollingHash then Abort(Malformed)
    else if sender !in s.revealConfig.committee.revealers then Abort(Unauthorized)
    else if sender in s.revealConfig.revealed then Abort(Malformed)
    else
      var count :- Add64(s.revealConfig.numRevealed, 1);
      var recorded := s.(
        revealConfig := s.revealConfig.(numRevealed := count, revealed := s.revealConfig.revealed + [sender]));
      if count != s.revealConfig.committee.n then Ok(recorded)
      else if |s.tally| == 0 then Abort(Malformed)
      else
        var total :- if SumTally(s.tally) < U128_LIMIT then Ok(SumTally(s.tally)) else Abort(Arithmetic);
        var scaled :- Mul128(100, total);
        var participation :- Div(scaled, totalLocked);
        var valid := (s.config.valid || participation > s.config.quorum) && MaxTally(s.tally) > s.config.minThreshold;
        Ok(recorded.(config := s.config.(finalized := true, valid := valid)))
  }

  function Handle(s: State, call: Call): Result<State> {
    match call.request
    case CastVote(choice, stake, digest) => ApplyVote(s, call.time, call.sender, choice, stake, digest)
    case UpdatePower(voter, power) => ApplyPower(s, call.time, call.sender, voter, power)
    case Finalize(hash, totalLocked) => ApplyFinalize(s, call.time, call.sender, hash, totalLocked)
  }

  function Run(s: State, calls: seq<Call>): Result<State> {
    if calls == [] then Ok(s)
    else
      var before :- Run(s, calls[..|calls| - 1]);
      Handle(before, calls[|calls| - 1])
  }
}
