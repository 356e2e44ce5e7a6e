/** The poll-factory contract as a state machine over values. A challenge is a fresh nonce: the
    way it is derived and hashed is outside the model. */
module PollFactory {
  import opened Chain
  import opened Messages
  import P = SecretPoll

  datatype ActivePoll = ActivePoll(address: Address, endTime: nat)

  datatype State = State(
    admin: Address,
    stakingPool: Address,
    minStaked: nat,
    committee: P.RevealCommittee,
    defaultConfig: P.PollConfig,
    idCounter: nat,
    challenge: Option<string>,
    activePolls: seq<ActivePoll>)

  /** What a new poll is instantiated with, and the registration it is to call back with. */
  datatype Instantiation = Instantiation(state: State, msg: P.InitMsg, challenge: string, endTime: nat)

  datatype Outcome = Outcome(state: State, messages: seq<Message>)

  function NewPoll(
      s: State, time: nat, metadata: P.Metadata, config: Option<P.PollConfig>, choices: seq<string>,
      stake: nat, nonce: string): Result<Instantiation>
  {
    if stake < s.minStaked then Abort(InsufficientFunds)
    else
      var pollConfig := if config.Some? then config.value else s.defaultConfig;
      var endTime :- Add64(time, pollConfig.duration);
      var id :- Add128(s.idCounter, 1);
      Ok(Instantiation(
           s.(challenge := Some(nonce), idCounter := id),
           P.InitMsg(metadata, pollConfig, s.committee, choices, s.stakingPool),
           nonce, endTime))
  }

  /** Only the holder of the outstanding challenge can register, and only once. */
  function Register(s: State, sender: Address, response: string, endTime: nat): Result<State> {
    if s.challenge != Some(response) then Abort(Unauthorized)
    else Ok(s.(challenge := None, activePolls := s.activePolls + [ActivePoll(sender, endTime)]))
  }

  function Active(polls: seq<ActivePoll>, time: nat): seq<ActivePoll> {
    if polls == [] then []
    else
      var last := polls[|polls| - 1];
      Active(polls[..|polls| - 1], time) + (if last.endTime >= time then [last] else [])
  }

  function Forwards(polls: seq<ActivePoll>, voter: Address, power: nat): seq<Message> {
    seq(|polls|, i requires 0 <= i < |polls| => UpdateVotingPower(polls[i].address, voter, power))
  }

  function UpdatePower(s: State, time: nat, sender: Address, voter: Address, power: nat): Result<Outcome> {
    if sender != s.stakingPool then Abort(Unauthorized)
    else
      var active := Active(s.activePolls, time);
      Ok(Outcome(s.(activePolls := active), Forwards(active, voter, power)))
  }
}
