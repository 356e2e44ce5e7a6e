/** A staking pool, the poll factory that subscribes to it, and the polls the factory created.
    One event is one call from outside together with every message it causes among them. */
module Governance {
  import opened Chain
  import opened Messages
  import S = Staking
  import P = SecretPoll
  import F = PollFactory

  datatype World = World(
    time: nat,
    pool: S.State,
    factoryAddress: Address,
    factory: F.State,
    polls: map<Address, P.State>)

  datatype Action =
    | ToPool(call: S.Call)
    | CreatePoll(
        author: Address, metadata: P.Metadata, config: Option<P.PollConfig>, choices: seq<string>,
        nonce: string, address: Address)
    | Vote(poll: Address, voter: Address, choice: nat, digest: string)
    | Reveal(poll: Address, revealer: Address, rollingHash: string)
    | ReportToPoll(poll: Address, sender: Address, reported: Address, power: nat)
    | ReportToFactory(sender: Address, reported: Address, power: nat)
    | RegisterPoll(sender: Address, response: string, endTime: nat)

  datatype Event = Event(time: nat, action: Action)

  /** The factory's messages to the polls, in order. */
  function Forward(polls: map<Address, P.State>, factory: Address, time: nat, ms: seq<Message>)
    : Result<map<Address, P.State>>
  {
    if ms == [] then Ok(polls)
    else
      var before :- Forward(polls, factory, time, ms[..|ms| - 1]);
      match ms[|ms| - 1]
      case UpdateVotingPower(poll, voter, power) =>
        if poll !in before then Abort(NotFound)
        else
          var updated :- P.Handle(before[poll], P.Call(time, factory, P.UpdatePower(voter, power)));
          Ok(before[poll := updated])
      case _ => Abort(Malformed)
  }

  function TellFactory(w: World, sender: Address, voter: Address, power: nat): Result<World> {
    var out :- F.UpdatePower(w.factory, w.time, sender, voter, power);
    var polls :- Forward(w.polls, w.factoryAddress, w.time, out.messages);
    Ok(w.(factory := out.state, polls := polls))
  }

  /** The pool's messages: news goes to the subscribers, the rest leaves the model. */
  function Deliver(w: World, ms: seq<Message>): Result<World> {
    if ms == [] then Ok(w)
    else
      var before :- Deliver(w, ms[..|ms| - 1]);
      match ms[|ms| - 1]
      case UpdateVotingPower(contract, voter, power) =>
        if contract == w.factoryAddress then TellFactory(before, w.pool.config.ownAddr, voter, power) else Ok(before)
      case _ => Ok(before)
  }

  function StakeOf(w: World, u: Address): nat {
    S.UserOf(w.pool.users, u).locked
  }

  /** Instantiates the poll, whose init hook registers it with the factory. */
  function Create(
      w: World, author: Address, metadata: P.Metadata, config: Option<P.PollConfig>, choices: seq<string>,
      nonce: string, address: Address): Result<World>
  {
    if address in w.polls then Abort(Malformed)
    else
      var made :- F.NewPoll(w.factory, w.time, metadata, config, choices, StakeOf(w, author), nonce);
      var poll :- P.Init(w.factoryAddress, w.time, made.msg);
      var factory :- F.Register(made.state, address, made.challenge, made.endTime);
      Ok(w.(factory := factory, polls := w.polls[address := poll]))
  }

  function CallPoll(w: World, poll: Address, sender: Address, request: P.Request): Result<World> {
    if poll !in w.polls then Abort(NotFound)
    else
      var updated :- P.Handle(w.polls[poll], P.Call(w.time, sender, request));
      Ok(w.(polls := w.polls[poll := updated]))
  }

  /** Nobody outside can speak as the pool or as the factory. */
  predicate FromOutside(w: World, sender: Address) {
    sender != w.pool.config.ownAddr && sender != w.factoryAddress
  }

  function Execute(w: World, action: Action): Result<World> {
    match action
    case ToPool(call) =>
      var out :- S.Handle(w.pool, call);
      Deliver(w.(pool := out.state), out.messages)
    case CreatePoll(author, metadata, config, choices, nonce, address) =>
      Create(w, author, metadata, config, choices, nonce, address)
    case Vote(poll, voter, choice, digest) => CallPoll(w, poll, voter, P.CastVote(choice, StakeOf(w, voter), digest))
    case Reveal(poll, revealer, hash) => CallPoll(w, poll, revealer, P.Finalize(hash, w.pool.pool.incTokenSupply))
    case ReportToPoll(poll, sender, reported, power) =>
      if FromOutside(w, sender) then CallPoll(w, poll, sender, P.UpdatePower(reported, power)) else Abort(Unauthorized)
    case ReportToFactory(sender, reported, power) =>
      if FromOutside(w, sender) then TellFactory(w, sender, reported, power) else Abort(Unauthorized)
    case RegisterPoll(sender, response, endTime) =>
      var factory :- F.Register(w.factory, sender, response, endTime);
      Ok(w.(factory := factory))
  }

  /** Time only moves forward. */
  function Commit(w: World, e: Event): Result<World> {
    if e.time < w.time then Abort(Malformed) else Execute(w.(time := e.time), e.action)
  }

  function Run(w: World, events: seq<Event>): Result<World> {
    if events == [] then Ok(w)
    else
      var before :- Run(w, events[..|events| - 1]);
      Commit(before, events[|events| - 1])
  }
}
