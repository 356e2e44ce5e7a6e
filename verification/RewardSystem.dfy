/** A staking pool together with the contracts that feed it: any number of weight-masters and
    bulk-distributors. A transaction calls one contract and delivers every message that follows,
    in order and depth first; if any part aborts, all of it does. */
module RewardSystem {
  import opened Chain
  import opened Messages
  import S = Staking
  import W = WeightMaster
  import B = BulkDistributor

  /** A reward source, with the calls it has committed so far. */
  datatype Source =
    | Master(master: W.State, masterCalls: seq<W.Call>)
    | Bulk(bulk: B.State, bulkCalls: seq<B.Call>)

  /** `received` and `spent` count the reward tokens that moved to and from the pool. */
  datatype World = World(
    height: nat,
    pool: S.State,
    poolCalls: seq<S.Call>,
    sources: map<Address, Source>,
    received: nat,
    spent: nat)
  {
    function PoolAddress(): Address {
      pool.config.ownAddr
    }
  }

  datatype Reply = Reply(world: World, messages: seq<Message>)

  function CallPool(w: World, sender: Address, request: S.Request): Result<Reply> {
    var call := S.Call(sender, request);
    var out :- S.Handle(w.pool, call);
    Ok(Reply(w.(pool := out.state, poolCalls := w.poolCalls + [call]), out.messages))
  }

  function CallMaster(w: World, at: Address, sender: Address, request: W.Request): Result<Reply> {
    if at !in w.sources || !w.sources[at].Master? then Abort(NotFound)
    else
      var source := w.sources[at];
      var call := W.Call(w.height, sender, request);
      var out :- W.Handle(source.master, call);
      Ok(Reply(w.(sources := w.sources[at := Master(out.state, source.masterCalls + [call])]), out.messages))
  }

  function CallBulk(w: World, at: Address, request: B.Request): Result<Reply> {
    if at !in w.sources || !w.sources[at].Bulk? then Abort(NotFound)
    else
      var source := w.sources[at];
      var call := B.Call(w.height, request);
      var out :- B.Handle(source.bulk, call);
      Ok(Reply(w.(sources := w.sources[at := Bulk(out.state, source.bulkCalls + [call])]), out.messages))
  }

  /** A bulk-distributor always reports to its own spy. */
  function CallUpdate(w: World, at: Address, sender: Address, spy: Address): Result<Reply> {
    if at in w.sources && w.sources[at].Bulk? then CallBulk(w, at, B.Update)
    else CallMaster(w, at, sender, W.Update(spy))
  }

  /** Tokens and notifications a source sends. Other spies than the pool are outside the model. */
  function DeliverFromSource(w: World, at: Address, m: Message): Result<World> {
    match m
    case MintReward(to, amount) => Ok(if to == w.PoolAddress() then w.(received := w.received + amount) else w)
    case TransferReward(to, amount) => Ok(if to == w.PoolAddress() then w.(received := w.received + amount) else w)
    case NotifyAllocation(to, amount) =>
      if to == w.PoolAddress() then
        var reply :- CallPool(w, at, S.Notify(amount));
        Ok(reply.world)
      else Ok(w)
    case _ => Abort(Malformed)
  }

  function DeliverAllFromSource(w: World, at: Address, ms: seq<Message>): Result<World> {
    if ms == [] then Ok(w)
    else
      var before :- DeliverAllFromSource(w, at, ms[..|ms| - 1]);
      DeliverFromSource(before, at, ms[|ms| - 1])
  }

  /** What a hook sends: rewards the pool must hold, stake, and news to the subscribers. */
  function DeliverFromHook(w: World, m: Message): Result<World> {
    match m
    case TransferReward(_, amount) =>
      if w.received - w.spent < amount then Abort(InsufficientFunds) else Ok(w.(spent := w.spent + amount))
    case TransferStake(_, _) => Ok(w)
    case UpdateVotingPower(_, _, _) => Ok(w)
    case _ => Abort(Malformed)
  }

  function DeliverAllFromHook(w: World, ms: seq<Message>): Result<World> {
    if ms == [] then Ok(w)
    else
      var before :- DeliverAllFromHook(w, ms[..|ms| - 1]);
      DeliverFromHook(before, ms[|ms| - 1])
  }

  function UpdateSource(w: World, at: Address, sender: Address, spy: Address): Result<World> {
    var reply :- CallUpdate(w, at, sender, spy);
    DeliverAllFromSource(reply.world, at, reply.messages)
  }

  /** What the pool sends at the top level of a transaction. */
  function DeliverFromPool(w: World, m: Message): Result<World> {
    match m
    case UpdateAllocation(source, spy) => UpdateSource(w, source, w.PoolAddress(), spy)
    case SelfCallback(hook) =>
      var reply :- CallPool(w, w.PoolAddress(), S.Callback(hook));
      DeliverAllFromHook(reply.world, reply.messages)
    case _ => DeliverFromHook(w, m)
  }

  function DeliverAllFromPool(w: World, ms: seq<Message>): Result<World> {
    if ms == [] then Ok(w)
    else
      var before :- DeliverAllFromPool(w, ms[..|ms| - 1]);
      DeliverFromPool(before, ms[|ms| - 1])
  }

  /** A call from outside. Tokens arrive with `Receive` and `NewBulk`. */
  datatype Transaction =
    | ToPool(sender: Address, request: S.Request)
    | ToMaster(at: Address, caller: Address, asked: W.Request)
    | ToBulk(at: Address, added: B.Request)

  datatype Event = Event(height: nat, transaction: Transaction)

  /** Nobody outside can speak as the pool or as one of its sources, and the pool does not
      stake with itself. */
  predicate FromOutside(w: World, sender: Address) {
    sender != w.PoolAddress() && sender !in w.sources
  }

  function Execute(w: World, t: Transaction): Result<World> {
    match t
    case ToPool(sender, request) =>
      if !FromOutside(w, sender) then Abort(Unauthorized)
      else
        var reply :- CallPool(w, sender, request);
        DeliverAllFromPool(reply.world, reply.messages)
    case ToMaster(at, caller, asked) =>
      var reply :- CallMaster(w, at, caller, asked);
      DeliverAllFromSource(reply.world, at, reply.messages)
    case ToBulk(at, added) =>
      var reply :- CallBulk(w, at, added);
      DeliverAllFromSource(reply.world, at, reply.messages)
  }

  /** Blocks only move forward. */
  function Commit(w: World, e: Event): Result<World> {
    if e.height < w.height then Abort(Malformed) else Execute(w.(height := e.height), e.transaction)
  }

  function Run(w: World, events: seq<Event>): Result<World> {
    if events == [] then Ok(w)
    else
      var before :- Run(w, events[..|events| - 1]);
      Commit(before, events[|events| - 1])
  }
}
