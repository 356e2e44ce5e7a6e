/** The books of the composed system: after any run, each contract's state is what its own
    committed calls made it, the pool received exactly what its sources told it, and it received
    no more than they supplied. */
module RewardBooks {
  import opened Chain
  import opened Messages
  import S = Staking
  import W = WeightMaster
  import B = BulkDistributor
  import opened RewardSystem
  import Solvency = StakingSolvency
  import Books = EmissionBound
  import Bulks = BulkRelease
  import opened Sums

  /** A pool and sources just instantiated. */
  ghost predicate Genesis(w: World) {
    && w.poolCalls == [] && w.received == 0 && w.spent == 0
    && w.pool == S.Init(w.pool.config, w.pool.subscribers)
    && w.PoolAddress() !in w.sources
    && forall a | a in w.sources :: FreshSource(w.sources[a])
  }

  ghost predicate FreshSource(source: Source) {
    match source
    case Master(m, calls) => Books.Fresh(m) && calls == []
    case Bulk(b, calls) => b == B.Init(b.admin, b.spyToReward) && calls == []
  }

  // --- The parts of the books ---

  /** What the listed addresses notified the pool of. */
  ghost function NotifiedBy(sources: set<Address>): (S.State, S.Call) -> int {
    (s: S.State, c: S.Call) => if c.request.Notify? && c.sender in sources then c.request.amount else 0
  }

  /** What anybody else, that is the admin, notified the pool of. */
  ghost function NotifiedByOthers(sources: set<Address>): (S.State, S.Call) -> int {
    (s: S.State, c: S.Call) => if c.request.Notify? && c.sender !in sources then c.request.amount else 0
  }

  /** `outgoing` is paid by a hook but not yet sent, `incoming` has arrived but is not yet notified. */
  ghost predicate PoolBook(origin: World, w: World, outgoing: int, incoming: int) {
    && S.Run(origin.pool, w.poolCalls) == Ok(w.pool)
    && w.pool.config == origin.pool.config
    && Solvency.Total(origin.pool, w.poolCalls, Solvency.CallPaid) == w.spent + outgoing
    && Solvency.Total(origin.pool, w.poolCalls, NotifiedBy(origin.sources.Keys)) == w.received - incoming
  }

  /** A source is where its own calls brought it, and none of them lies in the future. */
  ghost predicate SourceBook(origin: Source, source: Source, start: nat, now: nat) {
    match source
    case Master(m, calls) =>
      && origin.Master? && W.Run(origin.master, calls) == Ok(m)
      && Books.Chronological(start, calls) && Books.Now(start, calls) <= now
    case Bulk(b, calls) =>
      && origin.Bulk? && B.Run(origin.bulk, calls) == Ok(b)
      && Bulks.Chronological(calls) && Bulks.Now(calls) <= now
  }

  /** All a source ever minted or sent, to whomever. */
  ghost function Supplied(origin: Source, source: Source): nat {
    match source
    case Master(_, calls) =>
      if origin.Master? && W.Run(origin.master, calls).Ok? then Books.TotalMinted(origin.master, calls) else 0
    case Bulk(_, calls) => if origin.Bulk? && B.Run(origin.bulk, calls).Ok? then Bulks.Sent(origin.bulk, calls) else 0
  }

  ghost function SuppliedAt(origin: World, w: World): Address -> int {
    a => if a in origin.sources && a in w.sources then Supplied(origin.sources[a], w.sources[a]) else 0
  }

  ghost function TotalSupplied(origin: World, w: World): int {
    Sum(origin.sources.Keys, SuppliedAt(origin, w))
  }

  /** `arriving` is minted or sent to the pool but has not arrived yet. */
  ghost predicate SourceBooks(origin: World, w: World, arriving: nat) {
    && w.sources.Keys == origin.sources.Keys
    && (forall a | a in origin.sources :: SourceBook(origin.sources[a], w.sources[a], origin.height, w.height))
    && w.received + arriving <= TotalSupplied(origin, w)
  }

  ghost predicate Consistent(origin: World, w: World) {
    && w.PoolAddress() == origin.PoolAddress()
    && PoolBook(origin, w, 0, 0)
    && SourceBooks(origin, w, 0)
    && w.spent <= w.received
  }

  // --- What messages bring ---

  function Arriving(ms: seq<Message>, pool: Address): nat {
    if ms == [] then 0
    else
      var m := ms[|ms| - 1];
      Arriving(ms[..|ms| - 1], pool)
      + (if m.MintReward? && m.minted == pool then m.mintAmount
         else if m.TransferReward? && m.rewarded == pool then m.reward else 0)
  }

  function Announced(ms: seq<Message>, pool: Address): nat {
    if ms == [] then 0
    else
      var m := ms[|ms| - 1];
      Announced(ms[..|ms| - 1], pool) + (if m.NotifyAllocation? && m.notified == pool then m.granted else 0)
  }

  lemma {:induction false} ArrivalsConcat(a: seq<Message>, b: seq<Message>, pool: Address)
    ensures Arriving(a + b, pool) == Arriving(a, pool) + Arriving(b, pool)
    ensures Announced(a + b, pool) == Announced(a, pool) + Announced(b, pool)
  {
    if b == [] {
      assert a + b == a;
    } else {
      ArrivalsConcat(a, b[..|b| - 1], pool);
      assert (a + b)[..|a + b| - 1] == a + b[..|b| - 1];
    }
  }

  lemma OneArrival(m: Message, pool: Address)
    ensures Arriving([m], pool) == (if m.MintReward? && m.minted == pool then m.mintAmount
                                    else if m.TransferReward? && m.rewarded == pool then m.reward else 0)
    ensures Announced([m], pool) == (if m.NotifyAllocation? && m.notified == pool then m.granted else 0)
  {
    assert [m][..0] == [];
  }

  /** A source announces exactly what it brings. */
  ghost predicate Honest(ms: seq<Message>, pool: Address) {
    Arriving(ms, pool) == Announced(ms, pool)
  }

  lemma MintPairHonest(spy: Address, rewards: nat, pool: Address)
    ensures Honest([MintReward(spy, rewards), NotifyAllocation(spy, rewards)], pool)
    ensures Arriving([MintReward(spy, rewards), NotifyAllocation(spy, rewards)], pool) <= rewards
  {
    OneArrival(MintReward(spy, rewards), pool);
    OneArrival(NotifyAllocation(spy, rewards), pool);
    ArrivalsConcat([MintReward(spy, rewards)], [NotifyAllocation(spy, rewards)], pool);
    assert [MintReward(spy, rewards)] + [NotifyAllocation(spy, rewards)]
           == [MintReward(spy, rewards), NotifyAllocation(spy, rewards)];
  }

  lemma {:induction false} SetAllHonest(s: W.State, height: nat, weights: seq<W.WeightInfo>, pool: Address)
    requires W.SetAll(s, height, weights).Ok?
    ensures var ms := W.SetAll(s, height, weights).value.messages;
      Honest(ms, pool) && Arriving(ms, pool) <= W.Minted(ms)
  {
    if weights != [] {
      var info := weights[|weights| - 1];
      SetAllHonest(s, height, weights[..|weights| - 1], pool);
      var p := W.SetAll(s, height, weights[..|weights| - 1]).value;
      var settings := W.SpyOf(p.spies, info.address, height);
      if W.Stale(settings, height) {
        var rewards := W.SpyRewards(s.schedule, settings, height, s.totalWeight).value;
        var pair := [MintReward(info.address, rewards), NotifyAllocation(info.address, rewards)];
        MintPairHonest(info.address, rewards, pool);
        Books.MintedPair(info.address, rewards);
        ArrivalsConcat(p.messages, pair, pool);
        Books.MintedConcat(p.messages, pair);
      } else {
        assert p.messages + [] == p.messages;
      }
    }
  }

  lemma MasterHonest(s: W.State, call: W.Call, pool: Address)
    requires W.Handle(s, call).Ok?
    ensures var ms := W.Handle(s, call).value.messages;
      Honest(ms, pool) && Arriving(ms, pool) <= W.Minted(ms)
  {
    match call.request
    case Update(spy) =>
      var settings := W.SpyOf(s.spies, spy, call.height);
      if W.Stale(settings, call.height) {
        var rewards := W.SpyRewards(s.schedule, settings, call.height, s.totalWeight).value;
        MintPairHonest(spy, rewards, pool);
        Books.MintedPair(spy, rewards);
      } else {
        OneArrival(NotifyAllocation(spy, 0), pool);
      }
    case SetWeights(weights) => SetAllHonest(s, call.height, weights, pool);
    case SetSchedule(_) =>
  }

  lemma BulkHonest(s: B.State, call: B.Call, pool: Address)
    requires B.Handle(s, call).Ok?
    ensures var ms := B.Handle(s, call).value.messages;
      Honest(ms, pool) && Arriving(ms, pool) <= Rewards(ms)
  {
    var ms := B.Handle(s, call).value.messages;
    var note := ms[|ms| - 1];
    OneArrival(note, pool);
    if |ms| == 1 {
      assert ms == [note];
    } else {
      OneArrival(ms[0], pool);
      ArrivalsConcat([ms[0]], [note], pool);
      assert ms == [ms[0]] + [note];
      RewardsConcat([ms[0]], [note], pool);
    }
  }

  // --- One call to one contract ---

  /** A committed call extends a source's own run by one, and its supply by what it sends. */
  lemma MasterStep(origin: Source, source: Source, start: nat, now: nat, call: W.Call)
    requires source.Master? && SourceBook(origin, source, start, now)
    requires call.height == now && start <= now && W.Handle(source.master, call).Ok?
    ensures var out := W.Handle(source.master, call).value;
      var next := Master(out.state, source.masterCalls + [call]);
      && SourceBook(origin, next, start, now)
      && Supplied(origin, next) == Supplied(origin, source) + W.Minted(out.messages)
  {
    assert (source.masterCalls + [call])[..|source.masterCalls|] == source.masterCalls;
  }

  lemma BulkStep(origin: Source, source: Source, start: nat, now: nat, call: B.Call)
    requires source.Bulk? && SourceBook(origin, source, start, now)
    requires call.height == now && B.Handle(source.bulk, call).Ok?
    ensures var out := B.Handle(source.bulk, call).value;
      var next := Bulk(out.state, source.bulkCalls + [call]);
      && SourceBook(origin, next, start, now)
      && Supplied(origin, next) == Supplied(origin, source) + Rewards(out.messages)
  {
    assert (source.bulkCalls + [call])[..|source.bulkCalls|] == source.bulkCalls;
  }

  /** Replacing one source by one that supplied more. */
  lemma ReplaceSource(origin: World, w: World, at: Address, next: Source, arriving: nat)
    requires SourceBooks(origin, w, 0) && at in w.sources
    requires SourceBook(origin.sources[at], next, origin.height, w.height)
    requires Supplied(origin.sources[at], next) >= Supplied(origin.sources[at], w.sources[at]) + arriving
    ensures SourceBooks(origin, w.(sources := w.sources[at := next]), arriving)
  {
    hide SourceBook, Supplied;
    var v := w.(sources := w.sources[at := next]);
    SumUpdate(origin.sources.Keys, SuppliedAt(origin, w), SuppliedAt(origin, v), at);
    assert origin.sources.Keys + {at} == origin.sources.Keys;
  }

  lemma {:induction false} MasterCallBooks(origin: World, w: World, at: Address, sender: Address, request: W.Request)
    requires origin.height <= w.height && SourceBooks(origin, w, 0) && CallMaster(w, at, sender, request).Ok?
    ensures var reply := CallMaster(w, at, sender, request).value;
      && Honest(reply.messages, w.PoolAddress())
      && SourceBooks(origin, reply.world, Arriving(reply.messages, w.PoolAddress()))
  {
    var source := w.sources[at];
    var call := W.Call(w.height, sender, request);
    MasterHonest(source.master, call, w.PoolAddress());
    MasterStep(origin.sources[at], source, origin.height, w.height, call);
    var out := W.Handle(source.master, call).value;
    hide SourceBook, Supplied, SourceBooks, Honest;
    ReplaceSource(origin, w, at, Master(out.state, source.masterCalls + [call]), Arriving(out.messages, w.PoolAddress()));
  }

  lemma {:induction false} BulkCallBooks(origin: World, w: World, at: Address, request: B.Request)
    requires SourceBooks(origin, w, 0) && CallBulk(w, at, request).Ok?
    ensures var reply := CallBulk(w, at, request).value;
      && Honest(reply.messages, w.PoolAddress())
      && SourceBooks(origin, reply.world, Arriving(reply.messages, w.PoolAddress()))
  {
    var source := w.sources[at];
    var call := B.Call(w.height, request);
    BulkHonest(source.bulk, call, w.PoolAddress());
    BulkStep(origin.sources[at], source, origin.height, w.height, call);
    var out := B.Handle(source.bulk, call).value;
    hide SourceBook, Supplied, SourceBooks, Honest;
    ReplaceSource(origin, w, at, Bulk(out.state, source.bulkCalls + [call]), Arriving(out.messages, w.PoolAddress()));
  }

  lemma PoolCallBook(origin: World, w: World, sender: Address, request: S.Request, outgoing: int, incoming: int)
    requires PoolBook(origin, w, outgoing, incoming) && CallPool(w, sender, request).Ok?
    ensures var reply := CallPool(w, sender, request).value;
      var announced := if request.Notify? && sender in origin.sources then request.amount else 0;
      PoolBook(origin, reply.world, outgoing + Rewards(reply.messages), incoming - announced)
  {
    var call := S.Call(sender, request);
    Solvency.Extend(origin.pool, w.poolCalls, call, Solvency.CallPaid);
    Solvency.Extend(origin.pool, w.poolCalls, call, NotifiedBy(origin.sources.Keys));
    Solvency.ConfigStays(w.pool, call);
  }

  // --- Delivering messages ---

  lemma {:induction false} SourceDelivery(origin: World, w: World, at: Address, ms: seq<Message>, incoming: int)
    requires PoolBook(origin, w, 0, incoming) && at in origin.sources
    requires DeliverAllFromSource(w, at, ms).Ok?
    ensures var v := DeliverAllFromSource(w, at, ms).value;
      && PoolBook(origin, v, 0, incoming + Arriving(ms, w.PoolAddress()) - Announced(ms, w.PoolAddress()))
      && v.received == w.received + Arriving(ms, w.PoolAddress())
      && v.spent == w.spent && v.sources == w.sources && v.height == w.height
      && v.PoolAddress() == w.PoolAddress()
  {
    hide PoolBook, DeliverFromSource;
    if ms != [] {
      var before := ms[..|ms| - 1];
      var m := ms[|ms| - 1];
      OneArrival(m, w.PoolAddress());
      SourceDelivery(origin, w, at, before, incoming);
      var mid := DeliverAllFromSource(w, at, before).value;
      var left := incoming + Arriving(before, w.PoolAddress()) - Announced(before, w.PoolAddress());
      SourceDeliveryStep(origin, mid, at, m, left);
    }
  }

  lemma SourceDeliveryStep(origin: World, w: World, at: Address, m: Message, incoming: int)
    requires PoolBook(origin, w, 0, incoming) && at in origin.sources
    requires DeliverFromSource(w, at, m).Ok?
    ensures var v := DeliverFromSource(w, at, m).value;
      && PoolBook(origin, v, 0, incoming + Arriving([m], w.PoolAddress()) - Announced([m], w.PoolAddress()))
      && v.received == w.received + Arriving([m], w.PoolAddress())
      && v.spent == w.spent && v.sources == w.sources && v.height == w.height
      && v.PoolAddress() == w.PoolAddress()
  {
    OneArrival(m, w.PoolAddress());
    if m.NotifyAllocation? && m.notified == w.PoolAddress() {
      PoolCallBook(origin, w, at, S.Notify(m.granted), 0, incoming);
      Solvency.ConfigStays(w.pool, S.Call(at, S.Notify(m.granted)));
    }
  }

  /** A source's call and everything it sends leave the books balanced. */
  lemma {:induction false} ReplyBalances(origin: World, w: World, at: Address, reply: Reply)
    requires Consistent(origin, w) && at in origin.sources
    requires reply.world == w.(sources := reply.world.sources)
    requires Honest(reply.messages, w.PoolAddress())
    requires SourceBooks(origin, reply.world, Arriving(reply.messages, w.PoolAddress()))
    requires DeliverAllFromSource(reply.world, at, reply.messages).Ok?
    ensures Consistent(origin, DeliverAllFromSource(reply.world, at, reply.messages).value)
    ensures DeliverAllFromSource(reply.world, at, reply.messages).value.height == w.height
  {
    hide DeliverAllFromSource, Arriving, Announced, SourceBook, Supplied, Sum;
    assert PoolBook(origin, reply.world, 0, 0);
    var v := DeliverAllFromSource(reply.world, at, reply.messages).value;
    SourceDelivery(origin, reply.world, at, reply.messages, 0);
    hide PoolBook;
    BooksDelivered(origin, reply.world, v, Arriving(reply.messages, w.PoolAddress()));
  }

  /** What was on its way has arrived. */
  lemma BooksDelivered(origin: World, w: World, v: World, arriving: nat)
    requires SourceBooks(origin, w, arriving)
    requires v.sources == w.sources && v.height == w.height && v.received == w.received + arriving
    ensures SourceBooks(origin, v, 0)
  {
    hide SourceBook, Supplied;
    SumAgree(origin.sources.Keys, SuppliedAt(origin, w), SuppliedAt(origin, v));
  }

  lemma UpdateBalances(origin: World, w: World, at: Address, sender: Address, spy: Address)
    requires Consistent(origin, w) && origin.height <= w.height && UpdateSource(w, at, sender, spy).Ok?
    ensures Consistent(origin, UpdateSource(w, at, sender, spy).value)
    ensures UpdateSource(w, at, sender, spy).value.height == w.height
  {
    var reply := CallUpdate(w, at, sender, spy).value;
    if w.sources[at].Bulk? {
      BulkCallBooks(origin, w, at, B.Update);
    } else {
      MasterCallBooks(origin, w, at, sender, W.Update(spy));
    }
    ReplyBalances(origin, w, at, reply);
  }

  lemma OneReward(m: Message)
    ensures Rewards([m]) == (if m.TransferReward? then m.reward else 0)
  {
    assert [m][1..] == [];
  }

  lemma {:induction false} HookDelivery(w: World, ms: seq<Message>)
    requires DeliverAllFromHook(w, ms).Ok? && w.spent <= w.received
    ensures var v := DeliverAllFromHook(w, ms).value;
      v == w.(spent := w.spent + Rewards(ms)) && v.spent <= v.received
  {
    if ms != [] {
      var before := ms[..|ms| - 1];
      HookDelivery(w, before);
      OneReward(ms[|ms| - 1]);
      hide Rewards;
      RewardsConcat(before, [ms[|ms| - 1]], w.PoolAddress());
      assert ms == before + [ms[|ms| - 1]];
    }
  }

  lemma SameSources(origin: World, w: World, v: World, arriving: nat)
    requires SourceBooks(origin, w, arriving)
    requires v.sources == w.sources && v.height == w.height && v.received == w.received
    ensures SourceBooks(origin, v, arriving)
  {
    SumAgree(origin.sources.Keys, SuppliedAt(origin, w), SuppliedAt(origin, v));
  }

  lemma HookBalances(origin: World, w: World, hook: Hook)
    requires Consistent(origin, w) && Genesis(origin) && DeliverFromPool(w, SelfCallback(hook)).Ok?
    ensures Consistent(origin, DeliverFromPool(w, SelfCallback(hook)).value)
    ensures DeliverFromPool(w, SelfCallback(hook)).value.height == w.height
  {
    var reply := CallPool(w, w.PoolAddress(), S.Callback(hook)).value;
    PoolCallBook(origin, w, w.PoolAddress(), S.Callback(hook), 0, 0);
    Solvency.ConfigStays(w.pool, S.Call(w.PoolAddress(), S.Callback(hook)));
    HookDelivery(reply.world, reply.messages);
    SameSources(origin, w, DeliverFromPool(w, SelfCallback(hook)).value, 0);
  }

  lemma {:induction false} PoolDelivery(origin: World, w: World, ms: seq<Message>)
    requires Consistent(origin, w) && Genesis(origin) && origin.height <= w.height
    requires DeliverAllFromPool(w, ms).Ok?
    requires forall m | m in ms :: !m.TransferReward?
    ensures Consistent(origin, DeliverAllFromPool(w, ms).value)
    ensures DeliverAllFromPool(w, ms).value.height == w.height
  {
    if ms != [] {
      var m := ms[|ms| - 1];
      assert m in ms;
      PoolDelivery(origin, w, ms[..|ms| - 1]);
      var mid := DeliverAllFromPool(w, ms[..|ms| - 1]).value;
      match m {
        case UpdateAllocation(source, spy) => UpdateBalances(origin, mid, source, mid.PoolAddress(), spy);
        case SelfCallback(hook) => HookBalances(origin, mid, hook);
        case _ =>
      }
    }
  }

  // --- Whole runs ---

  /** A call from outside pays nothing by itself. */
  lemma CalledConsistent(origin: World, w: World, sender: Address, request: S.Request)
    requires Consistent(origin, w) && FromOutside(w, sender) && CallPool(w, sender, request).Ok?
    ensures Consistent(origin, CallPool(w, sender, request).value.world)
    ensures forall m | m in CallPool(w, sender, request).value.messages :: !m.TransferReward?
  {
    PoolCallBook(origin, w, sender, request, 0, 0);
    Solvency.ConfigStays(w.pool, S.Call(sender, request));
    SameSources(origin, w, CallPool(w, sender, request).value.world, 0);
    OnlyHooksPay(w.pool, S.Call(sender, request));
  }

  lemma {:induction false} ToPoolBalances(origin: World, w: World, sender: Address, request: S.Request)
    requires Consistent(origin, w) && Genesis(origin) && origin.height <= w.height
    requires Execute(w, ToPool(sender, request)).Ok?
    ensures Consistent(origin, Execute(w, ToPool(sender, request)).value)
    ensures Execute(w, ToPool(sender, request)).value.height == w.height
  {
    var reply := CallPool(w, sender, request).value;
    CalledConsistent(origin, w, sender, request);
    PoolDelivery(origin, reply.world, reply.messages);
  }

  lemma OnlyHooksPay(s: S.State, call: S.Call)
    requires S.Handle(s, call).Ok? && call.sender != s.config.ownAddr
    ensures forall m | m in S.Handle(s, call).value.messages :: !m.TransferReward?
    ensures Rewards(S.Handle(s, call).value.messages) == 0
  {
    NoRewards(S.Handle(s, call).value.messages, call.sender);
  }

  lemma {:induction false} ExecuteBalances(origin: World, w: World, t: Transaction)
    requires Consistent(origin, w) && Genesis(origin) && origin.height <= w.height && Execute(w, t).Ok?
    ensures Consistent(origin, Execute(w, t).value)
    ensures Execute(w, t).value.height == w.height
  {
    match t
    case ToPool(sender, request) => ToPoolBalances(origin, w, sender, request);
    case ToMaster(at, caller, asked) =>
      MasterCallBooks(origin, w, at, caller, asked);
      ReplyBalances(origin, w, at, CallMaster(w, at, caller, asked).value);
    case ToBulk(at, added) =>
      BulkCallBooks(origin, w, at, added);
      ReplyBalances(origin, w, at, CallBulk(w, at, added).value);
  }

  lemma LaterIsConsistent(origin: World, w: World, height: nat)
    requires Consistent(origin, w) && w.height <= height
    ensures Consistent(origin, w.(height := height))
  {
    SumAgree(origin.sources.Keys, SuppliedAt(origin, w), SuppliedAt(origin, w.(height := height)));
    forall a | a in origin.sources
      ensures SourceBook(origin.sources[a], w.sources[a], origin.height, height)
    {
      assert SourceBook(origin.sources[a], w.sources[a], origin.height, w.height);
    }
  }

  lemma GenesisIsConsistent(origin: World)
    requires Genesis(origin)
    ensures Consistent(origin, origin)
  {
    SumNonNegative(origin.sources.Keys, SuppliedAt(origin, origin));
    forall a | a in origin.sources
      ensures SourceBook(origin.sources[a], origin.sources[a], origin.height, origin.height)
    {
      assert FreshSource(origin.sources[a]);
    }
  }

  /** In every reachable world the books balance. */
  lemma {:induction false} AlwaysConsistent(origin: World, events: seq<Event>)
    requires Genesis(origin) && Run(origin, events).Ok?
    ensures Consistent(origin, Run(origin, events).value)
    ensures origin.height <= Run(origin, events).value.height
  {
    if events == [] {
      GenesisIsConsistent(origin);
    } else {
      var before := events[..|events| - 1];
      var e := events[|events| - 1];
      AlwaysConsistent(origin, before);
      var w := Run(origin, before).value;
      LaterIsConsistent(origin, w, e.height);
      ExecuteBalances(origin, w.(height := e.height), e.transaction);
    }
  }
}
