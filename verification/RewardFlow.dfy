/** What holds across the contracts: sources are current whenever stake changes hands, the pool
    holds what it was told it holds, and payouts stay within what was ever emitted. */
module RewardFlow {
  import opened Chain
  import opened Messages
  import S = Staking
  import W = WeightMaster
  import B = BulkDistributor
  import opened RewardSystem
  import Solvency = StakingSolvency
  import Ledger = StakingLedger
  import Books = EmissionBound
  import Bulks = BulkRelease
  import opened RewardBooks
  import opened Sums
  import Query = StakingQuery
  import Schedule

  // --- Sources are current when stake changes ---

  /** An update of the source now would grant the spy nothing. */
  predicate Settled(source: Source, spy: Address, height: nat) {
    match source
    case Master(m, _) => !W.Stale(W.SpyOf(m.spies, spy, height), height)
    case Bulk(b, _) => b.lastAwardedBlock >= height
  }

  /** What a source answers when asked what it would grant. */
  function PendingOf(source: Source, spy: Address, height: nat): Result<nat> {
    match source
    case Master(m, _) => W.QueryPending(m, spy, height)
    case Bulk(b, _) => B.QueryPending(b, height)
  }

  predicate AllSettled(w: World) {
    forall a | a in w.pool.config.rewardSources :: a in w.sources && Settled(w.sources[a], w.PoolAddress(), w.height)
  }

  /** Delivering what a source sends changes no source, no height and no configuration. */
  ghost predicate SamePlace(w: World, v: World) {
    && v.sources == w.sources
    && v.height == w.height
    && v.pool.config == w.pool.config
    && v.pool.users == w.pool.users
  }

  lemma {:induction false} SourceMessagesStay(w: World, at: Address, ms: seq<Message>)
    requires DeliverAllFromSource(w, at, ms).Ok?
    ensures SamePlace(w, DeliverAllFromSource(w, at, ms).value)
  {
    if ms != [] {
      SourceMessagesStay(w, at, ms[..|ms| - 1]);
    }
  }

  lemma UpdateSettles(w: World, at: Address, sender: Address, spy: Address)
    requires UpdateSource(w, at, sender, spy).Ok?
    ensures var v := UpdateSource(w, at, sender, spy).value;
      && at in w.sources && v.sources.Keys == w.sources.Keys
      && Settled(v.sources[at], spy, w.height)
      && (forall a | a in w.sources && a != at :: v.sources[a] == w.sources[a])
      && v.height == w.height && v.pool.config == w.pool.config && v.pool.users == w.pool.users
  {
    var reply := CallUpdate(w, at, sender, spy).value;
    SourceMessagesStay(reply.world, at, reply.messages);
  }

  /** The part of the messages that asks the sources to report. */
  function Requests(config: S.Config): seq<Message> {
    seq(|config.rewardSources|, i requires 0 <= i < |config.rewardSources| =>
      UpdateAllocation(config.rewardSources[i], config.ownAddr))
  }

  lemma {:induction false} RequestsSettle(w: World, n: nat)
    requires n <= |w.pool.config.rewardSources|
    requires DeliverAllFromPool(w, Requests(w.pool.config)[..n]).Ok?
    ensures var v := DeliverAllFromPool(w, Requests(w.pool.config)[..n]).value;
      && v.sources.Keys == w.sources.Keys && v.height == w.height
      && v.pool.config == w.pool.config && v.pool.users == w.pool.users
      && (forall a | a in w.pool.config.rewardSources[..n] ::
            a in v.sources && Settled(v.sources[a], w.PoolAddress(), w.height))
  {
    hide UpdateSource, Settled, CallPool, DeliverFromHook, DeliverAllFromHook;
    if n > 0 {
      var requests := Requests(w.pool.config);
      assert requests[..n][..n - 1] == requests[..n - 1];
      RequestsSettle(w, n - 1);
      var mid := DeliverAllFromPool(w, requests[..n - 1]).value;
      UpdateSettles(mid, w.pool.config.rewardSources[n - 1], w.PoolAddress(), w.PoolAddress());
    }
  }

  /** The world in which the hook of a stake transaction runs. */
  function BeforeHook(w: World): Result<World> {
    DeliverAllFromPool(w, Requests(w.pool.config))
  }

  /** The hook of a user's deposit or redeem, if the transaction is one. */
  function HookOf(sender: Address, request: S.Request): Option<Hook> {
    match request
    case Receive(from, amount) => Some(DepositHook(from, amount))
    case Redeem(amount) => Some(RedeemHook(sender, amount))
    case _ => None
  }

  /** Whenever the hook of a committed deposit or redeem runs, every listed source has reported
      everything up to the current block. */
  lemma {:induction false} SourcesCurrentAtHook(w: World, sender: Address, request: S.Request)
    requires HookOf(sender, request).Some? && Execute(w, ToPool(sender, request)).Ok?
    ensures var called := CallPool(w, sender, request).value.world;
      && BeforeHook(called).Ok?
      && AllSettled(BeforeHook(called).value)
      && BeforeHook(called).value.height == w.height
      && Execute(w, ToPool(sender, request))
         == DeliverFromPool(BeforeHook(called).value, SelfCallback(HookOf(sender, request).value))
  {
    var reply := CallPool(w, sender, request).value;
    var requests := Requests(reply.world.pool.config);
    assert reply.messages == requests + [SelfCallback(HookOf(sender, request).value)];
    assert reply.messages[..|requests|] == requests;
    assert requests[..|requests|] == requests;
    RequestsSettle(reply.world, |requests|);
  }

  /** For a settled source the pending query is zero, or cannot be answered in 128 bits. */
  lemma SettledMeansNothingPending(source: Source, spy: Address, height: nat)
    requires Settled(source, spy, height) && PendingOf(source, spy, height).Ok?
    requires source.Master? ==> Books.Valid(source.master, height)
    requires source.Bulk? ==> source.bulk.lastAwardedBlock <= height
    ensures PendingOf(source, spy, height) == Ok(0)
  {
    match source
    case Master(m, _) =>
      Books.TotalIsPositive(m, height);
      Books.NothingToShare(m.schedule, W.SpyOf(m.spies, spy, height), height, m.totalWeight);
    case Bulk(b, _) =>
      Bulks.NothingReleased(b.bulks, height);
  }

  /** In any reachable world, at any later block: when the hook of a deposit or redeem runs, no
      listed source has anything left to answer for the pool. */
  lemma {:induction false} NothingPendingAtHook(
      origin: World, events: seq<Event>, height: nat, sender: Address, request: S.Request, a: Address)
    requires Genesis(origin) && Run(origin, events).Ok? && Run(origin, events).value.height <= height
    requires HookOf(sender, request).Some?
    requires Execute(Run(origin, events).value.(height := height), ToPool(sender, request)).Ok?
    ensures var called := CallPool(Run(origin, events).value.(height := height), sender, request).value.world;
      && BeforeHook(called).Ok?
      && var w := BeforeHook(called).value;
         a in w.pool.config.rewardSources ==>
           && a in w.sources
           && (PendingOf(w.sources[a], w.PoolAddress(), height).Ok? ==>
                 PendingOf(w.sources[a], w.PoolAddress(), height) == Ok(0))
  {
    hide Run, PendingOf, Settled, DeliverAllFromPool, CallPool, Solvency.Valid;
    AlwaysConsistent(origin, events);
    var later := Run(origin, events).value.(height := height);
    LaterIsConsistent(origin, Run(origin, events).value, height);
    HookWorldConsistent(origin, later, sender, request);
    SourcesCurrentAtHook(later, sender, request);
    var w := BeforeHook(CallPool(later, sender, request).value.world).value;
    if a in w.pool.config.rewardSources && PendingOf(w.sources[a], w.PoolAddress(), height).Ok? {
      SourceIsSound(origin, w, a);
      SettledMeansNothingPending(w.sources[a], w.PoolAddress(), height);
    }
  }

  /** A source in a consistent world is in a state its own run theorems speak of. */
  lemma SourceIsSound(origin: World, w: World, a: Address)
    requires Genesis(origin) && Consistent(origin, w) && a in w.sources
    ensures w.sources[a].Master? ==> Books.Valid(w.sources[a].master, w.height)
    ensures w.sources[a].Bulk? ==> w.sources[a].bulk.lastAwardedBlock <= w.height
  {
    hide Sum, W.Run, B.Run, Books.Chronological, Bulks.Chronological;
    assert FreshSource(origin.sources[a]);
    assert SourceBook(origin.sources[a], w.sources[a], origin.height, w.height);
    match w.sources[a]
    case Master(_, calls) => Books.BooksAlwaysKept(origin.sources[a].master, origin.height, calls);
    case Bulk(_, calls) =>
      Bulks.SentAsPromised(origin.sources[a].bulk.admin, origin.sources[a].bulk.spyToReward, calls);
  }

  // --- What the pool holds against what it owes ---

  lemma {:induction false} AllocatedBySender(s: S.State, calls: seq<S.Call>, sources: set<Address>)
    requires S.Run(s, calls).Ok?
    ensures Solvency.Total(s, calls, Solvency.CallAllocated)
            == Solvency.Total(s, calls, NotifiedBy(sources)) + Solvency.Total(s, calls, NotifiedByOthers(sources))
  {
    if calls != [] {
      AllocatedBySender(s, calls[..|calls| - 1], sources);
    }
  }

  /** Allocations the admin announced without a source behind them. */
  ghost function AdminAllocated(origin: World, w: World): int
    requires S.Run(origin.pool, w.poolCalls).Ok?
  {
    Solvency.Total(origin.pool, w.poolCalls, NotifiedByOthers(origin.sources.Keys))
  }

  ghost function Hooks(origin: World, w: World): int
    requires S.Run(origin.pool, w.poolCalls).Ok?
  {
    Solvency.Total(origin.pool, w.poolCalls, Solvency.CallHooks)
  }

  /** Everything users can claim, and the residue, is covered by the reward tokens the pool
      holds, but for less than one token per settlement and for what the admin announced. */
  lemma {:induction false} HoldingsCoverClaims(origin: World, events: seq<Event>)
    requires Genesis(origin) && Run(origin, events).Ok?
    ensures var w := Run(origin, events).value;
      && S.Run(origin.pool, w.poolCalls) == Ok(w.pool)
      && w.spent <= w.received
      && S.REWARD_SCALE * (Solvency.TotalPending(w.pool) + w.pool.pool.residue)
         <= S.REWARD_SCALE * (w.received - w.spent + AdminAllocated(origin, w)) + (S.REWARD_SCALE - 1) * Hooks(origin, w)
  {
    var w := Run(origin, events).value;
    AlwaysConsistent(origin, events);
    AllocatedBySender(origin.pool, w.poolCalls, origin.sources.Keys);
    Solvency.Solvency(origin.pool.config, origin.pool.subscribers, w.poolCalls);
  }

  // --- Payouts against emissions ---

  /** What a source can have supplied by a block, from its schedule or its bulks alone. */
  ghost function SupplyLimit(origin: Source, source: Source, start: nat, now: nat): nat {
    match source
    case Master(_, calls) => if origin.Master? then Schedule.Emission(origin.master.schedule, start, now) else 0
    case Bulk(_, calls) => Bulks.Promised(calls, now)
  }

  ghost function LimitAt(origin: World, w: World): Address -> int {
    a => if a in origin.sources && a in w.sources
      then SupplyLimit(origin.sources[a], w.sources[a], origin.height, w.height) else 0
  }

  /** Masters keep their schedule and change weights with discipline. */
  ghost predicate WellRun(origin: Source, source: Source) {
    match source
    case Master(_, calls) =>
      origin.Master? && W.Run(origin.master, calls).Ok?
      && Books.FixedSchedule(calls) && Books.DisciplinedRun(origin.master, calls)
    case Bulk(_, _) => true
  }

  lemma SupplyWithinLimit(origin: Source, source: Source, start: nat, now: nat)
    requires FreshSource(origin) && SourceBook(origin, source, start, now) && WellRun(origin, source)
    requires start <= now
    ensures Supplied(origin, source) <= SupplyLimit(origin, source, start, now)
  {
    match source
    case Master(_, calls) =>
      Books.NeverOverMints(origin.master, start, calls);
      Schedule.EmissionSplits(origin.master.schedule, start, Books.Now(start, calls), now);
    case Bulk(_, calls) =>
      Bulks.SentAsPromised(origin.bulk.admin, origin.bulk.spyToReward, calls);
      Bulks.PromiseAdvances(calls, Bulks.Now(calls), now);
  }

  lemma {:induction false} ReceivedWithinLimits(origin: World, events: seq<Event>)
    requires Genesis(origin) && Run(origin, events).Ok?
    requires forall a | a in origin.sources && a in Run(origin, events).value.sources ::
               WellRun(origin.sources[a], Run(origin, events).value.sources[a])
    ensures var w := Run(origin, events).value;
      w.received <= Sum(origin.sources.Keys, LimitAt(origin, w))
  {
    var w := Run(origin, events).value;
    AlwaysConsistent(origin, events);
    forall a | a in origin.sources
      ensures SuppliedAt(origin, w)(a) <= LimitAt(origin, w)(a)
    {
      assert FreshSource(origin.sources[a]);
      SupplyWithinLimit(origin.sources[a], w.sources[a], origin.height, w.height);
    }
    SumMonotone(origin.sources.Keys, SuppliedAt(origin, w), LimitAt(origin, w));
  }

  /** End to end: what stakers were ever paid, can still claim, and what waits for the next
      allocation is within what the schedules emitted and the bulks promised since the beginning,
      plus the admin's allocations, but for less than one token per settlement. What was paid
      alone is within the emissions and promises without any slack. */
  lemma {:induction false} PayoutsWithinEmissions(origin: World, events: seq<Event>)
    requires Genesis(origin) && Run(origin, events).Ok?
    requires forall a | a in origin.sources && a in Run(origin, events).value.sources ::
               WellRun(origin.sources[a], Run(origin, events).value.sources[a])
    ensures var w := Run(origin, events).value;
      var limit := Sum(origin.sources.Keys, LimitAt(origin, w));
      && S.Run(origin.pool, w.poolCalls) == Ok(w.pool)
      && S.REWARD_SCALE * (w.spent + Solvency.TotalPending(w.pool) + w.pool.pool.residue)
         <= S.REWARD_SCALE * (limit + AdminAllocated(origin, w)) + (S.REWARD_SCALE - 1) * Hooks(origin, w)
      && w.spent <= w.received <= limit
  {
    hide Sum, Solvency.TotalPending, Genesis, Run, WellRun;
    ReceivedWithinLimits(origin, events);
    HoldingsCoverClaims(origin, events);
  }

  lemma PendingNonNegative(origin: World, w: World)
    requires Genesis(origin) && S.Run(origin.pool, w.poolCalls) == Ok(w.pool)
    ensures Solvency.Valid(w.pool) && Solvency.TotalPending(w.pool) >= 0
  {
    Solvency.InitValid(origin.pool.config, origin.pool.subscribers);
    Solvency.RunBalances(origin.pool, w.poolCalls);
    SumNonNegative(w.pool.users.Keys, Solvency.PendingAt(w.pool));
  }

  // --- No reward for stake that came and went within a block ---

  /** What a hook pays, and that it touches nothing but the pool. */
  lemma HookPays(w: World, hook: Hook)
    requires Solvency.Valid(w.pool) && w.spent <= w.received && DeliverFromPool(w, SelfCallback(hook)).Ok?
    ensures var v := DeliverFromPool(w, SelfCallback(hook)).value;
      && v.spent == w.spent + Solvency.PendingAt(w.pool)(HookUser(hook))
      && v.sources == w.sources && v.height == w.height && v.pool.config == w.pool.config
      && Solvency.PendingAt(v.pool)(HookUser(hook)) == 0
  {
    var reply := CallPool(w, w.PoolAddress(), S.Callback(hook)).value;
    Solvency.HookSettles(w.pool, hook, w.PoolAddress());
    Solvency.ConfigStays(w.pool, S.Call(w.PoolAddress(), S.Callback(hook)));
    HookDelivery(reply.world, reply.messages);
  }

  function HookUser(hook: Hook): Address {
    Solvency.HookUser(hook)
  }

  /** A settled source reports nothing. */
  lemma SettledReportsNothing(w: World, at: Address)
    requires at in w.sources && Settled(w.sources[at], w.PoolAddress(), w.height)
    requires CallUpdate(w, at, w.PoolAddress(), w.PoolAddress()).Ok?
    ensures exists spy :: CallUpdate(w, at, w.PoolAddress(), w.PoolAddress()).value.messages == [NotifyAllocation(spy, 0)]
  {
    var ms := CallUpdate(w, at, w.PoolAddress(), w.PoolAddress()).value.messages;
    match w.sources[at]
    case Master(_, _) => assert ms == [NotifyAllocation(w.PoolAddress(), 0)];
    case Bulk(b, _) => assert ms == [NotifyAllocation(b.spyToReward, 0)];
  }

  lemma NotifyingZero(w: World, at: Address, spy: Address)
    requires DeliverAllFromSource(w, at, [NotifyAllocation(spy, 0)]).Ok?
    ensures var v := DeliverAllFromSource(w, at, [NotifyAllocation(spy, 0)]).value;
      v.pool == w.pool && v.spent == w.spent && v.received == w.received
  {
    OneDelivery(w, at, NotifyAllocation(spy, 0));
  }

  lemma SettledUpdateIsQuiet(w: World, at: Address)
    requires at in w.sources && Settled(w.sources[at], w.PoolAddress(), w.height)
    requires UpdateSource(w, at, w.PoolAddress(), w.PoolAddress()).Ok?
    ensures var v := UpdateSource(w, at, w.PoolAddress(), w.PoolAddress()).value;
      v.pool == w.pool && v.spent == w.spent && v.received == w.received
  {
    SettledReportsNothing(w, at);
    var reply := CallUpdate(w, at, w.PoolAddress(), w.PoolAddress()).value;
    var spy :| reply.messages == [NotifyAllocation(spy, 0)];
    NotifyingZero(reply.world, at, spy);
  }

  lemma {:induction false} SettledRequestsAreQuiet(w: World, n: nat)
    requires AllSettled(w) && n <= |w.pool.config.rewardSources|
    requires DeliverAllFromPool(w, Requests(w.pool.config)[..n]).Ok?
    ensures var v := DeliverAllFromPool(w, Requests(w.pool.config)[..n]).value;
      && v.pool == w.pool && v.spent == w.spent && v.received == w.received && v.height == w.height
      && AllSettled(v)
  {
    hide UpdateSource, Settled, CallPool, DeliverFromHook, DeliverAllFromHook;
    if n > 0 {
      var requests := Requests(w.pool.config);
      assert requests[..n][..n - 1] == requests[..n - 1];
      SettledRequestsAreQuiet(w, n - 1);
      var mid := DeliverAllFromPool(w, requests[..n - 1]).value;
      var at := w.pool.config.rewardSources[n - 1];
      assert at in w.pool.config.rewardSources;
      SettledUpdateIsQuiet(mid, at);
      UpdateSettles(mid, at, mid.PoolAddress(), mid.PoolAddress());
    }
  }

  /** The world in which the hook runs still has its books balanced. */
  lemma {:induction false} HookWorldConsistent(origin: World, w: World, sender: Address, request: S.Request)
    requires Genesis(origin) && Consistent(origin, w) && origin.height <= w.height
    requires HookOf(sender, request).Some? && Execute(w, ToPool(sender, request)).Ok?
    ensures var called := CallPool(w, sender, request).value.world;
      && BeforeHook(called).Ok? && Consistent(origin, BeforeHook(called).value)
      && Solvency.Valid(BeforeHook(called).value.pool)
  {
    SourcesCurrentAtHook(w, sender, request);
    var called := CallPool(w, sender, request).value.world;
    CalledConsistent(origin, w, sender, request);
    PoolDelivery(origin, called, Requests(called.pool.config));
    PendingNonNegative(origin, BeforeHook(called).value);
  }

  /** A committed deposit or redeem pays what is pending once all sources have reported, and
      leaves its user with nothing pending and every listed source settled. */
  lemma StakeSettles(origin: World, w: World, sender: Address, request: S.Request)
    requires Genesis(origin) && Consistent(origin, w) && origin.height <= w.height
    requires HookOf(sender, request).Some? && Execute(w, ToPool(sender, request)).Ok?
    ensures var v := Execute(w, ToPool(sender, request)).value;
      var u := HookUser(HookOf(sender, request).value);
      && AllSettled(v) && v.height == w.height
      && Solvency.PendingAt(v.pool)(u) == 0
      && BeforeHook(CallPool(w, sender, request).value.world).Ok?
      && var current := BeforeHook(CallPool(w, sender, request).value.world).value;
         v.spent == current.spent + Solvency.PendingAt(current.pool)(u)
  {
    HookWorldConsistent(origin, w, sender, request);
    SourcesCurrentAtHook(w, sender, request);
    HookPays(BeforeHook(CallPool(w, sender, request).value.world).value, HookOf(sender, request).value);
  }

  /** A redeem with all sources settled finds the pool unchanged. */
  lemma QuietHook(w: World, u: Address, amount: Option<nat>)
    requires AllSettled(w) && CallPool(w, u, S.Redeem(amount)).Ok?
    requires BeforeHook(CallPool(w, u, S.Redeem(amount)).value.world).Ok?
    ensures var current := BeforeHook(CallPool(w, u, S.Redeem(amount)).value.world).value;
      current.pool == w.pool && current.spent == w.spent
  {
    var called := CallPool(w, u, S.Redeem(amount)).value.world;
    var requests := Requests(called.pool.config);
    assert requests[..|requests|] == requests;
    SettledRequestsAreQuiet(called, |requests|);
  }

  /** The next redeem after a deposit or redeem, at the same height, pays no reward at all. */
  lemma {:induction false} NoSameBlockReward(
      origin: World, events: seq<Event>, height: nat, sender: Address, request: S.Request, amount: Option<nat>)
    requires Genesis(origin) && Run(origin, events).Ok? && Run(origin, events).value.height <= height
    requires HookOf(sender, request).Some?
    requires var w := Run(origin, events).value.(height := height);
      && Execute(w, ToPool(sender, request)).Ok?
      && Execute(Execute(w, ToPool(sender, request)).value,
                 ToPool(HookUser(HookOf(sender, request).value), S.Redeem(amount))).Ok?
    ensures var v := Execute(Run(origin, events).value.(height := height), ToPool(sender, request)).value;
      Execute(v, ToPool(HookUser(HookOf(sender, request).value), S.Redeem(amount))).value.spent == v.spent
  {
    hide Consistent, Genesis, Run, DeliverAllFromPool, Solvency.Valid, Solvency.PendingAt, AllSettled;
    var w := Run(origin, events).value.(height := height);
    AlwaysConsistent(origin, events);
    LaterIsConsistent(origin, Run(origin, events).value, height);
    StakeSettles(origin, w, sender, request);
    ToPoolBalances(origin, w, sender, request);
    var v := Execute(w, ToPool(sender, request)).value;
    var u := HookUser(HookOf(sender, request).value);
    StakeSettles(origin, v, u, S.Redeem(amount));
    QuietHook(v, u, amount);
  }

  // --- Nothing more within the block, whatever else happens in it ---

  /** No notification that brings `pool` anything. */
  ghost predicate NothingFor(ms: seq<Message>, pool: Address) {
    forall m | m in ms && m.NotifyAllocation? && m.notified == pool :: m.granted == 0
  }

  lemma {:induction false} SetAllKeepsCurrent(s: W.State, height: nat, weights: seq<W.WeightInfo>, pool: Address)
    requires W.SetAll(s, height, weights).Ok? && !W.Stale(W.SpyOf(s.spies, pool, height), height)
    ensures var p := W.SetAll(s, height, weights).value;
      !W.Stale(W.SpyOf(p.spies, pool, height), height) && NothingFor(p.messages, pool)
  {
    hide W.SpyRewards;
    if weights != [] {
      SetAllKeepsCurrent(s, height, weights[..|weights| - 1], pool);
    }
  }

  /** A source that is settled for the pool stays so, whatever it is called with at that height,
      and brings the pool nothing. */
  lemma MasterStaysSettled(s: W.State, call: W.Call, pool: Address)
    requires W.Handle(s, call).Ok? && !W.Stale(W.SpyOf(s.spies, pool, call.height), call.height)
    ensures var out := W.Handle(s, call).value;
      !W.Stale(W.SpyOf(out.state.spies, pool, call.height), call.height) && NothingFor(out.messages, pool)
  {
    hide W.SpyRewards, W.SetAll;
    match call.request
    case SetWeights(weights) => SetAllKeepsCurrent(s, call.height, weights, pool);
    case _ =>
  }

  lemma BulkStaysSettled(s: B.State, call: B.Call, pool: Address)
    requires B.Handle(s, call).Ok? && s.lastAwardedBlock >= call.height
    ensures var out := B.Handle(s, call).value;
      out.state.lastAwardedBlock >= call.height && NothingFor(out.messages, pool)
  {
  }

  /** The calls the pool committed since `v` notify it of nothing, if they come from a listed source. */
  ghost predicate SourcesSilent(v: World, w: World) {
    && v.poolCalls <= w.poolCalls
    && forall i | |v.poolCalls| <= i < |w.poolCalls| && w.poolCalls[i].request.Notify?
                  && w.poolCalls[i].sender in v.pool.config.rewardSources :: w.poolCalls[i].request.amount == 0
  }

  /** A world reached from `v` within the block, with all sources still settled. */
  ghost predicate WithinBlock(v: World, w: World) {
    SourcesSilent(v, w) && AllSettled(w) && w.height == v.height && w.pool.config == v.pool.config
  }

  lemma PoolCallWithinBlock(v: World, w: World, sender: Address, request: S.Request)
    requires WithinBlock(v, w) && CallPool(w, sender, request).Ok?
    requires request.Notify? && sender in v.pool.config.rewardSources ==> request.amount == 0
    ensures WithinBlock(v, CallPool(w, sender, request).value.world)
  {
    hide Settled;
    Solvency.ConfigStays(w.pool, S.Call(sender, request));
    hide S.Handle;
    var x := CallPool(w, sender, request).value.world;
    assert x.poolCalls == w.poolCalls + [S.Call(sender, request)];
  }

  lemma {:induction false} SourceDeliveryWithinBlock(v: World, w: World, at: Address, ms: seq<Message>)
    requires WithinBlock(v, w) && DeliverAllFromSource(w, at, ms).Ok?
    requires at in v.pool.config.rewardSources ==> NothingFor(ms, w.PoolAddress())
    ensures WithinBlock(v, DeliverAllFromSource(w, at, ms).value)
  {
    hide Settled, CallPool, SourcesSilent;
    if ms != [] {
      var m := ms[|ms| - 1];
      var before := ms[..|ms| - 1];
      assert m in ms && forall k | k in before :: k in ms;
      SourceDeliveryWithinBlock(v, w, at, before);
      var mid := DeliverAllFromSource(w, at, before).value;
      if m.NotifyAllocation? && m.notified == mid.PoolAddress() {
        PoolCallWithinBlock(v, mid, at, S.Notify(m.granted));
      } else {
        SameCalls(v, mid, DeliverFromSource(mid, at, m).value);
      }
    }
  }

  lemma SameCalls(v: World, w: World, x: World)
    requires WithinBlock(v, w)
    requires x.poolCalls == w.poolCalls && x.sources == w.sources && x.height == w.height && x.pool == w.pool
    ensures WithinBlock(v, x)
  {
  }

  /** One source replaced by what a call at this height made of it. */
  lemma ReplyWithinBlock(v: World, w: World, at: Address, reply: Reply)
    requires WithinBlock(v, w) && at in w.sources
    requires at in reply.world.sources && reply.world == w.(sources := w.sources[at := reply.world.sources[at]])
    requires at in v.pool.config.rewardSources ==>
               Settled(reply.world.sources[at], w.PoolAddress(), w.height) && NothingFor(reply.messages, w.PoolAddress())
    requires DeliverAllFromSource(reply.world, at, reply.messages).Ok?
    ensures WithinBlock(v, DeliverAllFromSource(reply.world, at, reply.messages).value)
  {
    hide Settled, DeliverAllFromSource, NothingFor, SourcesSilent;
    SilentAlike(v, w, reply.world);
    assert WithinBlock(v, reply.world);
    SourceDeliveryWithinBlock(v, reply.world, at, reply.messages);
  }

  lemma SilentAlike(v: World, w: World, x: World)
    requires SourcesSilent(v, w) && x.poolCalls == w.poolCalls
    ensures SourcesSilent(v, x)
  {
  }

  lemma MasterWithinBlock(v: World, w: World, at: Address, caller: Address, asked: W.Request)
    requires WithinBlock(v, w) && CallMaster(w, at, caller, asked).Ok?
    requires var reply := CallMaster(w, at, caller, asked).value; DeliverAllFromSource(reply.world, at, reply.messages).Ok?
    ensures var reply := CallMaster(w, at, caller, asked).value;
      WithinBlock(v, DeliverAllFromSource(reply.world, at, reply.messages).value)
  {
    hide DeliverAllFromSource, SourcesSilent, W.Handle;
    if at in v.pool.config.rewardSources {
      MasterStaysSettled(w.sources[at].master, W.Call(w.height, caller, asked), w.PoolAddress());
    }
    ReplyWithinBlock(v, w, at, CallMaster(w, at, caller, asked).value);
  }

  lemma BulkWithinBlock(v: World, w: World, at: Address, asked: B.Request)
    requires WithinBlock(v, w) && CallBulk(w, at, asked).Ok?
    requires var reply := CallBulk(w, at, asked).value; DeliverAllFromSource(reply.world, at, reply.messages).Ok?
    ensures var reply := CallBulk(w, at, asked).value;
      WithinBlock(v, DeliverAllFromSource(reply.world, at, reply.messages).value)
  {
    hide DeliverAllFromSource, SourcesSilent, B.Handle;
    if at in v.pool.config.rewardSources {
      BulkStaysSettled(w.sources[at].bulk, B.Call(w.height, asked), w.PoolAddress());
    }
    ReplyWithinBlock(v, w, at, CallBulk(w, at, asked).value);
  }

  lemma UpdateWithinBlock(v: World, w: World, at: Address, sender: Address, spy: Address)
    requires WithinBlock(v, w) && UpdateSource(w, at, sender, spy).Ok?
    ensures WithinBlock(v, UpdateSource(w, at, sender, spy).value)
  {
    hide WithinBlock, DeliverAllFromSource, CallMaster, CallBulk;
    if at in w.sources && w.sources[at].Bulk? {
      BulkWithinBlock(v, w, at, B.Update);
    } else {
      MasterWithinBlock(v, w, at, sender, W.Update(spy));
    }
  }

  lemma {:induction false} HookMessagesStay(w: World, ms: seq<Message>)
    requires DeliverAllFromHook(w, ms).Ok?
    ensures var x := DeliverAllFromHook(w, ms).value;
      x == w.(spent := x.spent)
  {
    if ms != [] {
      HookMessagesStay(w, ms[..|ms| - 1]);
    }
  }

  lemma PoolMessageWithinBlock(v: World, w: World, m: Message)
    requires WithinBlock(v, w) && DeliverFromPool(w, m).Ok?
    ensures WithinBlock(v, DeliverFromPool(w, m).value)
  {
    hide UpdateSource, CallPool, DeliverAllFromHook, WithinBlock;
    match m
    case UpdateAllocation(source, spy) => UpdateWithinBlock(v, w, source, w.PoolAddress(), spy);
    case SelfCallback(hook) =>
      PoolCallWithinBlock(v, w, w.PoolAddress(), S.Callback(hook));
      var reply := CallPool(w, w.PoolAddress(), S.Callback(hook)).value;
      HookMessagesStay(reply.world, reply.messages);
      SameCalls(v, reply.world, DeliverFromPool(w, m).value);
    case TransferReward(_, _) => SameCalls(v, w, DeliverFromPool(w, m).value);
    case _ =>
  }

  lemma {:induction false} PoolMessagesWithinBlock(v: World, w: World, ms: seq<Message>)
    requires WithinBlock(v, w) && DeliverAllFromPool(w, ms).Ok?
    ensures WithinBlock(v, DeliverAllFromPool(w, ms).value)
  {
    hide WithinBlock, DeliverFromPool;
    if ms != [] {
      PoolMessagesWithinBlock(v, w, ms[..|ms| - 1]);
      PoolMessageWithinBlock(v, DeliverAllFromPool(w, ms[..|ms| - 1]).value, ms[|ms| - 1]);
    }
  }

  /** No transaction of the block makes a listed source notify the pool of anything. */
  lemma TransactionWithinBlock(v: World, w: World, t: Transaction)
    requires WithinBlock(v, w) && Execute(w, t).Ok?
    ensures WithinBlock(v, Execute(w, t).value)
  {
    hide DeliverAllFromPool, DeliverAllFromSource, CallPool, CallMaster, CallBulk, SourcesSilent, Settled;
    match t
    case ToPool(sender, request) =>
      assert sender !in w.sources;
      PoolCallWithinBlock(v, w, sender, request);
      PoolMessagesWithinBlock(v, CallPool(w, sender, request).value.world, CallPool(w, sender, request).value.messages);
    case ToMaster(at, caller, asked) => MasterWithinBlock(v, w, at, caller, asked);
    case ToBulk(at, added) => BulkWithinBlock(v, w, at, added);
  }

  ghost predicate AllAt(events: seq<Event>, height: nat) {
    forall e | e in events :: e.height == height
  }

  lemma {:induction false} BlockRuns(origin: World, v: World, later: seq<Event>)
    requires Genesis(origin) && Consistent(origin, v) && origin.height <= v.height && AllSettled(v)
    requires AllAt(later, v.height) && Run(v, later).Ok?
    ensures WithinBlock(v, Run(v, later).value) && Consistent(origin, Run(v, later).value)
  {
    hide Genesis, Consistent, AllSettled, Execute;
    if later == [] {
      StartOfBlock(v);
    } else {
      var before := later[..|later| - 1];
      var e := later[|later| - 1];
      assert e in later && forall k | k in before :: k in later;
      BlockRuns(origin, v, before);
      var w := Run(v, before).value;
      assert w.(height := e.height) == w;
      TransactionWithinBlock(v, w, e.transaction);
      ExecuteBalances(origin, w, e.transaction);
    }
  }

  lemma StartOfBlock(v: World)
    requires AllSettled(v)
    ensures WithinBlock(v, v)
  {
  }

  /** Whoever else than the listed sources notified the pool since `v`, that is the admin,
      notified it of nothing. */
  ghost predicate AdminSilent(v: World, w: World) {
    forall i | |v.poolCalls| <= i < |w.poolCalls| && w.poolCalls[i].request.Notify?
               && w.poolCalls[i].sender !in v.pool.config.rewardSources :: w.poolCalls[i].request.amount == 0
  }

  lemma {:induction false} RunSplits(s: S.State, calls: seq<S.Call>, n: nat)
    requires S.Run(s, calls).Ok? && n <= |calls|
    ensures S.Run(s, calls[..n]).Ok? && S.Run(S.Run(s, calls[..n]).value, calls[n..]) == S.Run(s, calls)
  {
    if n == |calls| {
      assert calls[..n] == calls && calls[n..] == [];
    } else {
      var before := calls[..|calls| - 1];
      RunSplits(s, before, n);
      assert before[..n] == calls[..n] && calls[n..][..|calls| - n - 1] == before[n..];
    }
  }

  /** After a deposit or redeem its user is paid no reward for the rest of the block, by any
      number of transactions of anybody with the pool or its sources, unless the admin
      announces rewards in it. */
  lemma {:induction false} NoRewardWithinBlock(
      origin: World, events: seq<Event>, height: nat, sender: Address, request: S.Request, later: seq<Event>)
    requires Genesis(origin) && Run(origin, events).Ok? && Run(origin, events).value.height <= height
    requires HookOf(sender, request).Some?
    requires Execute(Run(origin, events).value.(height := height), ToPool(sender, request)).Ok?
    requires var v := Execute(Run(origin, events).value.(height := height), ToPool(sender, request)).value;
      AllAt(later, height) && Run(v, later).Ok? && AdminSilent(v, Run(v, later).value)
    ensures var v := Execute(Run(origin, events).value.(height := height), ToPool(sender, request)).value;
      var w := Run(v, later).value;
      var u := HookUser(HookOf(sender, request).value);
      && v.poolCalls <= w.poolCalls
      && S.Run(v.pool, w.poolCalls[|v.poolCalls|..]) == Ok(w.pool)
      && Solvency.Total(v.pool, w.poolCalls[|v.poolCalls|..], Ledger.PaidTo(u)) == 0
      && Solvency.PendingAt(w.pool)(u) == 0
  {
    hide Genesis, Run, Execute, AllSettled, Solvency.Valid, Solvency.PendingAt, S.Handle, Sum;
    AlwaysConsistent(origin, events);
    var start := Run(origin, events).value.(height := height);
    LaterIsConsistent(origin, Run(origin, events).value, height);
    StakeSettles(origin, start, sender, request);
    ToPoolBalances(origin, start, sender, request);
    var v := Execute(start, ToPool(sender, request)).value;
    BlockRuns(origin, v, later);
    var w := Run(v, later).value;
    var calls := w.poolCalls[|v.poolCalls|..];
    RunSplits(origin.pool, w.poolCalls, |v.poolCalls|);
    assert w.poolCalls[..|v.poolCalls|] == v.poolCalls;
    NothingNotified(v, w);
    ReachableIsValid(origin, v);
    Ledger.NothingFromNothing(v.pool, calls, HookUser(HookOf(sender, request).value));
  }

  lemma NothingNotified(v: World, w: World)
    requires WithinBlock(v, w) && AdminSilent(v, w)
    ensures Ledger.OnlyZeroNotified(w.poolCalls[|v.poolCalls|..])
  {
    var calls := w.poolCalls[|v.poolCalls|..];
    forall call | call in calls && call.request.Notify?
      ensures call.request.amount == 0
    {
      var i :| 0 <= i < |calls| && calls[i] == call;
      assert w.poolCalls[|v.poolCalls| + i] == call;
    }
  }

  // --- The reward query in the composed system ---

  /** What each listed source answers, in order. */
  ghost function Answers(w: World, n: nat): (answers: seq<nat>)
    requires n <= |w.pool.config.rewardSources| && Answering(w)
    ensures |answers| == n
  {
    if n == 0 then []
    else Answers(w, n - 1) + [PendingOf(w.sources[w.pool.config.rewardSources[n - 1]], w.PoolAddress(), w.height).value]
  }

  /** Every listed source exists, pays this pool, and can answer for the current block. */
  ghost predicate Answering(w: World) {
    forall a | a in w.pool.config.rewardSources :: a in w.sources && CanAnswer(w, a)
  }

  ghost predicate CanAnswer(w: World, a: Address)
    requires a in w.sources
  {
    && PendingOf(w.sources[a], w.PoolAddress(), w.height).Ok?
    && (w.sources[a].Bulk? ==> w.sources[a].bulk.spyToReward == w.PoolAddress())
  }

  ghost predicate DistinctSources(config: S.Config) {
    forall i, j | 0 <= i < j < |config.rewardSources| :: config.rewardSources[i] != config.rewardSources[j]
  }

  /** At most tokens first, and then one notification of the answer. */
  ghost predicate Reports(ms: seq<Message>, pool: Address, answer: nat) {
    && 1 <= |ms| <= 2
    && ms[|ms| - 1] == NotifyAllocation(pool, answer)
    && (|ms| == 2 ==> ms[0].MintReward? || ms[0].TransferReward?)
  }

  lemma MasterReports(m: W.State, height: nat, pool: Address)
    requires Books.Valid(m, height) && W.QueryPending(m, pool, height).Ok?
    ensures W.ApplyUpdate(m, height, pool).Ok?
    ensures Reports(W.ApplyUpdate(m, height, pool).value.messages, pool, W.QueryPending(m, pool, height).value)
  {
    hide W.SpyRewards, Books.Valid;
    Books.QueryIsWhatUpdateGrants(m, height, pool);
  }

  lemma BulkReports(b: B.State, height: nat)
    requires b.lastAwardedBlock <= height && B.QueryPending(b, height).Ok?
    ensures B.ApplyUpdate(b, height).Ok?
    ensures Reports(B.ApplyUpdate(b, height).value.messages, b.spyToReward, B.QueryPending(b, height).value)
  {
    hide B.BulkRewards;
    Bulks.QueryIsWhatUpdateGrants(b, height);
  }

  /** A source that reports sends at most tokens first, and then one notification of its answer. */
  lemma ReportIsAnswer(origin: World, w: World, at: Address)
    requires Genesis(origin) && Consistent(origin, w) && at in w.sources && CanAnswer(w, at)
    requires CallUpdate(w, at, w.PoolAddress(), w.PoolAddress()).Ok?
    ensures Reports(CallUpdate(w, at, w.PoolAddress(), w.PoolAddress()).value.messages, w.PoolAddress(),
                    PendingOf(w.sources[at], w.PoolAddress(), w.height).value)
  {
    SourceIsSound(origin, w, at);
    hide Genesis, Consistent, Books.Valid, W.ApplyUpdate, B.ApplyUpdate, Reports, W.QueryPending, B.QueryPending;
    match w.sources[at]
    case Master(m, _) => MasterReports(m, w.height, w.PoolAddress());
    case Bulk(b, _) => BulkReports(b, w.height);
  }

  lemma OneDelivery(w: World, at: Address, m: Message)
    ensures DeliverAllFromSource(w, at, [m]) == DeliverFromSource(w, at, m)
  {
    assert [m][..0] == [];
  }

  /** Tokens first, then one notification: the pool is updated by the amount notified. */
  lemma DeliverReport(w: World, at: Address, ms: seq<Message>, answer: nat)
    requires Reports(ms, w.PoolAddress(), answer)
    requires DeliverAllFromSource(w, at, ms).Ok?
    ensures var v := DeliverAllFromSource(w, at, ms).value;
      && S.UpdateRewards(w.pool.pool, answer).Ok?
      && v.pool == w.pool.(pool := S.UpdateRewards(w.pool.pool, answer).value)
      && v.spent == w.spent
  {
    var first := ms[..|ms| - 1];
    var mid := DeliverAllFromSource(w, at, first).value;
    if |ms| == 2 {
      assert first == [ms[0]];
      OneDelivery(w, at, ms[0]);
    }
    assert mid.pool == w.pool && mid.spent == w.spent;
    assert DeliverAllFromSource(w, at, ms) == DeliverFromSource(mid, at, ms[|ms| - 1]);
  }

  lemma {:induction false} ReportDelivered(origin: World, w: World, at: Address)
    requires Genesis(origin) && Consistent(origin, w) && origin.height <= w.height && at in w.sources && CanAnswer(w, at)
    requires UpdateSource(w, at, w.PoolAddress(), w.PoolAddress()).Ok?
    ensures var v := UpdateSource(w, at, w.PoolAddress(), w.PoolAddress()).value;
      var answer := PendingOf(w.sources[at], w.PoolAddress(), w.height).value;
      && S.UpdateRewards(w.pool.pool, answer).Ok?
      && v.pool == w.pool.(pool := S.UpdateRewards(w.pool.pool, answer).value)
      && v.spent == w.spent
  {
    hide DeliverAllFromSource, S.UpdateRewards, PendingOf, Consistent, Genesis, W.Handle, B.Handle, Reports;
    ReportIsAnswer(origin, w, at);
    var reply := CallUpdate(w, at, w.PoolAddress(), w.PoolAddress()).value;
    assert reply.world.pool == w.pool && reply.world.spent == w.spent;
    DeliverReport(reply.world, at, reply.messages, PendingOf(w.sources[at], w.PoolAddress(), w.height).value);
  }

  /** Asking the sources one after the other updates the pool by their answers. */
  lemma {:induction false} ReportsUpdatePool(origin: World, w: World, n: nat)
    requires Genesis(origin) && Consistent(origin, w) && origin.height <= w.height
    requires DistinctSources(w.pool.config) && Answering(w) && n <= |w.pool.config.rewardSources|
    requires DeliverAllFromPool(w, Requests(w.pool.config)[..n]).Ok?
    ensures var v := DeliverAllFromPool(w, Requests(w.pool.config)[..n]).value;
      && Consistent(origin, v) && v.height == w.height && v.sources.Keys == w.sources.Keys
      && Query.UpdateAll(w.pool.pool, Answers(w, n)).Ok?
      && v.pool == w.pool.(pool := Query.UpdateAll(w.pool.pool, Answers(w, n)).value)
      && v.spent == w.spent
      && (forall i | n <= i < |w.pool.config.rewardSources| ::
            v.sources[w.pool.config.rewardSources[i]] == w.sources[w.pool.config.rewardSources[i]])
  {
    hide UpdateSource, CallPool, DeliverFromHook, DeliverAllFromHook, Consistent, Genesis, PendingOf;
    if n == 0 {
      assert Requests(w.pool.config)[..0] == [];
    } else {
      var requests := Requests(w.pool.config);
      assert requests[..n][..n - 1] == requests[..n - 1];
      ReportsUpdatePool(origin, w, n - 1);
      var mid := DeliverAllFromPool(w, requests[..n - 1]).value;
      var at := w.pool.config.rewardSources[n - 1];
      assert at in w.pool.config.rewardSources;
      ReportDelivered(origin, mid, at);
      UpdateBalances(origin, mid, at, mid.PoolAddress(), mid.PoolAddress());
      UpdateSettles(mid, at, mid.PoolAddress(), mid.PoolAddress());
      assert Answers(w, n)[..n - 1] == Answers(w, n - 1);
    }
  }

  lemma {:induction false} ReachableIsValid(origin: World, w: World)
    requires Genesis(origin) && Consistent(origin, w)
    ensures Solvency.Valid(w.pool)
  {
    PendingNonNegative(origin, w);
  }

  /** A redeem only asks; the stake moves in the hook. */
  lemma RedeemOnlyAsks(w: World, u: Address, amount: Option<nat>)
    requires CallPool(w, u, S.Redeem(amount)).Ok?
    ensures var called := CallPool(w, u, S.Redeem(amount)).value.world;
      called.pool == w.pool && called.sources == w.sources && called.height == w.height && called.spent == w.spent
  {
  }

  /** The pool a redeem's hook finds is the pool updated by the sources' answers. */
  lemma {:induction false} HookFindsAnswers(origin: World, w: World, u: Address, amount: Option<nat>)
    requires Genesis(origin) && Consistent(origin, w) && origin.height <= w.height
    requires DistinctSources(w.pool.config) && Answering(w)
    requires Execute(w, ToPool(u, S.Redeem(amount))).Ok?
    ensures var current := BeforeHook(CallPool(w, u, S.Redeem(amount)).value.world);
      var answers := Answers(w, |w.pool.config.rewardSources|);
      && current.Ok? && Query.UpdateAll(w.pool.pool, answers).Ok?
      && current.value.pool == w.pool.(pool := Query.UpdateAll(w.pool.pool, answers).value)
      && current.value.spent == w.spent
  {
    hide Consistent, Genesis, CallPool, Query.UpdateAll, Answering, DistinctSources, DeliverAllFromPool, Solvency.Valid;
    HookWorldConsistent(origin, w, u, S.Redeem(amount));
    CalledConsistent(origin, w, u, S.Redeem(amount));
    RedeemOnlyAsks(w, u, amount);
    var called := CallPool(w, u, S.Redeem(amount)).value.world;
    var n := |w.pool.config.rewardSources|;
    assert Requests(called.pool.config)[..n] == Requests(called.pool.config);
    SameAnswers(w, called, n);
    ReportsUpdatePool(origin, called, n);
  }

  lemma {:induction false} RedeemPays(origin: World, w: World, u: Address, amount: Option<nat>)
    requires Genesis(origin) && Consistent(origin, w) && origin.height <= w.height
    requires DistinctSources(w.pool.config) && Answering(w)
    requires Execute(w, ToPool(u, S.Redeem(amount))).Ok?
    ensures var answers := Answers(w, |w.pool.config.rewardSources|);
      && Query.UpdateAll(w.pool.pool, answers).Ok?
      && Execute(w, ToPool(u, S.Redeem(amount))).value.spent - w.spent
         == Solvency.PendingAt(w.pool.(pool := Query.UpdateAll(w.pool.pool, answers).value))(u)
      && Execute(w, ToPool(u, S.Redeem(amount))).value.spent >= w.spent
  {
    HookFindsAnswers(origin, w, u, amount);
    StakeSettles(origin, w, u, S.Redeem(amount));
    HookWorldConsistent(origin, w, u, S.Redeem(amount));
  }

  /** The forecast: in a reachable world, at any later block and with distinct sources, what the
      pool's reward query answers from its sources' answers for that block is what a redeem in
      that block pays, up to the roundings of several reports. */
  lemma {:induction false} QueryForecastsRedeem(
      origin: World, events: seq<Event>, height: nat, u: Address, amount: Option<nat>)
    requires Genesis(origin) && Run(origin, events).Ok? && Run(origin, events).value.height <= height
    requires var w := Run(origin, events).value.(height := height);
      && DistinctSources(w.pool.config) && Answering(w)
      && Execute(w, ToPool(u, S.Redeem(amount))).Ok?
      && S.QueryPendingRewards(w.pool, u, Query.Sum(Answers(w, |w.pool.config.rewardSources|))).Ok?
    ensures var w := Run(origin, events).value.(height := height);
      var paid := Execute(w, ToPool(u, S.Redeem(amount))).value.spent - w.spent;
      paid >= 0 && Query.Forecasts(w.pool, u, Answers(w, |w.pool.config.rewardSources|), paid)
  {
    hide Query.Forecasts, Query.UpdateAll, S.QueryPendingRewards, Solvency.PendingAt, Solvency.Valid;
    hide Execute, Run, Consistent, Genesis, Answering, DistinctSources;
    var w := Run(origin, events).value.(height := height);
    AlwaysConsistent(origin, events);
    LaterIsConsistent(origin, Run(origin, events).value, height);
    ReachableIsValid(origin, w);
    RedeemPays(origin, w, u, amount);
    Query.PendingAfterReports(w.pool, u, Answers(w, |w.pool.config.rewardSources|));
  }

  lemma {:induction false} SameAnswers(w: World, v: World, n: nat)
    requires v.sources == w.sources && v.pool == w.pool && v.height == w.height
    requires Answering(w) && n <= |w.pool.config.rewardSources|
    ensures Answering(v) && Answers(v, n) == Answers(w, n)
  {
    if n > 0 {
      SameAnswers(w, v, n - 1);
    }
  }
}
