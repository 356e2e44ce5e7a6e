/** The protocol between the pool, the factory and the polls keeps every vote on an open poll
    equal to its voter's live stake, and never stands in the way of staking. */
module VotingPower {
  import opened Chain
  import opened Messages
  import S = Staking
  import P = SecretPoll
  import F = PollFactory
  import opened Governance
  import opened PollTally
  import Solvency = StakingSolvency
  import opened Sums

  // --- The invariant ---

  /** Every vote but perhaps `u`'s counts its voter's stake. */
  ghost predicate SyncedBut(pool: S.State, poll: P.State, u: Address) {
    forall v | v in poll.votes && v != u :: poll.votes[v].votingPower == S.UserOf(pool.users, v).locked
  }

  ghost predicate Synced(pool: S.State, poll: P.State) {
    forall v | v in poll.votes :: poll.votes[v].votingPower == S.UserOf(pool.users, v).locked
  }

  ghost predicate Sound(poll: P.State, factory: Address) {
    Exact(poll) && poll.owner == factory
  }

  /** The factory's list: registered polls with their own ends, and every open poll is on it. */
  ghost predicate Listed(polls: map<Address, P.State>, active: seq<F.ActivePoll>, time: nat) {
    && (forall i | 0 <= i < |active| ::
          active[i].address in polls && polls[active[i].address].config.endTimestamp == active[i].endTime)
    && (forall a | a in polls && P.Ongoing(polls[a], time) :: exists i :: 0 <= i < |active| && active[i].address == a)
  }

  ghost predicate Wired(w: World) {
    && w.factoryAddress in w.pool.subscribers
    && w.factory.stakingPool == w.pool.config.ownAddr
    && w.factory.challenge == None
    && Solvency.Valid(w.pool)
    && w.pool.pool.incTokenSupply < U128_LIMIT
    && Listed(w.polls, w.factory.activePolls, w.time)
    && forall a | a in w.polls :: Sound(w.polls[a], w.factoryAddress)
  }

  ghost predicate AllSynced(w: World) {
    forall a | a in w.polls && P.Ongoing(w.polls[a], w.time) :: Synced(w.pool, w.polls[a])
  }

  // --- One poll ---

  /** No slot of a poll can hold more than all the stake. */
  lemma SlotWithinStake(pool: S.State, votes: map<Address, P.Vote>, c: nat)
    requires Solvency.Valid(pool)
    requires forall v | v in votes :: votes[v].votingPower == S.UserOf(pool.users, v).locked
    ensures Sum(votes.Keys, PowerFor(votes, c)) <= Sum(votes.Keys, PowerAt(votes)) <= pool.pool.incTokenSupply
  {
    SumMonotone(votes.Keys, PowerFor(votes, c), PowerAt(votes));
    SumMonotone(votes.Keys, PowerAt(votes), Solvency.LockedAt(pool));
    SumWithin(votes.Keys, pool.users.Keys, Solvency.LockedAt(pool));
  }

  /** Reporting a stake to an open poll cannot fail, and brings the poll up to date. */
  lemma ReportSyncs(pool: S.State, poll: P.State, factory: Address, time: nat, u: Address)
    requires Solvency.Valid(pool) && pool.pool.incTokenSupply < U128_LIMIT
    requires Sound(poll, factory) && P.Ongoing(poll, time) && SyncedBut(pool, poll, u)
    ensures var r := P.Handle(poll, P.Call(time, factory, P.UpdatePower(u, S.UserOf(pool.users, u).locked)));
      && r.Ok? && Sound(r.value, factory) && Synced(pool, r.value)
      && r.value.config == poll.config && r.value.votes.Keys == poll.votes.Keys
  {
    if u in poll.votes {
      var vote := P.Vote(poll.votes[u].choice, S.UserOf(pool.users, u).locked);
      NewPowerFits(pool, poll, u);
      UpdateKeepsExact(poll, u, vote);
      hide P.UpdateVote, Exact, Solvency.Valid;
    }
  }

  /** The stake that a recorded voter has now fits her slot. */
  lemma NewPowerFits(pool: S.State, poll: P.State, u: Address)
    requires Solvency.Valid(pool) && pool.pool.incTokenSupply < U128_LIMIT
    requires Exact(poll) && SyncedBut(pool, poll, u) && u in poll.votes
    ensures P.UpdateVote(poll, u, P.PreviousVote(poll, u),
                         P.Vote(poll.votes[u].choice, S.UserOf(pool.users, u).locked)).Ok?
  {
    hide Solvency.Valid, Sum, P.UpdateVote;
    var c := poll.votes[u].choice;
    var vote := P.Vote(c, S.UserOf(pool.users, u).locked);
    SlotSum(poll.votes, u, vote, c);
    SlotWithinStake(pool, poll.votes[u := vote], c);
    UpdateFailsOnlyForTheNew(poll, u, vote);
  }

  // --- All polls on the factory's list ---

  /** What holds of one poll between the settlement and the last forward. */
  ghost predicate MidwayPoll(pool: S.State, before: P.State, poll: P.State, factory: Address, time: nat, u: Address) {
    && Sound(poll, factory)
    && poll.config.endTimestamp == before.config.endTimestamp
    && (P.Ongoing(poll, time) ==> SyncedBut(pool, poll, u))
    && (Synced(pool, before) ==> Synced(pool, poll))
  }

  /** Some polls may still miss u's new stake. */
  ghost predicate Midway(
      pool: S.State, before: map<Address, P.State>, polls: map<Address, P.State>,
      factory: Address, time: nat, u: Address)
  {
    && polls.Keys == before.Keys
    && forall a | a in polls :: MidwayPoll(pool, before[a], polls[a], factory, time, u)
  }

  lemma {:induction false} ReportToOne(
      pool: S.State, before: P.State, poll: P.State, factory: Address, time: nat, u: Address)
    requires Solvency.Valid(pool) && pool.pool.incTokenSupply < U128_LIMIT
    requires MidwayPoll(pool, before, poll, factory, time, u) && P.Ongoing(poll, time)
    ensures var r := P.Handle(poll, P.Call(time, factory, P.UpdatePower(u, S.UserOf(pool.users, u).locked)));
      r.Ok? && MidwayPoll(pool, before, r.value, factory, time, u) && Synced(pool, r.value)
  {
    ReportSyncs(pool, poll, factory, time, u);
  }

  lemma {:induction false} ReportOneMore(
      pool: S.State, before: map<Address, P.State>, mid: map<Address, P.State>,
      factory: Address, time: nat, u: Address, a: Address)
    requires Solvency.Valid(pool) && pool.pool.incTokenSupply < U128_LIMIT
    requires Midway(pool, before, mid, factory, time, u) && a in mid && P.Ongoing(mid[a], time)
    ensures var r := P.Handle(mid[a], P.Call(time, factory, P.UpdatePower(u, S.UserOf(pool.users, u).locked)));
      && r.Ok? && Midway(pool, before, mid[a := r.value], factory, time, u) && Synced(pool, r.value)
  {
    hide MidwayPoll, P.Handle, Solvency.Valid, Synced, S.UserOf;
    ReportToOne(pool, before[a], mid[a], factory, time, u);
    var updated := P.Handle(mid[a], P.Call(time, factory, P.UpdatePower(u, S.UserOf(pool.users, u).locked))).value;
    assert mid[a := updated].Keys == before.Keys;
  }

  /** Reporting to one poll leaves the others, and the synced ones synced. */
  lemma {:induction false} StaysSynced(
      pool: S.State, before: map<Address, P.State>, mid: map<Address, P.State>,
      factory: Address, time: nat, u: Address, a: Address)
    requires Solvency.Valid(pool) && pool.pool.incTokenSupply < U128_LIMIT
    requires Midway(pool, before, mid, factory, time, u) && a in mid && P.Ongoing(mid[a], time)
    ensures var r := P.Handle(mid[a], P.Call(time, factory, P.UpdatePower(u, S.UserOf(pool.users, u).locked)));
      r.Ok? && forall b | b in mid && Synced(pool, mid[b]) :: Synced(pool, mid[a := r.value][b])
  {
    hide P.Handle, Solvency.Valid, Synced, S.UserOf;
    ReportToOne(pool, before[a], mid[a], factory, time, u);
  }

  /** One more poll of the list is told, and those told before stay synced. */
  lemma {:induction false} ForwardOneMore(
      pool: S.State, polls: map<Address, P.State>, mid: map<Address, P.State>, factory: Address, time: nat, u: Address,
      active: seq<F.ActivePoll>, n: nat)
    requires Solvency.Valid(pool) && pool.pool.incTokenSupply < U128_LIMIT && n < |active|
    requires Midway(pool, polls, mid, factory, time, u)
    requires forall i | 0 <= i <= n :: active[i].address in polls && P.Ongoing(polls[active[i].address], time)
    requires forall i | 0 <= i < n :: Synced(pool, mid[active[i].address])
    ensures var a := active[n].address;
      var r := P.Handle(mid[a], P.Call(time, factory, P.UpdatePower(u, S.UserOf(pool.users, u).locked)));
      && r.Ok? && Midway(pool, polls, mid[a := r.value], factory, time, u)
      && forall i | 0 <= i <= n :: Synced(pool, mid[a := r.value][active[i].address])
  {
    hide P.Handle, Solvency.Valid, Sound, Synced, SyncedBut, S.UserOf;
    var a := active[n].address;
    assert MidwayPoll(pool, polls[a], mid[a], factory, time, u);
    hide MidwayPoll;
    ReportOneMore(pool, polls, mid, factory, time, u, a);
    StaysSynced(pool, polls, mid, factory, time, u, a);
  }

  lemma {:induction false} ForwardSyncs(
      pool: S.State, polls: map<Address, P.State>, factory: Address, time: nat, u: Address,
      active: seq<F.ActivePoll>, n: nat)
    requires Solvency.Valid(pool) && pool.pool.incTokenSupply < U128_LIMIT && n <= |active|
    requires Midway(pool, polls, polls, factory, time, u)
    requires forall i | 0 <= i < |active| :: active[i].address in polls && P.Ongoing(polls[active[i].address], time)
    ensures var r := Forward(polls, factory, time, F.Forwards(active, u, S.UserOf(pool.users, u).locked)[..n]);
      && r.Ok? && Midway(pool, polls, r.value, factory, time, u)
      && forall i | 0 <= i < n :: Synced(pool, r.value[active[i].address])
  {
    hide P.Handle, P.Ongoing, Solvency.Valid, Synced, MidwayPoll, S.UserOf;
    if n > 0 {
      var ms := F.Forwards(active, u, S.UserOf(pool.users, u).locked);
      assert ms[..n][..n - 1] == ms[..n - 1];
      ForwardSyncs(pool, polls, factory, time, u, active, n - 1);
      ForwardOneMore(pool, polls, Forward(polls, factory, time, ms[..n - 1]).value, factory, time, u, active, n - 1);
    }
  }

  /** Pruning keeps exactly the polls that have not ended, in order. */
  lemma {:induction false} ActiveKeepsOpen(polls: seq<F.ActivePoll>, time: nat)
    ensures forall p | p in F.Active(polls, time) :: p in polls && p.endTime >= time
    ensures forall p | p in polls && p.endTime >= time :: p in F.Active(polls, time)
  {
    if polls != [] {
      ActiveKeepsOpen(polls[..|polls| - 1], time);
      assert polls == polls[..|polls| - 1] + [polls[|polls| - 1]];
    }
  }

  lemma PrunedStaysListed(polls: map<Address, P.State>, active: seq<F.ActivePoll>, time: nat)
    requires Listed(polls, active, time)
    ensures Listed(polls, F.Active(active, time), time)
    ensures forall i | 0 <= i < |F.Active(active, time)| :: P.Ongoing(polls[F.Active(active, time)[i].address], time)
  {
    var pruned := F.Active(active, time);
    ActiveKeepsOpen(active, time);
    forall i | 0 <= i < |pruned|
      ensures pruned[i].address in polls && polls[pruned[i].address].config.endTimestamp == pruned[i].endTime >= time
    {
      assert pruned[i] in active;
    }
    forall a | a in polls && P.Ongoing(polls[a], time)
      ensures exists i :: 0 <= i < |pruned| && pruned[i].address == a
    {
      var i :| 0 <= i < |active| && active[i].address == a;
      assert active[i] in pruned;
    }
  }

  // --- The hook's messages ---

  /** A world whose pool has settled `u`, on its way through the messages. */
  ghost predicate OnTheWay(start: World, w: World, u: Address) {
    && w == start.(factory := w.factory, polls := w.polls)
    && w.factory.stakingPool == w.pool.config.ownAddr && w.factory.challenge == None
    && Solvency.Valid(w.pool) && w.pool.pool.incTokenSupply < U128_LIMIT
    && Listed(w.polls, w.factory.activePolls, w.time)
    && Midway(w.pool, start.polls, w.polls, w.factoryAddress, w.time, u)
  }

  lemma MidwayChains(
      pool: S.State, first: map<Address, P.State>, second: map<Address, P.State>, third: map<Address, P.State>,
      factory: Address, time: nat, u: Address)
    requires Midway(pool, first, second, factory, time, u) && Midway(pool, second, third, factory, time, u)
    ensures Midway(pool, first, third, factory, time, u)
  {
    forall a | a in third
      ensures MidwayPoll(pool, first[a], third[a], factory, time, u)
    {
      assert MidwayPoll(pool, second[a], third[a], factory, time, u);
      assert MidwayPoll(pool, first[a], second[a], factory, time, u);
    }
  }

  lemma MidwayToItself(
      pool: S.State, first: map<Address, P.State>, second: map<Address, P.State>, factory: Address, time: nat, u: Address)
    requires Midway(pool, first, second, factory, time, u)
    ensures Midway(pool, second, second, factory, time, u)
  {
    forall a | a in second
      ensures MidwayPoll(pool, second[a], second[a], factory, time, u)
    {
      assert MidwayPoll(pool, first[a], second[a], factory, time, u);
    }
  }

  lemma ListedAfterForwards(
      pool: S.State, before: map<Address, P.State>, polls: map<Address, P.State>, active: seq<F.ActivePoll>,
      factory: Address, time: nat, u: Address)
    requires Listed(before, active, time) && Midway(pool, before, polls, factory, time, u)
    ensures Listed(polls, active, time)
  {
    forall a | a in polls
      ensures a in before && polls[a].config.endTimestamp == before[a].config.endTimestamp
    {
      assert MidwayPoll(pool, before[a], polls[a], factory, time, u);
    }
  }

  /** Telling the factory a new stake succeeds and brings every open poll up to date. */
  lemma {:induction false} TellSyncs(start: World, w: World, u: Address)
    requires OnTheWay(start, w, u)
    ensures var r := TellFactory(w, w.pool.config.ownAddr, u, StakeOf(w, u));
      r.Ok? && OnTheWay(start, r.value, u) && AllSynced(r.value)
  {
    hide P.Handle, Solvency.Valid, MidwayPoll;
    var active := F.Active(w.factory.activePolls, w.time);
    PrunedStaysListed(w.polls, w.factory.activePolls, w.time);
    var ms := F.Forwards(active, u, StakeOf(w, u));
    assert ms[..|active|] == ms;
    MidwayToItself(w.pool, start.polls, w.polls, w.factoryAddress, w.time, u);
    ForwardSyncs(w.pool, w.polls, w.factoryAddress, w.time, u, active, |active|);
    var polls := Forward(w.polls, w.factoryAddress, w.time, ms).value;
    MidwayChains(w.pool, start.polls, w.polls, polls, w.factoryAddress, w.time, u);
    ListedAfterForwards(w.pool, w.polls, polls, active, w.factoryAddress, w.time, u);
  }

  ghost predicate NewsOf(ms: seq<Message>, u: Address, power: nat) {
    forall m | m in ms :: m.UpdateVotingPower? ==> m.voter == u && m.power == power
  }

  ghost predicate ReachesFactory(ms: seq<Message>, factory: Address) {
    exists m :: m in ms && m.UpdateVotingPower? && m.contract == factory
  }

  lemma {:induction false} DeliverSyncs(start: World, w: World, ms: seq<Message>, u: Address)
    requires OnTheWay(start, w, u) && NewsOf(ms, u, StakeOf(w, u))
    ensures var r := Deliver(w, ms);
      r.Ok? && OnTheWay(start, r.value, u) && (AllSynced(w) || ReachesFactory(ms, w.factoryAddress) ==> AllSynced(r.value))
  {
    hide TellFactory, AllSynced;
    if ms != [] {
      var before := ms[..|ms| - 1];
      var m := ms[|ms| - 1];
      assert ms == before + [m] && m in ms;
      DeliverSyncs(start, w, before, u);
      var mid := Deliver(w, before).value;
      assert mid.pool == w.pool && mid.factoryAddress == w.factoryAddress;
      if m.UpdateVotingPower? && m.contract == w.factoryAddress {
        TellSyncs(start, mid, u);
      } else {
        assert ReachesFactory(ms, w.factoryAddress) ==> ReachesFactory(before, w.factoryAddress);
      }
    }
  }

  lemma HookNews(s: S.State, hook: Hook, factory: Address)
    requires S.RunHook(s, hook).Ok? && factory in s.subscribers
    ensures var out := S.RunHook(s, hook).value;
      var u := Solvency.HookUser(hook);
      && NewsOf(out.messages, u, S.UserOf(out.state.users, u).locked)
      && ReachesFactory(out.messages, factory)
  {
    var out := S.RunHook(s, hook).value;
    var u := Solvency.HookUser(hook);
    var news := S.SubscriberMessages(s.subscribers, u, S.UserOf(out.state.users, u).locked);
    var first := out.messages[..|out.messages| - |news|];
    assert out.messages == first + news;
    hide S.RunHook;
    NewsReaches(s.subscribers, u, S.UserOf(out.state.users, u).locked, first, factory);
  }

  lemma NewsReaches(subscribers: seq<Address>, u: Address, power: nat, first: seq<Message>, factory: Address)
    requires factory in subscribers && forall m | m in first :: !m.UpdateVotingPower?
    ensures NewsOf(first + S.SubscriberMessages(subscribers, u, power), u, power)
    ensures ReachesFactory(first + S.SubscriberMessages(subscribers, u, power), factory)
  {
    var i :| 0 <= i < |subscribers| && subscribers[i] == factory;
    var news := S.SubscriberMessages(subscribers, u, power);
    assert news[i] == UpdateVotingPower(factory, u, power) && news[i] in first + news;
  }

  lemma SettledButOne(s: S.State, hook: Hook, poll: P.State, factory: Address, time: nat)
    requires Solvency.Valid(s) && S.RunHook(s, hook).Ok?
    requires Sound(poll, factory) && (P.Ongoing(poll, time) ==> Synced(s, poll))
    ensures MidwayPoll(S.RunHook(s, hook).value.state, poll, poll, factory, time, Solvency.HookUser(hook))
  {
    Solvency.HookSettles(s, hook, factory);
  }

  lemma {:induction false} HookKeepsPool(s: S.State, hook: Hook)
    requires Solvency.Valid(s) && S.RunHook(s, hook).Ok? && s.pool.incTokenSupply < U128_LIMIT
    ensures var t := S.RunHook(s, hook).value.state;
      && Solvency.Valid(t) && t.pool.incTokenSupply < U128_LIMIT
      && t.config == s.config && t.subscribers == s.subscribers
  {
    var u := Solvency.HookUser(hook);
    Solvency.HookSettles(s, hook, u);
    Solvency.RestakeTotals(s, S.RunHook(s, hook).value.state, u);
    SupplyFits(s, hook);
  }

  lemma HookStarts(w: World, hook: Hook)
    requires Wired(w) && AllSynced(w) && S.RunHook(w.pool, hook).Ok?
    ensures var start := w.(pool := S.RunHook(w.pool, hook).value.state);
      OnTheWay(start, start, Solvency.HookUser(hook))
  {
    hide S.RunHook, MidwayPoll, Solvency.Valid, Listed, Sound, Synced;
    var out := S.RunHook(w.pool, hook).value;
    var u := Solvency.HookUser(hook);
    HookKeepsPool(w.pool, hook);
    forall a | a in w.polls
      ensures MidwayPoll(out.state, w.polls[a], w.polls[a], w.factoryAddress, w.time, u)
    {
      SettledButOne(w.pool, hook, w.polls[a], w.factoryAddress, w.time);
    }
  }

  /** A hook that settles in the pool is never stopped by the polls, and afterwards every open
      poll counts every voter's new stake. */
  lemma HookSyncs(w: World, hook: Hook)
    requires Wired(w) && AllSynced(w) && S.RunHook(w.pool, hook).Ok?
    ensures var out := S.RunHook(w.pool, hook).value;
      var r := Deliver(w.(pool := out.state), out.messages);
      r.Ok? && Wired(r.value) && AllSynced(r.value)
  {
    var out := S.RunHook(w.pool, hook).value;
    var u := Solvency.HookUser(hook);
    var start := w.(pool := out.state);
    SupplyFits(w.pool, hook);
    HookNews(w.pool, hook, w.factoryAddress);
    HookStarts(w, hook);
    hide S.RunHook, AllSynced, OnTheWay, Deliver;
    DeliverSyncs(start, start, out.messages, u);
    OnTheWayIsWired(w, start, Deliver(start, out.messages).value, u);
  }

  lemma SupplyFits(s: S.State, hook: Hook)
    requires S.RunHook(s, hook).Ok? && s.pool.incTokenSupply < U128_LIMIT
    ensures S.RunHook(s, hook).value.state.pool.incTokenSupply < U128_LIMIT
    ensures S.RunHook(s, hook).value.state.config == s.config
    ensures S.RunHook(s, hook).value.state.subscribers == s.subscribers
  {
  }

  lemma OnTheWayIsWired(w: World, start: World, v: World, u: Address)
    requires Wired(w) && OnTheWay(start, v, u) && start == w.(pool := start.pool)
    requires start.pool.config == w.pool.config && start.pool.subscribers == w.pool.subscribers
    ensures Wired(v)
  {
    forall a | a in v.polls
      ensures Sound(v.polls[a], v.factoryAddress)
    {
      assert MidwayPoll(v.pool, start.polls[a], v.polls[a], v.factoryAddress, v.time, u);
    }
  }

  // --- All other actions ---

  lemma {:induction false} NoNews(w: World, ms: seq<Message>)
    requires forall m | m in ms :: !m.UpdateVotingPower?
    ensures Deliver(w, ms) == Ok(w)
  {
    if ms != [] {
      assert ms[|ms| - 1] in ms;
      NoNews(w, ms[..|ms| - 1]);
    }
  }

  /** Any other call to the pool moves no stake and tells nobody. */
  lemma OtherPoolCall(w: World, call: S.Call)
    requires Wired(w) && AllSynced(w) && S.Handle(w.pool, call).Ok?
    requires !call.request.Callback? && !call.request.EmergencyRedeem?
    ensures var r := Execute(w, ToPool(call));
      r.Ok? && Wired(r.value) && AllSynced(r.value)
  {
    var out := S.Handle(w.pool, call).value;
    Solvency.CallBalances(w.pool, call);
    Solvency.ConfigStays(w.pool, call);
    StakesStay(w.pool, call);
    NoNews(w.(pool := out.state), out.messages);
  }

  lemma StakesStay(s: S.State, call: S.Call)
    requires S.Handle(s, call).Ok? && !call.request.Callback? && !call.request.EmergencyRedeem?
    ensures var out := S.Handle(s, call).value;
      && out.state.users == s.users && out.state.pool.incTokenSupply == s.pool.incTokenSupply
      && forall m | m in out.messages :: !m.UpdateVotingPower?
  {
  }

  lemma PoolStep(w: World, call: S.Call)
    requires Wired(w) && AllSynced(w) && !call.request.EmergencyRedeem?
    ensures Execute(w, ToPool(call)).Ok? <==> S.Handle(w.pool, call).Ok?
    ensures Execute(w, ToPool(call)).Ok? ==>
              Wired(Execute(w, ToPool(call)).value) && AllSynced(Execute(w, ToPool(call)).value)
  {
    if S.Handle(w.pool, call).Ok? {
      match call.request
      case Callback(hook) => HookSyncs(w, hook);
      case _ => OtherPoolCall(w, call);
    }
  }

  lemma OneMoreListed(
      polls: map<Address, P.State>, active: seq<F.ActivePoll>, time: nat, address: Address, poll: P.State)
    requires Listed(polls, active, time) && address !in polls
    ensures Listed(polls[address := poll], active + [F.ActivePoll(address, poll.config.endTimestamp)], time)
  {
    var after := polls[address := poll];
    var longer := active + [F.ActivePoll(address, poll.config.endTimestamp)];
    forall a | a in after && P.Ongoing(after[a], time)
      ensures exists i :: 0 <= i < |longer| && longer[i].address == a
    {
      if a == address {
        assert longer[|active|].address == a;
      } else {
        var i :| 0 <= i < |active| && active[i].address == a;
        assert longer[i].address == a;
      }
    }
  }

  lemma FreshPoll(factory: Address, time: nat, msg: P.InitMsg, pool: S.State)
    requires P.Init(factory, time, msg).Ok?
    ensures var poll := P.Init(factory, time, msg).value;
      && Sound(poll, factory) && Synced(pool, poll)
      && poll.config.endTimestamp == time + msg.config.duration
  {
    InitValid(factory, time, msg);
  }

  /** A new poll starts without votes, and registers with the end it has itself. */
  lemma {:induction false} CreateStep(w: World, author: Address, metadata: P.Metadata, config: Option<P.PollConfig>,
                   choices: seq<string>, nonce: string, address: Address)
    requires Wired(w) && AllSynced(w) && Create(w, author, metadata, config, choices, nonce, address).Ok?
    ensures var v := Create(w, author, metadata, config, choices, nonce, address).value;
      Wired(v) && AllSynced(v)
  {
    hide P.Init, Listed, Sound, Synced, Solvency.Valid;
    var made := F.NewPoll(w.factory, w.time, metadata, config, choices, StakeOf(w, author), nonce).value;
    FreshPoll(w.factoryAddress, w.time, made.msg, w.pool);
    OneMoreListed(w.polls, w.factory.activePolls, w.time, address, P.Init(w.factoryAddress, w.time, made.msg).value);
  }

  /** A poll after a call from outside. */
  ghost predicate PollServed(pool: S.State, before: P.State, poll: P.State, factory: Address, time: nat) {
    && Sound(poll, factory)
    && poll.config.endTimestamp == before.config.endTimestamp
    && (P.Ongoing(before, time) ==> Synced(pool, poll))
  }

  lemma VoteCounted(pool: S.State, poll: P.State, factory: Address, time: nat, voter: Address, choice: nat, digest: string)
    requires Sound(poll, factory) && (P.Ongoing(poll, time) ==> Synced(pool, poll))
    requires P.ApplyVote(poll, time, voter, choice, S.UserOf(pool.users, voter).locked, digest).Ok?
    ensures PollServed(pool, poll, P.ApplyVote(poll, time, voter, choice, S.UserOf(pool.users, voter).locked, digest).value,
                       factory, time)
  {
    UpdateKeepsExact(poll, voter, P.Vote(choice, S.UserOf(pool.users, voter).locked));
  }

  lemma RevealServed(pool: S.State, poll: P.State, factory: Address, time: nat, sender: Address, hash: string, locked: nat)
    requires Sound(poll, factory) && (P.Ongoing(poll, time) ==> Synced(pool, poll))
    requires P.ApplyFinalize(poll, time, sender, hash, locked).Ok?
    ensures PollServed(pool, poll, P.ApplyFinalize(poll, time, sender, hash, locked).value, factory, time)
  {
  }

  /** A vote counts the stake of its moment; a reveal touches no vote; and a report to a poll
      from outside does not commit. */
  lemma {:induction false} PollStep(w: World, poll: Address, sender: Address, request: P.Request)
    requires Wired(w) && AllSynced(w) && CallPoll(w, poll, sender, request).Ok?
    requires request.CastVote? ==> request.stake == StakeOf(w, sender)
    requires request.UpdatePower? ==> sender != w.factoryAddress
    ensures var v := CallPoll(w, poll, sender, request).value;
      Wired(v) && AllSynced(v)
  {
    hide P.ApplyVote, P.ApplyFinalize, P.UpdateVote, PollServed, Exact, Synced, Solvency.Valid, Listed;
    assert Sound(w.polls[poll], w.factoryAddress);
    match request {
      case CastVote(choice, stake, digest) =>
        VoteCounted(w.pool, w.polls[poll], w.factoryAddress, w.time, sender, choice, digest);
      case Finalize(hash, locked) =>
        RevealServed(w.pool, w.polls[poll], w.factoryAddress, w.time, sender, hash, locked);
      case UpdatePower(_, _) =>
    }
    PollReplaced(w, poll, P.Handle(w.polls[poll], P.Call(w.time, sender, request)).value);
  }

  lemma {:induction false} PollReplaced(w: World, poll: Address, updated: P.State)
    requires Wired(w) && AllSynced(w) && poll in w.polls
    requires PollServed(w.pool, w.polls[poll], updated, w.factoryAddress, w.time)
    ensures Wired(w.(polls := w.polls[poll := updated])) && AllSynced(w.(polls := w.polls[poll := updated]))
  {
    hide Exact, Synced, Solvency.Valid;
  }

  ghost predicate NoEmergency(events: seq<Event>) {
    forall e | e in events :: e.action.ToPool? ==> !e.action.call.request.EmergencyRedeem?
  }

  lemma {:induction false} ExecuteStep(w: World, action: Action)
    requires Wired(w) && AllSynced(w) && Execute(w, action).Ok?
    requires action.ToPool? ==> !action.call.request.EmergencyRedeem?
    ensures Wired(Execute(w, action).value) && AllSynced(Execute(w, action).value)
  {
    match action
    case ToPool(call) => PoolStep(w, call);
    case CreatePoll(author, metadata, config, choices, nonce, address) =>
      CreateStep(w, author, metadata, config, choices, nonce, address);
    case Vote(poll, voter, choice, digest) =>
      PollStep(w, poll, voter, P.CastVote(choice, StakeOf(w, voter), digest));
    case Reveal(poll, revealer, hash) =>
      PollStep(w, poll, revealer, P.Finalize(hash, w.pool.pool.incTokenSupply));
    case ReportToPoll(poll, sender, reported, power) =>
      PollStep(w, poll, sender, P.UpdatePower(reported, power));
    case ReportToFactory(_, _, _) =>
    case RegisterPoll(_, _, _) =>
  }

  lemma TimePasses(w: World, time: nat)
    requires Wired(w) && AllSynced(w) && w.time <= time
    ensures Wired(w.(time := time)) && AllSynced(w.(time := time))
  {
  }

  // --- Whole runs ---

  ghost predicate Genesis(w: World) {
    && w.pool == S.Init(w.pool.config, w.pool.subscribers)
    && w.factoryAddress in w.pool.subscribers
    && w.factory.stakingPool == w.pool.config.ownAddr
    && w.factory.challenge == None
    && w.factory.activePolls == []
    && w.polls == map[]
  }

  /** The guarantee: without emergency redeems, on every poll still open each recorded vote is
      worth exactly its voter's stake, so that no tally exceeds the stake there is. */
  lemma {:induction false} VotesAreStakes(origin: World, events: seq<Event>)
    requires Genesis(origin) && NoEmergency(events) && Run(origin, events).Ok?
    ensures var w := Run(origin, events).value;
      && Wired(w) && AllSynced(w)
      && forall a | a in w.polls && P.Ongoing(w.polls[a], w.time) ::
           P.SumTally(w.polls[a].tally) <= w.pool.pool.incTokenSupply
  {
    if events == [] {
      Solvency.InitValid(origin.pool.config, origin.pool.subscribers);
    } else {
      var before := events[..|events| - 1];
      var e := events[|events| - 1];
      assert e in events;
      VotesAreStakes(origin, before);
      var w := Run(origin, before).value;
      TimePasses(w, e.time);
      ExecuteStep(w.(time := e.time), e.action);
    }
    TalliesWithinStake(Run(origin, events).value);
  }

  lemma {:induction false} TalliesWithinStake(w: World)
    requires Wired(w) && AllSynced(w)
    ensures forall a | a in w.polls && P.Ongoing(w.polls[a], w.time) ::
              P.SumTally(w.polls[a].tally) <= w.pool.pool.incTokenSupply
  {
    forall a | a in w.polls && P.Ongoing(w.polls[a], w.time)
      ensures P.SumTally(w.polls[a].tally) <= w.pool.pool.incTokenSupply
    {
      assert Sound(w.polls[a], w.factoryAddress);
      TallyTotal(w.polls[a]);
      SlotWithinStake(w.pool, w.polls[a].votes, 0);
    }
  }

  /** Forwarding never blocks staking: a deposit or redeem commits with all the polls exactly
      when it would commit without them. */
  lemma ForwardingNeverBlocks(origin: World, events: seq<Event>, time: nat, hook: Hook)
    requires Genesis(origin) && NoEmergency(events) && Run(origin, events).Ok?
    requires Run(origin, events).value.time <= time
    ensures var w := Run(origin, events).value;
      var call := S.Call(w.pool.config.ownAddr, S.Callback(hook));
      Commit(w, Event(time, ToPool(call))).Ok? <==> S.Handle(w.pool, call).Ok?
  {
    var w := Run(origin, events).value;
    VotesAreStakes(origin, events);
    TimePasses(w, time);
    PoolStep(w.(time := time), S.Call(w.pool.config.ownAddr, S.Callback(hook)));
  }

  lemma EmergencyOnPoll(pool: S.State, call: S.Call, poll: P.State)
    requires call.request.EmergencyRedeem? && S.Handle(pool, call).Ok? && Synced(pool, poll)
    ensures Synced(S.Handle(pool, call).value.state, poll)
            <==> S.UserOf(pool.users, call.sender).locked == 0 || call.sender !in poll.votes
  {
  }

  lemma EmergencyIsSilent(pool: S.State, call: S.Call)
    requires call.request.EmergencyRedeem? && S.Handle(pool, call).Ok?
    ensures forall m | m in S.Handle(pool, call).value.messages :: !m.UpdateVotingPower?
  {
  }

  /** An emergency redeem tells nobody: it keeps votes and stakes equal exactly if its user had
      nothing staked, or had voted on no open poll. */
  lemma EmergencyKeepsVotesIff(w: World, call: S.Call)
    requires Wired(w) && AllSynced(w) && call.request.EmergencyRedeem? && S.Handle(w.pool, call).Ok?
    ensures Execute(w, ToPool(call)).Ok?
    ensures AllSynced(Execute(w, ToPool(call)).value)
            <==> || StakeOf(w, call.sender) == 0
                 || forall a | a in w.polls && P.Ongoing(w.polls[a], w.time) :: call.sender !in w.polls[a].votes
  {
    hide S.Handle, Synced, Wired;
    var out := S.Handle(w.pool, call).value;
    EmergencyIsSilent(w.pool, call);
    NoNews(w.(pool := out.state), out.messages);
    forall a | a in w.polls && P.Ongoing(w.polls[a], w.time)
      ensures Synced(out.state, w.polls[a]) <==> StakeOf(w, call.sender) == 0 || call.sender !in w.polls[a].votes
    {
      EmergencyOnPoll(w.pool, call, w.polls[a]);
    }
  }
}
