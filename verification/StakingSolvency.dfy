/** Where every allocated reward goes. The accumulator rounds down in three places; here the
    rounding is accounted for exactly, over any list of committed calls, and the solvency
    bounds are corollaries. All amounts below are scaled by REWARD_SCALE. */
module StakingSolvency {
  import opened Chain
  import opened Messages
  import opened Staking
  import opened Sums
  import opened Division

  ghost function LockedAt(s: State): Address -> int {
    u => UserOf(s.users, u).locked
  }

  /** What a user is owed before the last rounding. */
  ghost function RawAt(s: State): Address -> int {
    u => var user := UserOf(s.users, u);
      user.locked * s.pool.accRewardPerShare - REWARD_SCALE * user.debt
  }

  /** What a user would be paid now, unscaled. */
  ghost function PendingAt(s: State): Address -> int {
    u => var user := UserOf(s.users, u);
      user.locked * s.pool.accRewardPerShare / REWARD_SCALE - user.debt
  }

  ghost function TotalLocked(s: State): int {
    Sum(s.users.Keys, LockedAt(s))
  }

  ghost function TotalPending(s: State): int {
    Sum(s.users.Keys, PendingAt(s))
  }

  /** Everything the pool still owes: to its users, and as residue to the next allocation. */
  ghost function Owed(s: State): int {
    Sum(s.users.Keys, RawAt(s)) + REWARD_SCALE * s.pool.residue
  }

  ghost predicate Valid(s: State) {
    && s.pool.incTokenSupply == TotalLocked(s)
    && forall u :: PendingAt(s)(u) >= 0
  }

  lemma InitValid(config: Config, subscribers: seq<Address>)
    ensures Valid(Init(config, subscribers))
    ensures Owed(Init(config, subscribers)) == 0
  {
  }

  // --- What one call contributes to each side of the account ---

  ghost function Remainder(s: State, u: Address): int {
    UserOf(s.users, u).locked * s.pool.accRewardPerShare % REWARD_SCALE
  }

  function HookUser(hook: Hook): Address {
    match hook
    case DepositHook(from, _) => from
    case RedeemHook(to, _) => to
  }

  ghost function CallAllocated(s: State, call: Call): int {
    if call.request.Notify? then call.request.amount else 0
  }

  ghost function CallPaid(s: State, call: Call): int {
    if Handle(s, call).Ok? then Rewards(Handle(s, call).value.messages) else 0
  }

  ghost function CallHooks(s: State, call: Call): int {
    if call.request.Callback? then 1 else 0
  }

  /** A settlement writes the debt rounded down for the new stake; what was rounded off the
      old stake is gone, what is rounded off the new one is gained. */
  ghost function CallDrift(s: State, call: Call): int {
    if call.request.Callback? && Handle(s, call).Ok? then
      var u := HookUser(call.request.hook);
      Remainder(Handle(s, call).value.state, u) - Remainder(s, u)
    else 0
  }

  /** What dividing an allocation by the supply rounds off. */
  ghost function CallLoss(s: State, call: Call): int {
    if call.request.Notify? && call.request.amount > 0 && s.pool.incTokenSupply > 0
    then (call.request.amount + s.pool.residue) * REWARD_SCALE % s.pool.incTokenSupply
    else 0
  }

  /** The largest loss possible at that supply. */
  ghost function CallLossLimit(s: State, call: Call): int {
    if call.request.Notify? && call.request.amount > 0 && s.pool.incTokenSupply > 0
    then s.pool.incTokenSupply - 1
    else 0
  }

  /** What an emergency redeem gives up. */
  ghost function CallForfeit(s: State, call: Call): int {
    if call.request.EmergencyRedeem? then RawAt(s)(call.sender) else 0
  }

  /** Adds a contribution up over a run, call by call, each in the state it found. */
  ghost function Total(s: State, calls: seq<Call>, contribution: (State, Call) -> int): int
    requires Run(s, calls).Ok?
  {
    if calls == [] then 0
    else
      var before := calls[..|calls| - 1];
      Total(s, before, contribution) + contribution(Run(s, before).value, calls[|calls| - 1])
  }

  lemma Extend(s: State, calls: seq<Call>, call: Call, contribution: (State, Call) -> int)
    requires Run(s, calls).Ok? && Handle(Run(s, calls).value, call).Ok?
    ensures Run(s, calls + [call]) == Ok(Handle(Run(s, calls).value, call).value.state)
    ensures Total(s, calls + [call], contribution)
            == Total(s, calls, contribution) + contribution(Run(s, calls).value, call)
  {
    assert (calls + [call])[..|calls|] == calls;
  }

  lemma ConfigStays(s: State, call: Call)
    requires Handle(s, call).Ok?
    ensures Handle(s, call).value.state.config == s.config
    ensures Handle(s, call).value.state.subscribers == s.subscribers
  {
  }

  // --- One settlement, one notification ---

  /** What a deposit, a redeem and an emergency redeem have in common. */
  ghost predicate Restakes(s: State, t: State, u: Address) {
    && t.config == s.config
    && u in t.users
    && t.users == s.users[u := t.users[u]]
    && t.pool == s.pool.(incTokenSupply := t.pool.incTokenSupply)
    && t.pool.incTokenSupply == s.pool.incTokenSupply - UserOf(s.users, u).locked + t.users[u].locked
  }

  lemma RestakeTotals(s: State, t: State, u: Address)
    requires Valid(s) && Restakes(s, t, u) && PendingAt(t)(u) >= 0
    ensures Valid(t)
    ensures Owed(t) == Owed(s) - RawAt(s)(u) + RawAt(t)(u)
  {
    assert t.users.Keys == s.users.Keys + {u};
    SumUpdate(s.users.Keys, LockedAt(s), LockedAt(t), u);
    SumUpdate(s.users.Keys, RawAt(s), RawAt(t), u);
    forall v
      ensures PendingAt(t)(v) >= 0
    {
      assert v != u ==> PendingAt(t)(v) == PendingAt(s)(v);
    }
  }

  /** Of the messages of a hook only the first one, if any, moves reward tokens. */
  lemma OnlyTheReward(u: Address, pending: nat, others: seq<Message>, v: Address)
    requires forall m | m in others :: !m.TransferReward?
    ensures Rewards(RewardMessage(u, pending) + others) == pending
    ensures RewardTo(RewardMessage(u, pending) + others, v) == (if v == u then pending else 0)
  {
    NoRewards(others, v);
    RewardsConcat(RewardMessage(u, pending), others, v);
  }

  /** A settlement of `u` that pays `v` what it should and leaves nothing pending. */
  ghost predicate Settles(s: State, out: Outcome, u: Address, v: Address) {
    && Restakes(s, out.state, u)
    && Rewards(out.messages) == PendingAt(s)(u)
    && RewardTo(out.messages, v) == (if v == u then PendingAt(s)(u) else 0)
    && PendingAt(out.state)(u) == 0
  }

  lemma DepositSettles(s: State, u: Address, amount: nat, v: Address)
    requires Valid(s) && Deposit(s, u, amount).Ok?
    ensures Settles(s, Deposit(s, u, amount).value, u, v)
  {
    DepositShape(s, u, amount);
    assert PendingAt(s)(u) >= 0;
    hide Deposit, PendingAt;
    var out := Deposit(s, u, amount).value;
    OnlyTheReward(u, PendingAt(s)(u), SubscriberMessages(s.subscribers, u, out.state.users[u].locked), v);
  }

  lemma DepositShape(s: State, u: Address, amount: nat)
    requires PendingAt(s)(u) >= 0 && Deposit(s, u, amount).Ok?
    ensures var out := Deposit(s, u, amount).value;
      && Restakes(s, out.state, u) && PendingAt(out.state)(u) == 0
      && out.messages == RewardMessage(u, PendingAt(s)(u))
                         + SubscriberMessages(s.subscribers, u, out.state.users[u].locked)
  {
  }

  lemma RedeemSettles(s: State, u: Address, requested: Option<nat>, v: Address)
    requires Valid(s) && RedeemStake(s, u, requested).Ok?
    ensures Settles(s, RedeemStake(s, u, requested).value, u, v)
  {
    hide RedeemStake, PendingAt, Valid;
    RedeemShape(s, u, requested);
    var user := UserOf(s.users, u);
    var amount := if requested.Some? then requested.value else user.locked;
    var news := SubscriberMessages(s.subscribers, u, user.locked - amount);
    var reward := RewardMessage(u, PendingAt(s)(u));
    OnlyTheReward(u, PendingAt(s)(u), [TransferStake(u, amount)] + news, v);
    assert reward + [TransferStake(u, amount)] + news == reward + ([TransferStake(u, amount)] + news);
  }

  lemma RedeemShape(s: State, u: Address, requested: Option<nat>)
    requires RedeemStake(s, u, requested).Ok?
    ensures var out := RedeemStake(s, u, requested).value;
      var locked := UserOf(s.users, u).locked;
      var amount := if requested.Some? then requested.value else locked;
      && Restakes(s, out.state, u) && PendingAt(out.state)(u) == 0 && PendingAt(s)(u) >= 0 && amount <= locked
      && out.messages == RewardMessage(u, PendingAt(s)(u)) + [TransferStake(u, amount)]
                         + SubscriberMessages(s.subscribers, u, locked - amount)
  {
  }

  /** A hook pays its user's pending reward and nobody else, and leaves nothing pending. */
  lemma HookSettles(s: State, hook: Hook, v: Address)
    requires Valid(s) && RunHook(s, hook).Ok?
    ensures Settles(s, RunHook(s, hook).value, HookUser(hook), v)
  {
    match hook
    case DepositHook(from, amount) => DepositSettles(s, from, amount, v);
    case RedeemHook(to, requested) => RedeemSettles(s, to, requested, v);
  }

  lemma NotifyTotals(s: State, t: State, amount: nat)
    requires Valid(s) && UpdateRewards(s.pool, amount).Ok?
    requires t == s.(pool := UpdateRewards(s.pool, amount).value)
    requires amount > 0 && s.pool.incTokenSupply > 0
    ensures Valid(t)
    ensures Owed(t) == Owed(s) + REWARD_SCALE * amount
                       - (amount + s.pool.residue) * REWARD_SCALE % s.pool.incTokenSupply
  {
    var scaled := (amount + s.pool.residue) * REWARD_SCALE;
    var step := scaled / s.pool.incTokenSupply;
    DivideRemainder(scaled, s.pool.incTokenSupply);
    forall u
      ensures LockedAt(t)(u) == LockedAt(s)(u)
      ensures RawAt(t)(u) == RawAt(s)(u) + step * LockedAt(s)(u)
      ensures PendingAt(t)(u) >= PendingAt(s)(u)
    {
      AccumulatorStep(UserOf(s.users, u), s.pool.accRewardPerShare, step);
    }
    SumAgree(s.users.Keys, LockedAt(s), LockedAt(t));
    SumLinear(s.users.Keys, RawAt(s), step, LockedAt(s), RawAt(t));
    assert step * TotalLocked(s) == scaled - scaled % s.pool.incTokenSupply;
  }

  lemma AccumulatorStep(user: UserInfo, acc: nat, step: nat)
    ensures user.locked * (acc + step) == user.locked * acc + step * user.locked
    ensures user.locked * (acc + step) / REWARD_SCALE >= user.locked * acc / REWARD_SCALE
  {
    assert step * user.locked >= 0;
    DivideMonotone(user.locked * acc, user.locked * (acc + step), REWARD_SCALE);
  }

  ghost predicate Balances(s: State, call: Call, t: State) {
    Owed(t) + REWARD_SCALE * CallPaid(s, call) + CallForfeit(s, call)
    == Owed(s) + REWARD_SCALE * CallAllocated(s, call) + CallDrift(s, call) - CallLoss(s, call)
  }

  lemma CallbackBalances(s: State, call: Call)
    requires Valid(s) && Handle(s, call).Ok? && call.request.Callback?
    ensures Valid(Handle(s, call).value.state)
    ensures Balances(s, call, Handle(s, call).value.state)
  {
    var hook := call.request.hook;
    var t := RunHook(s, hook).value.state;
    var u := HookUser(hook);
    HookSettles(s, hook, u);
    RestakeTotals(s, t, u);
    assert RawAt(s)(u) == REWARD_SCALE * PendingAt(s)(u) + Remainder(s, u);
    assert RawAt(t)(u) == REWARD_SCALE * PendingAt(t)(u) + Remainder(t, u);
  }

  lemma UpdateKeepsValid(s: State, amount: nat)
    requires Valid(s) && UpdateRewards(s.pool, amount).Ok?
    ensures Valid(s.(pool := UpdateRewards(s.pool, amount).value))
  {
    var t := s.(pool := UpdateRewards(s.pool, amount).value);
    if amount > 0 && s.pool.incTokenSupply > 0 {
      NotifyTotals(s, t, amount);
    } else {
      SameUsers(s, t);
    }
  }

  lemma NotifyBalances(s: State, call: Call)
    requires Valid(s) && Handle(s, call).Ok? && call.request.Notify?
    ensures Valid(Handle(s, call).value.state)
    ensures Balances(s, call, Handle(s, call).value.state)
  {
    var t := Handle(s, call).value.state;
    if call.request.amount > 0 && s.pool.incTokenSupply > 0 {
      NotifyTotals(s, t, call.request.amount);
    } else {
      SameUsers(s, t);
    }
  }

  lemma EmergencyBalances(s: State, call: Call)
    requires Valid(s) && Handle(s, call).Ok? && call.request.EmergencyRedeem?
    ensures Valid(Handle(s, call).value.state)
    ensures Balances(s, call, Handle(s, call).value.state)
  {
    var out := Emergency(s, call.sender).value;
    RestakeTotals(s, out.state, call.sender);
    NoRewards(out.messages, call.sender);
  }

  lemma IdleBalances(s: State, call: Call)
    requires Valid(s) && Handle(s, call).Ok?
    requires !call.request.Callback? && !call.request.Notify? && !call.request.EmergencyRedeem?
    ensures Valid(Handle(s, call).value.state)
    ensures Balances(s, call, Handle(s, call).value.state)
  {
    SameUsers(s, Handle(s, call).value.state);
    NoRewards(Handle(s, call).value.messages, call.sender);
  }

  /** One committed call keeps the invariant and balances the account to the last unit. */
  lemma CallBalances(s: State, call: Call)
    requires Valid(s) && Handle(s, call).Ok?
    ensures Valid(Handle(s, call).value.state)
    ensures Balances(s, call, Handle(s, call).value.state)
  {
    match call.request
    case Callback(_) => CallbackBalances(s, call);
    case EmergencyRedeem => EmergencyBalances(s, call);
    case Notify(_) => NotifyBalances(s, call);
    case _ => IdleBalances(s, call);
  }

  lemma SameUsers(s: State, t: State)
    requires Valid(s) && t.users == s.users
    requires t.pool.incTokenSupply == s.pool.incTokenSupply
    requires t.pool.accRewardPerShare == s.pool.accRewardPerShare
    ensures Valid(t)
    ensures Owed(t) - REWARD_SCALE * t.pool.residue == Owed(s) - REWARD_SCALE * s.pool.residue
  {
    SumAgree(s.users.Keys, LockedAt(s), LockedAt(t));
    SumAgree(s.users.Keys, RawAt(s), RawAt(t));
    forall u
      ensures PendingAt(t)(u) == PendingAt(s)(u)
    {
    }
  }

  // --- Whole runs ---

  /** The exact account of any run: what is owed, paid and forfeited is what was allocated,
      plus the drift of the settlements, minus the loss of the notifications. */
  lemma {:induction false} RunBalances(s: State, calls: seq<Call>)
    requires Valid(s) && Run(s, calls).Ok?
    ensures Valid(Run(s, calls).value)
    ensures Owed(Run(s, calls).value) + REWARD_SCALE * Total(s, calls, CallPaid) + Total(s, calls, CallForfeit)
            == Owed(s) + REWARD_SCALE * Total(s, calls, CallAllocated)
               + Total(s, calls, CallDrift) - Total(s, calls, CallLoss)
  {
    if calls != [] {
      var before := calls[..|calls| - 1];
      RunBalances(s, before);
      CallBalances(Run(s, before).value, calls[|calls| - 1]);
    }
  }

  ghost predicate NoEmergency(calls: seq<Call>) {
    forall call | call in calls :: !call.request.EmergencyRedeem?
  }

  /** Every contribution stays inside its own bound over a run. */
  lemma {:induction false} RunRounding(s: State, calls: seq<Call>)
    requires Valid(s) && Run(s, calls).Ok?
    ensures -(REWARD_SCALE - 1) * Total(s, calls, CallHooks) <= Total(s, calls, CallDrift)
    ensures Total(s, calls, CallDrift) <= (REWARD_SCALE - 1) * Total(s, calls, CallHooks)
    ensures 0 <= Total(s, calls, CallLoss) <= Total(s, calls, CallLossLimit)
    ensures 0 <= Total(s, calls, CallForfeit)
    ensures NoEmergency(calls) ==> Total(s, calls, CallForfeit) == 0
  {
    if calls != [] {
      var before := calls[..|calls| - 1];
      var call := calls[|calls| - 1];
      RunRounding(s, before);
      RunBalances(s, before);
      var t := Run(s, before).value;
      assert NoEmergency(calls) ==> call in calls && NoEmergency(before);
      RawCoversPending(t, call.sender);
    }
  }

  lemma RawCoversPending(s: State, u: Address)
    requires PendingAt(s)(u) >= 0
    ensures 0 <= REWARD_SCALE * PendingAt(s)(u) <= RawAt(s)(u) <= REWARD_SCALE * PendingAt(s)(u) + REWARD_SCALE - 1
  {
  }

  /** What rounding claims down to whole tokens keeps from the users, all together. */
  ghost function RemainderAt(s: State): Address -> int {
    u => Remainder(s, u)
  }

  /** Claims are what is owed less the residue and the users' remainders. */
  lemma PendingFromOwed(s: State)
    ensures REWARD_SCALE * (TotalPending(s) + s.pool.residue) == Owed(s) - Sum(s.users.Keys, RemainderAt(s))
  {
    SumLinear(s.users.Keys, RemainderAt(s), REWARD_SCALE, PendingAt(s), RawAt(s));
  }

  lemma PendingWithinOwed(s: State)
    requires Valid(s)
    ensures REWARD_SCALE * TotalPending(s) <= Owed(s) - REWARD_SCALE * s.pool.residue
    ensures Owed(s) - REWARD_SCALE * s.pool.residue
            <= REWARD_SCALE * TotalPending(s) + (REWARD_SCALE - 1) * |s.users|
  {
    var rounded: Address -> int := u => RawAt(s)(u) - REWARD_SCALE * PendingAt(s)(u);
    forall u
      ensures 0 <= rounded(u) <= REWARD_SCALE - 1
    {
      RawCoversPending(s, u);
    }
    SumLinear(s.users.Keys, rounded, REWARD_SCALE, PendingAt(s), RawAt(s));
    SumNonNegative(s.users.Keys, rounded);
    SumAtMost(s.users.Keys, rounded, REWARD_SCALE - 1);
    assert |s.users.Keys| == |s.users|;
  }

  /** Solvency: payments, claims and residue stay within the allocations but for less than one
      token per settlement. And without emergency redeems nothing else is lost. */
  lemma {:induction false} Solvency(config: Config, subscribers: seq<Address>, calls: seq<Call>)
    requires Run(Init(config, subscribers), calls).Ok?
    ensures var s := Init(config, subscribers);
      var t := Run(s, calls).value;
      var claimed := Total(s, calls, CallPaid) + TotalPending(t) + t.pool.residue;
      && REWARD_SCALE * claimed
         <= REWARD_SCALE * Total(s, calls, CallAllocated) + (REWARD_SCALE - 1) * Total(s, calls, CallHooks)
      && (NoEmergency(calls) ==>
            REWARD_SCALE * claimed
            >= REWARD_SCALE * Total(s, calls, CallAllocated)
               - (REWARD_SCALE - 1) * (Total(s, calls, CallHooks) + |t.users|)
               - Total(s, calls, CallLossLimit))
  {
    var s := Init(config, subscribers);
    InitValid(config, subscribers);
    RunBalances(s, calls);
    RunRounding(s, calls);
    PendingWithinOwed(Run(s, calls).value);
  }

  /** The stake that a hook leaves its user with, from the hook and the stake before it. */
  function NewStake(hook: Hook, locked: nat): int {
    match hook
    case DepositHook(_, amount) => locked + amount
    case RedeemHook(_, None) => 0
    case RedeemHook(_, Some(amount)) => locked - amount
  }

  /** A hook raises what is owed before the last rounding, beyond what it pays, for one cause
      visible before the call: the new stake times the accumulator leaves a larger remainder
      than the old stake does. */
  lemma HookOverCredits(s: State, call: Call)
    requires Valid(s) && Handle(s, call).Ok? && call.request.Callback?
    ensures var t := Handle(s, call).value.state;
      var locked := UserOf(s.users, HookUser(call.request.hook)).locked;
      Owed(t) + REWARD_SCALE * CallPaid(s, call) > Owed(s)
      <==> NewStake(call.request.hook, locked) * s.pool.accRewardPerShare % REWARD_SCALE
           > locked * s.pool.accRewardPerShare % REWARD_SCALE
  {
    HookStake(s, call.request.hook);
    CallbackBalances(s, call);
    hide RunHook, Owed, Valid, CallPaid;
  }

  lemma HookStake(s: State, hook: Hook)
    requires RunHook(s, hook).Ok?
    ensures var t := RunHook(s, hook).value.state;
      && UserOf(t.users, HookUser(hook)).locked == NewStake(hook, UserOf(s.users, HookUser(hook)).locked)
      && t.pool.accRewardPerShare == s.pool.accRewardPerShare
  {
  }

  /** The exact condition, over any run: claims stay within the allocations if and only if what
      settlements gained by rounding is no more than what notifications and emergency redeems
      lost and what the users' claims are rounded down by. */
  lemma {:induction false} ClaimsWithinIff(config: Config, subscribers: seq<Address>, calls: seq<Call>)
    requires Run(Init(config, subscribers), calls).Ok?
    ensures var s := Init(config, subscribers);
      var t := Run(s, calls).value;
      Total(s, calls, CallPaid) + TotalPending(t) + t.pool.residue <= Total(s, calls, CallAllocated)
      <==> Total(s, calls, CallDrift)
           <= Total(s, calls, CallLoss) + Total(s, calls, CallForfeit) + Sum(t.users.Keys, RemainderAt(t))
  {
    InitValid(config, subscribers);
    RunBalances(Init(config, subscribers), calls);
    PendingFromOwed(Run(Init(config, subscribers), calls).value);
  }

  /** No call of the run is a hook of that kind. */
  ghost predicate NeverOverCredits(s: State, calls: seq<Call>)
    requires Run(s, calls).Ok?
  {
    calls == [] ||
    (var before := calls[..|calls| - 1];
     NeverOverCredits(s, before) && CallDrift(Run(s, before).value, calls[|calls| - 1]) <= 0)
  }

  lemma {:induction false} NonPositiveDrift(s: State, calls: seq<Call>)
    requires Run(s, calls).Ok? && NeverOverCredits(s, calls)
    ensures Total(s, calls, CallDrift) <= 0
  {
    if calls != [] {
      NonPositiveDrift(s, calls[..|calls| - 1]);
    }
  }

  /** In particular without such hooks the plain bound holds: nobody can claim more than was allocated. */
  lemma {:induction false} ExactSolvency(config: Config, subscribers: seq<Address>, calls: seq<Call>)
    requires Run(Init(config, subscribers), calls).Ok?
    requires NeverOverCredits(Init(config, subscribers), calls)
    ensures var s := Init(config, subscribers);
      var t := Run(s, calls).value;
      Total(s, calls, CallPaid) + TotalPending(t) + t.pool.residue <= Total(s, calls, CallAllocated)
  {
    var s := Init(config, subscribers);
    InitValid(config, subscribers);
    RunRounding(s, calls);
    NonPositiveDrift(s, calls);
    SumNonNegative(Run(s, calls).value.users.Keys, RemainderAt(Run(s, calls).value));
    ClaimsWithinIff(config, subscribers, calls);
  }
}
