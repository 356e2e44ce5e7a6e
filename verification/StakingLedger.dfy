/** The accumulator against the ledger it stands in for: one entry per user and notification. */
module StakingLedger {
  import opened Chain
  import opened Messages
  import opened Staking
  import opened StakingSolvency
  import opened Division

  /** What an ideal ledger credits `u` at a notification: its stake times the accumulator's step. */
  ghost function CreditTo(u: Address): (State, Call) -> int {
    (s: State, call: Call) =>
      if call.request.Notify? && call.request.amount > 0 && s.pool.incTokenSupply > 0
      then UserOf(s.users, u).locked * ((call.request.amount + s.pool.residue) * REWARD_SCALE / s.pool.incTokenSupply)
      else 0
  }

  ghost function PaidTo(u: Address): (State, Call) -> int {
    (s: State, call: Call) => if Handle(s, call).Ok? then RewardTo(Handle(s, call).value.messages, u) else 0
  }

  ghost predicate SettledBy(call: Call, u: Address) {
    call.request.Callback? && HookUser(call.request.hook) == u
  }

  ghost function SettlementsOf(u: Address): (State, Call) -> int {
    (s: State, call: Call) => if SettledBy(call, u) then 1 else 0
  }

  ghost function DriftOf(u: Address): (State, Call) -> int {
    (s: State, call: Call) => if SettledBy(call, u) then CallDrift(s, call) else 0
  }

  ghost predicate NoEmergencyBy(u: Address, calls: seq<Call>) {
    forall call | call in calls :: !(call.request.EmergencyRedeem? && call.sender == u)
  }

  ghost predicate Credits(s: State, call: Call, t: State, u: Address) {
    RawAt(t)(u) + REWARD_SCALE * PaidTo(u)(s, call) == RawAt(s)(u) + CreditTo(u)(s, call) + DriftOf(u)(s, call)
  }

  /** A call that is no settlement, no notification and not u's emergency redeem passes u by. */
  lemma PassesBy(s: State, call: Call, u: Address)
    requires Handle(s, call).Ok?
    requires !call.request.Callback? && !call.request.Notify?
    requires !(call.request.EmergencyRedeem? && call.sender == u)
    ensures var t := Handle(s, call).value.state;
      && UserOf(t.users, u) == UserOf(s.users, u)
      && t.pool.accRewardPerShare == s.pool.accRewardPerShare
      && PaidTo(u)(s, call) == 0
  {
    NoRewards(Handle(s, call).value.messages, u);
  }

  lemma SettlementCredits(s: State, call: Call, u: Address)
    requires Valid(s) && Handle(s, call).Ok? && call.request.Callback?
    ensures Credits(s, call, Handle(s, call).value.state, u)
    ensures PaidTo(u)(s, call) + PendingAt(Handle(s, call).value.state)(u) == PendingAt(s)(u)
  {
    var t := RunHook(s, call.request.hook).value.state;
    HookSettles(s, call.request.hook, u);
    if SettledBy(call, u) {
      assert RawAt(s)(u) == REWARD_SCALE * PendingAt(s)(u) + Remainder(s, u);
      assert RawAt(t)(u) == REWARD_SCALE * PendingAt(t)(u) + Remainder(t, u);
    }
  }

  /** A notification pays nobody, and moves nothing but the accumulator. */
  lemma NotificationShape(s: State, call: Call, u: Address)
    requires Handle(s, call).Ok? && call.request.Notify?
    ensures var t := Handle(s, call).value.state;
      && t.users == s.users && PaidTo(u)(s, call) == 0
      && t.pool.accRewardPerShare
         == if call.request.amount > 0 && s.pool.incTokenSupply > 0
            then s.pool.accRewardPerShare + (call.request.amount + s.pool.residue) * REWARD_SCALE / s.pool.incTokenSupply
            else s.pool.accRewardPerShare
  {
  }

  lemma NotificationCredits(s: State, call: Call, u: Address)
    requires Valid(s) && Handle(s, call).Ok? && call.request.Notify?
    ensures Credits(s, call, Handle(s, call).value.state, u)
  {
    hide Handle, Valid, PaidTo;
    NotificationShape(s, call, u);
    if call.request.amount > 0 && s.pool.incTokenSupply > 0 {
      AccumulatorStep(UserOf(s.users, u), s.pool.accRewardPerShare,
                      (call.request.amount + s.pool.residue) * REWARD_SCALE / s.pool.incTokenSupply);
    }
  }

  lemma CallCredits(s: State, call: Call, u: Address)
    requires Valid(s) && Handle(s, call).Ok?
    requires !(call.request.EmergencyRedeem? && call.sender == u)
    ensures Credits(s, call, Handle(s, call).value.state, u)
  {
    match call.request
    case Callback(_) => SettlementCredits(s, call, u);
    case Notify(_) => NotificationCredits(s, call, u);
    case _ => PassesBy(s, call, u);
  }

  lemma {:induction false} RunCredits(s: State, calls: seq<Call>, u: Address)
    requires Valid(s) && Run(s, calls).Ok? && NoEmergencyBy(u, calls)
    ensures RawAt(Run(s, calls).value)(u) + REWARD_SCALE * Total(s, calls, PaidTo(u))
            == RawAt(s)(u) + Total(s, calls, CreditTo(u)) + Total(s, calls, DriftOf(u))
    ensures -(REWARD_SCALE - 1) * Total(s, calls, SettlementsOf(u)) <= Total(s, calls, DriftOf(u))
    ensures Total(s, calls, DriftOf(u)) <= (REWARD_SCALE - 1) * Total(s, calls, SettlementsOf(u))
  {
    if calls != [] {
      var before := calls[..|calls| - 1];
      var call := calls[|calls| - 1];
      assert call in calls;
      RunCredits(s, before, u);
      RunBalances(s, before);
      CallCredits(Run(s, before).value, call, u);
    }
  }

  /** The refinement: what a user got and can still claim is the ledger's credit, give or take
      one token per settlement. */
  lemma {:induction false} LedgerRefined(config: Config, subscribers: seq<Address>, calls: seq<Call>, u: Address)
    requires Run(Init(config, subscribers), calls).Ok? && NoEmergencyBy(u, calls)
    ensures var s := Init(config, subscribers);
      var received := Total(s, calls, PaidTo(u)) + PendingAt(Run(s, calls).value)(u);
      var credit := Total(s, calls, CreditTo(u));
      var settled := Total(s, calls, SettlementsOf(u));
      credit - (REWARD_SCALE - 1) * (settled + 1) <= REWARD_SCALE * received <= credit + (REWARD_SCALE - 1) * settled
  {
    var s := Init(config, subscribers);
    InitValid(config, subscribers);
    RunBalances(s, calls);
    RunCredits(s, calls, u);
    RawCoversPending(Run(s, calls).value, u);
  }

  /** Notifications of nothing, such as sources send when they are asked again, change nothing. */
  ghost predicate OnlyZeroNotified(calls: seq<Call>) {
    forall call | call in calls :: call.request.Notify? ==> call.request.amount == 0
  }

  /** Only positive notifications make rewards: deposits and redeems, by anyone, of any amount
      and any number of times, leave what a user got plus can claim exactly where it was. */
  lemma {:induction false} HooksMakeNothing(s: State, calls: seq<Call>, u: Address)
    requires Valid(s) && Run(s, calls).Ok? && NoEmergencyBy(u, calls)
    requires OnlyZeroNotified(calls)
    ensures Total(s, calls, PaidTo(u)) + PendingAt(Run(s, calls).value)(u) == PendingAt(s)(u)
  {
    if calls != [] {
      var before := calls[..|calls| - 1];
      var call := calls[|calls| - 1];
      assert call in calls;
      HooksMakeNothing(s, before, u);
      RunBalances(s, before);
      var t := Run(s, before).value;
      QuietCall(t, call, u);
    }
  }

  /** A call that notifies nothing keeps received plus pending, but for u's emergency redeem,
      which pays no reward and leaves none pending. */
  lemma QuietCall(s: State, call: Call, u: Address)
    requires Valid(s) && Handle(s, call).Ok?
    requires call.request.Notify? ==> call.request.amount == 0
    ensures var t := Handle(s, call).value.state;
      if call.request.EmergencyRedeem? && call.sender == u then PaidTo(u)(s, call) == PendingAt(t)(u) == 0
      else PaidTo(u)(s, call) + PendingAt(t)(u) == PendingAt(s)(u)
  {
    match call.request
    case Callback(_) => SettlementCredits(s, call, u);
    case Notify(_) => NotificationShape(s, call, u);
    case EmergencyRedeem => NoRewards(Handle(s, call).value.messages, u);
    case _ => PassesBy(s, call, u);
  }

  /** Who has nothing pending gets nothing, whatever happens, until a positive notification. */
  lemma {:induction false} NothingFromNothing(s: State, calls: seq<Call>, u: Address)
    requires Valid(s) && Run(s, calls).Ok? && OnlyZeroNotified(calls) && PendingAt(s)(u) == 0
    ensures Total(s, calls, PaidTo(u)) == 0 && PendingAt(Run(s, calls).value)(u) == 0
  {
    if calls != [] {
      var before := calls[..|calls| - 1];
      var call := calls[|calls| - 1];
      assert call in calls;
      NothingFromNothing(s, before, u);
      RunBalances(s, before);
      QuietCall(Run(s, before).value, call, u);
      PaidNonNegative(Run(s, before).value, call, u);
    }
  }

  lemma PaidNonNegative(s: State, call: Call, u: Address)
    requires Valid(s) && Handle(s, call).Ok?
    ensures PaidTo(u)(s, call) >= 0
    ensures Valid(Handle(s, call).value.state)
    ensures PendingAt(Handle(s, call).value.state)(u) >= 0
  {
    CallBalances(s, call);
  }
}
