/** When the staking arithmetic fits its 128 bits, whatever the order of calls. */
module StakingBounds {
  import opened Chain
  import opened Messages
  import opened Staking
  import opened StakingSolvency
  import opened Sums
  import opened Division

  /** Whenever a call of the run moves the accumulator, at least `least` tokens are locked. */
  ghost predicate SupplyAtLeast(s: State, calls: seq<Call>, least: nat)
    requires Run(s, calls).Ok?
  {
    calls == [] ||
    (var before := calls[..|calls| - 1];
     SupplyAtLeast(s, before, least) && EnoughFor(Run(s, before).value, calls[|calls| - 1], least))
  }

  ghost predicate EnoughFor(s: State, call: Call, least: nat) {
    call.request.Notify? && call.request.amount > 0 && s.pool.incTokenSupply > 0
    ==> s.pool.incTokenSupply >= least
  }

  lemma {:induction false} NotifyAccumulates(pool: RewardPool, amount: nat, least: nat)
    requires UpdateRewards(pool, amount).Ok?
    requires amount > 0 && pool.incTokenSupply > 0 ==> pool.incTokenSupply >= least
    ensures var after := UpdateRewards(pool, amount).value;
      least * after.accRewardPerShare + REWARD_SCALE * after.residue
      <= least * pool.accRewardPerShare + REWARD_SCALE * pool.residue + REWARD_SCALE * amount
  {
    if amount > 0 && pool.incTokenSupply > 0 {
      var scaled := (amount + pool.residue) * REWARD_SCALE;
      var step := scaled / pool.incTokenSupply;
      DivideRemainder(scaled, pool.incTokenSupply);
      MultiplyMonotone(least, pool.incTokenSupply, step);
      assert least * (pool.accRewardPerShare + step) == least * pool.accRewardPerShare + least * step;
    }
  }

  /** The accumulator never exceeds the scaled allocations over the smallest supply. */
  lemma {:induction false} AccumulatorBound(config: Config, subscribers: seq<Address>, calls: seq<Call>, least: nat)
    requires Run(Init(config, subscribers), calls).Ok?
    requires SupplyAtLeast(Init(config, subscribers), calls, least)
    ensures var s := Init(config, subscribers);
      var pool := Run(s, calls).value.pool;
      least * pool.accRewardPerShare + REWARD_SCALE * pool.residue <= REWARD_SCALE * Total(s, calls, CallAllocated)
  {
    hide Handle, EnoughFor;
    if calls != [] {
      var before := calls[..|calls| - 1];
      AccumulatorBound(config, subscribers, before, least);
      CallAccumulates(Run(Init(config, subscribers), before).value, calls[|calls| - 1], least);
    }
  }

  lemma CallAccumulates(s: State, call: Call, least: nat)
    requires Handle(s, call).Ok? && EnoughFor(s, call, least)
    ensures var after := Handle(s, call).value.state.pool;
      least * after.accRewardPerShare + REWARD_SCALE * after.residue
      <= least * s.pool.accRewardPerShare + REWARD_SCALE * s.pool.residue + REWARD_SCALE * CallAllocated(s, call)
  {
    if call.request.Notify? {
      NotifyAccumulates(s.pool, call.request.amount, least);
    } else {
      OnlyNotificationsAccumulate(s, call);
    }
  }

  lemma OnlyNotificationsAccumulate(s: State, call: Call)
    requires Handle(s, call).Ok? && !call.request.Notify?
    ensures var after := Handle(s, call).value.state.pool;
      after.accRewardPerShare == s.pool.accRewardPerShare && after.residue == s.pool.residue
  {
  }

  lemma LockedWithinSupply(s: State, u: Address)
    requires Valid(s)
    ensures UserOf(s.users, u).locked <= s.pool.incTokenSupply
  {
    SumNonNegative(s.users.Keys, LockedAt(s));
    assert u in s.users ==> LockedAt(s)(u) <= TotalLocked(s);
  }

  ghost function StakeAdded(call: Call): nat {
    if call.request.Callback? && call.request.hook.DepositHook? then call.request.hook.depositAmount else 0
  }

  lemma AccruedFits(locked: nat, acc: nat, lockedLimit: nat, accLimit: nat)
    requires locked <= lockedLimit && acc <= accLimit
    requires accLimit * lockedLimit < U128_LIMIT
    ensures Accrued(locked, acc).Ok?
  {
    MultiplyMonotone(locked, lockedLimit, acc);
    MultiplyMonotone(acc, accLimit, lockedLimit);
  }

  lemma HookFits(s: State, hook: Hook, lockedLimit: nat, accLimit: nat)
    requires Valid(s)
    requires s.pool.incTokenSupply + (if hook.DepositHook? then hook.depositAmount else 0) <= lockedLimit < U128_LIMIT
    requires s.pool.accRewardPerShare <= accLimit && accLimit * lockedLimit < U128_LIMIT
    ensures RunHook(s, hook) != Abort(Arithmetic)
  {
    var u := HookUser(hook);
    var user := UserOf(s.users, u);
    var acc := s.pool.accRewardPerShare;
    LockedWithinSupply(s, u);
    AccruedFits(user.locked, acc, lockedLimit, accLimit);
    assert PendingAt(s)(u) >= 0;
    match hook
    case DepositHook(_, amount) =>
      AccruedFits(user.locked + amount, acc, lockedLimit, accLimit);
    case RedeemHook(_, requested) =>
      var amount := if requested.Some? then requested.value else user.locked;
      if amount <= user.locked {
        AccruedFits(user.locked - amount, acc, lockedLimit, accLimit);
      }
  }

  lemma {:induction false} NotifyFits(pool: RewardPool, amount: nat, allocatedLimit: nat, least: nat)
    requires least >= 1
    requires amount > 0 && pool.incTokenSupply > 0 ==> pool.incTokenSupply >= least
    requires least * pool.accRewardPerShare + REWARD_SCALE * pool.residue + REWARD_SCALE * amount
             <= REWARD_SCALE * allocatedLimit < U128_LIMIT
    ensures UpdateRewards(pool, amount).Ok?
  {
    assert pool.accRewardPerShare <= least * pool.accRewardPerShare by {
      MultiplyMonotone(1, least, pool.accRewardPerShare);
    }
    assert pool.residue + amount < U128_LIMIT;
    if amount > 0 && pool.incTokenSupply > 0 {
      var scaled := (amount + pool.residue) * REWARD_SCALE;
      var step := scaled / pool.incTokenSupply;
      DivideRemainder(scaled, pool.incTokenSupply);
      MultiplyMonotone(1, pool.incTokenSupply, step);
    }
  }

  /** With a total of at most `allocatedLimit` rewards and `lockedLimit` stake, and never fewer
      than `least` tokens locked when rewards arrive, no call can run out of its integers. */
  lemma {:induction false} NeverOverflows(
      config: Config, subscribers: seq<Address>, calls: seq<Call>, call: Call,
      allocatedLimit: nat, lockedLimit: nat, least: nat)
    requires Run(Init(config, subscribers), calls).Ok?
    requires SupplyAtLeast(Init(config, subscribers), calls, least)
    requires least >= 1 && EnoughFor(Run(Init(config, subscribers), calls).value, call, least)
    requires Total(Init(config, subscribers), calls, CallAllocated)
             + CallAllocated(Run(Init(config, subscribers), calls).value, call) <= allocatedLimit
    requires TotalLocked(Run(Init(config, subscribers), calls).value) + StakeAdded(call) <= lockedLimit
    requires lockedLimit < U128_LIMIT && allocatedLimit * REWARD_SCALE < U128_LIMIT
    requires (allocatedLimit * REWARD_SCALE / least) * lockedLimit < U128_LIMIT
    ensures var t := Run(Init(config, subscribers), calls).value;
      && t.pool.accRewardPerShare <= allocatedLimit * REWARD_SCALE / least
      && Handle(t, call) != Abort(Arithmetic)
  {
    var s := Init(config, subscribers);
    var t := Run(s, calls).value;
    InitValid(config, subscribers);
    RunBalances(s, calls);
    AccumulatorBound(config, subscribers, calls, least);
    DivideGalois(allocatedLimit * REWARD_SCALE, least, t.pool.accRewardPerShare);
    LockedWithinSupply(t, call.sender);
    match call.request
    case Callback(hook) => HookFits(t, hook, lockedLimit, allocatedLimit * REWARD_SCALE / least);
    case Notify(amount) => NotifyFits(t.pool, amount, allocatedLimit, least);
    case _ =>
  }
}
