/** Every stake is where its owner's own calls put it, and who may do what with the pool depends on
    nothing else: stakes, the stop switch and the right to call are read off the calls alone. */
module StakeAccount {
  import opened Chain
  import opened Messages
  import opened Staking
  import opened StakingBounds
  import opened StakingLedger
  import opened StakingSolvency

  // --- What the calls alone say ---

  /** The stake that a run of calls leaves `u`. */
  function StakeBy(calls: seq<Call>, u: Address): nat {
    if calls == [] then 0
    else
      var before := StakeBy(calls[..|calls| - 1], u);
      match calls[|calls| - 1]
      case Call(_, Callback(DepositHook(from, amount))) => if from == u then before + amount else before
      case Call(_, Callback(RedeemHook(to, None))) => if to == u then 0 else before
      case Call(_, Callback(RedeemHook(to, Some(amount)))) => if to == u && amount <= before then before - amount else before
      case Call(sender, EmergencyRedeem) => if sender == u then 0 else before
      case _ => before
  }

  /** All that `u` ever staked. */
  function DepositedBy(calls: seq<Call>, u: Address): nat {
    if calls == [] then 0
    else DepositedBy(calls[..|calls| - 1], u) + DepositOf(calls[|calls| - 1], u)
  }

  function DepositOf(call: Call, u: Address): nat {
    match call
    case Call(_, Callback(DepositHook(from, amount))) => if from == u then amount else 0
    case _ => 0
  }

  /** Whether the last switch that was thrown stopped the contract. */
  predicate StoppedBy(calls: seq<Call>) {
    if calls == [] then false
    else
      match calls[|calls| - 1].request
      case StopContract => true
      case ResumeContract => false
      case _ => StoppedBy(calls[..|calls| - 1])
  }

  /** Stake that a list of messages sends back to `u`. */
  function StakeTo(messages: seq<Message>, u: Address): nat {
    if messages == [] then 0
    else
      (if messages[0].TransferStake? && messages[0].staker == u then messages[0].stake else 0) + StakeTo(messages[1..], u)
  }

  ghost function StakeSentTo(u: Address): (State, Call) -> int {
    (s: State, call: Call) => if Handle(s, call).Ok? then StakeTo(Handle(s, call).value.messages, u) else 0
  }

  // --- Stake in messages ---

  lemma {:induction false} StakeConcat(a: seq<Message>, b: seq<Message>, u: Address)
    ensures StakeTo(a + b, u) == StakeTo(a, u) + StakeTo(b, u)
  {
    if a == [] {
      assert a + b == b;
    } else {
      assert (a + b)[1..] == a[1..] + b;
      StakeConcat(a[1..], b, u);
    }
  }

  lemma {:induction false} NoStake(messages: seq<Message>, u: Address)
    requires forall m | m in messages :: !m.TransferStake?
    ensures StakeTo(messages, u) == 0
  {
    if messages != [] {
      assert messages[0] in messages;
      NoStake(messages[1..], u);
    }
  }

  lemma OneStake(first: seq<Message>, staker: Address, stake: nat, others: seq<Message>, u: Address)
    requires forall m | m in first + others :: !m.TransferStake?
    ensures StakeTo(first + [TransferStake(staker, stake)] + others, u) == (if u == staker then stake else 0)
  {
    assert forall m | m in first :: m in first + others;
    assert forall m | m in others :: m in first + others;
    NoStake(first, u);
    NoStake(others, u);
    var one := [TransferStake(staker, stake)];
    assert one[1..] == [];
    StakeConcat(first + one, others, u);
    StakeConcat(first, one, u);
  }

  // --- One call ---

  lemma DepositMoves(s: State, from: Address, amount: nat, u: Address)
    requires Valid(s) && Deposit(s, from, amount).Ok?
    ensures var out := Deposit(s, from, amount).value;
      && UserOf(out.state.users, u).locked == UserOf(s.users, u).locked + (if u == from then amount else 0)
      && StakeTo(out.messages, u) == 0
  {
    assert PendingAt(s)(from) >= 0;
    DepositShape(s, from, amount);
    NoStake(Deposit(s, from, amount).value.messages, u);
  }

  lemma RedeemMoves(s: State, to: Address, requested: Option<nat>, u: Address)
    requires RedeemStake(s, to, requested).Ok?
    ensures var out := RedeemStake(s, to, requested).value;
      var locked := UserOf(s.users, to).locked;
      var amount := if requested.Some? then requested.value else locked;
      && amount <= locked
      && UserOf(out.state.users, u).locked == UserOf(s.users, u).locked - (if u == to then amount else 0)
      && StakeTo(out.messages, u) == (if u == to then amount else 0)
  {
    RedeemShape(s, to, requested);
    var locked := UserOf(s.users, to).locked;
    var amount := if requested.Some? then requested.value else locked;
    OneStake(RewardMessage(to, PendingAt(s)(to)), to, amount,
             SubscriberMessages(s.subscribers, to, locked - amount), u);
  }

  lemma EmergencyMoves(s: State, sender: Address, u: Address)
    requires Emergency(s, sender).Ok?
    ensures var out := Emergency(s, sender).value;
      var locked := UserOf(s.users, sender).locked;
      && UserOf(out.state.users, u).locked == (if u == sender then 0 else UserOf(s.users, u).locked)
      && StakeTo(out.messages, u) == (if u == sender then locked else 0)
  {
    var locked := UserOf(s.users, sender).locked;
    if locked > 0 {
      assert [TransferStake(sender, locked)][1..] == [];
    }
  }

  lemma IdleMoves(s: State, call: Call, u: Address)
    requires Handle(s, call).Ok? && !call.request.Callback? && !call.request.EmergencyRedeem?
    ensures var out := Handle(s, call).value;
      out.state.users == s.users && StakeTo(out.messages, u) == 0
  {
    NoStake(Handle(s, call).value.messages, u);
  }

  /** The state agrees with what the calls alone say. */
  ghost predicate Agrees(config: Config, subscribers: seq<Address>, calls: seq<Call>, t: State) {
    && t.config == config && t.subscribers == subscribers
    && t.stopped == StoppedBy(calls)
    && forall u :: UserOf(t.users, u).locked == StakeBy(calls, u)
  }

  lemma CallAgrees(config: Config, subscribers: seq<Address>, calls: seq<Call>, t: State, call: Call, u: Address)
    requires Valid(t) && Agrees(config, subscribers, calls, t) && Handle(t, call).Ok?
    ensures var out := Handle(t, call).value;
      && UserOf(out.state.users, u).locked == StakeBy(calls + [call], u)
      && UserOf(out.state.users, u).locked + StakeTo(out.messages, u)
         == UserOf(t.users, u).locked + DepositOf(call, u)
  {
    hide Deposit, RedeemStake, Emergency, Valid;
    assert (calls + [call])[..|calls|] == calls;
    assert UserOf(t.users, u).locked == StakeBy(calls, u);
    match call.request
    case Callback(DepositHook(from, amount)) => DepositMoves(t, from, amount, u);
    case Callback(RedeemHook(to, requested)) => RedeemMoves(t, to, requested, u);
    case EmergencyRedeem => EmergencyMoves(t, call.sender, u);
    case _ => IdleMoves(t, call, u);
  }

  lemma SwitchAgrees(calls: seq<Call>, t: State, call: Call)
    requires t.stopped == StoppedBy(calls) && Handle(t, call).Ok?
    ensures Handle(t, call).value.state.stopped == StoppedBy(calls + [call])
  {
    assert (calls + [call])[..|calls|] == calls;
  }

  // --- Whole runs ---

  /** Stakes and the stop switch are exactly what the calls made them. */
  lemma {:induction false} StakesFromCalls(config: Config, subscribers: seq<Address>, calls: seq<Call>)
    requires Run(Init(config, subscribers), calls).Ok?
    ensures var t := Run(Init(config, subscribers), calls).value;
      && t.config == config && t.subscribers == subscribers
      && t.stopped == StoppedBy(calls)
      && (forall u :: UserOf(t.users, u).locked == StakeBy(calls, u))
      && Valid(t)
  {
    hide Handle, Valid, UserOf, StakeBy, StoppedBy;
    var s := Init(config, subscribers);
    InitValid(config, subscribers);
    RunBalances(s, calls);
    if calls == [] {
      NobodyStakes(config, subscribers);
    } else {
      var before := calls[..|calls| - 1];
      var call := calls[|calls| - 1];
      StakesFromCalls(config, subscribers, before);
      var t := Run(s, before).value;
      assert before + [call] == calls;
      SwitchAgrees(before, t, call);
      ConfigStays(t, call);
      forall u
        ensures UserOf(Handle(t, call).value.state.users, u).locked == StakeBy(calls, u)
      {
        CallAgrees(config, subscribers, before, t, call, u);
      }
    }
  }

  lemma NobodyStakes(config: Config, subscribers: seq<Address>)
    ensures Agrees(config, subscribers, [], Init(config, subscribers))
  {
  }

  /** The stake account, per user: all that was ever staked is still locked or was sent back. */
  lemma {:induction false} StakeAccounted(config: Config, subscribers: seq<Address>, calls: seq<Call>, u: Address)
    requires Run(Init(config, subscribers), calls).Ok?
    ensures var s := Init(config, subscribers);
      DepositedBy(calls, u) == UserOf(Run(s, calls).value.users, u).locked + Total(s, calls, StakeSentTo(u))
  {
    hide Handle, Valid, StakeBy, StoppedBy, DepositOf;
    if calls != [] {
      var before := calls[..|calls| - 1];
      StakeAccounted(config, subscribers, before, u);
      StakesFromCalls(config, subscribers, before);
      CallAgrees(config, subscribers, before, Run(Init(config, subscribers), before).value, calls[|calls| - 1], u);
    }
  }

  // --- Who may do what ---

  /** Who may make which call after which calls; for a redeem's hook, of how much. */
  predicate Permitted(config: Config, calls: seq<Call>, call: Call) {
    match call.request
    case EmergencyRedeem => StoppedBy(calls)
    case ResumeContract => StoppedBy(calls) && call.sender == config.admin
    case StopContract => !StoppedBy(calls) && call.sender == config.admin
    case Receive(_, _) => !StoppedBy(calls) && call.sender == config.incToken
    case Redeem(_) => !StoppedBy(calls)
    case Notify(_) => !StoppedBy(calls) && (call.sender == config.admin || call.sender in config.rewardSources)
    case Callback(DepositHook(_, _)) => !StoppedBy(calls) && call.sender == config.ownAddr
    case Callback(RedeemHook(_, None)) => !StoppedBy(calls) && call.sender == config.ownAddr
    case Callback(RedeemHook(to, Some(amount))) =>
      !StoppedBy(calls) && call.sender == config.ownAddr && amount <= StakeBy(calls, to)
  }

  /** Beyond permission only arithmetic can abort. */
  lemma PermittedOrArithmetic(config: Config, subscribers: seq<Address>, calls: seq<Call>, t: State, call: Call)
    requires Agrees(config, subscribers, calls, t)
    ensures Handle(t, call).Ok? ==> Permitted(config, calls, call)
    ensures Permitted(config, calls, call) ==> Handle(t, call).Ok? || Handle(t, call) == Abort(Arithmetic)
    ensures !t.stopped && call.sender == config.ownAddr && call.request.Callback? && !Permitted(config, calls, call) ==>
              Handle(t, call) == Abort(InsufficientFunds)
  {
    hide StakeBy, StoppedBy;
    if call.request.Callback? && call.request.hook.RedeemHook? {
      assert UserOf(t.users, call.request.hook.to).locked == StakeBy(calls, call.request.hook.to);
    }
  }

  /** When a call commits, in every reachable state within the limits of `NeverOverflows`: exactly
      when it is permitted. In particular every deposit's hook commits, every redeem's hook of the
      whole stake or of any part of it, and of no more; more than the stake is refused as
      insufficient funds. */
  lemma {:induction false} CommitsIff(
      config: Config, subscribers: seq<Address>, calls: seq<Call>, call: Call,
      allocatedLimit: nat, lockedLimit: nat, least: nat)
    requires Run(Init(config, subscribers), calls).Ok?
    requires SupplyAtLeast(Init(config, subscribers), calls, least)
    requires least >= 1 && EnoughFor(Run(Init(config, subscribers), calls).value, call, least)
    requires Total(Init(config, subscribers), calls, CallAllocated)
             + CallAllocated(Run(Init(config, subscribers), calls).value, call) <= allocatedLimit
    requires TotalLocked(Run(Init(config, subscribers), calls).value) + StakeAdded(call) <= lockedLimit
    requires lockedLimit < U128_LIMIT && allocatedLimit * REWARD_SCALE < U128_LIMIT
    requires (allocatedLimit * REWARD_SCALE / least) * lockedLimit < U128_LIMIT
    ensures var t := Run(Init(config, subscribers), calls).value;
      && (Handle(t, call).Ok? <==> Permitted(config, calls, call))
      && (!StoppedBy(calls) && call.sender == config.ownAddr && call.request.Callback? && !Permitted(config, calls, call)
          ==> Handle(t, call) == Abort(InsufficientFunds))
  {
    hide Handle, Permitted, Valid, SupplyAtLeast, EnoughFor, UserOf, StakeBy;
    var t := Run(Init(config, subscribers), calls).value;
    StakesFromCalls(config, subscribers, calls);
    NeverOverflows(config, subscribers, calls, call, allocatedLimit, lockedLimit, least);
    PermittedOrArithmetic(config, subscribers, calls, t, call);
  }
}
