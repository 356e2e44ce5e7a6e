/** The lp-staking contract as a state machine over values: what each call does to the
    stored state and which messages it emits. `StakingContract` is proved against it. */
module Staking {
  import opened Chain
  import opened Messages

  const REWARD_SCALE: nat := 1_000_000_000_000_000_000

  datatype UserInfo = UserInfo(locked: nat, debt: nat)

  datatype RewardPool = RewardPool(residue: nat, incTokenSupply: nat, accRewardPerShare: nat)

  datatype Config = Config(admin: Address, ownAddr: Address, incToken: Address, rewardSources: seq<Address>)

  datatype State = State(
    config: Config,
    stopped: bool,
    pool: RewardPool,
    users: map<Address, UserInfo>,
    subscribers: seq<Address>)

  datatype Request =
    | Receive(from: Address, deposited: nat)
    | Redeem(redeemed: Option<nat>)
    | Notify(amount: nat)
    | Callback(hook: Hook)
    | EmergencyRedeem
    | StopContract
    | ResumeContract

  datatype Call = Call(sender: Address, request: Request)

  datatype Outcome = Outcome(state: State, messages: seq<Message>)

  function Init(config: Config, subscribers: seq<Address>): State {
    State(config, false, RewardPool(0, 0, 0), map[], subscribers)
  }

  /** A user who never staked reads as an empty record. */
  function UserOf(users: map<Address, UserInfo>, u: Address): UserInfo {
    if u in users then users[u] else UserInfo(0, 0)
  }

  /** What the accumulator is worth to a stake. */
  function Accrued(locked: nat, acc: nat): Result<nat> {
    var product :- Mul128(locked, acc);
    Ok(product / REWARD_SCALE)
  }

  function Pending(user: UserInfo, acc: nat): Result<nat> {
    var accrued :- Accrued(user.locked, acc);
    Sub(accrued, user.debt)
  }

  function UpdateRewards(pool: RewardPool, newlyAllocated: nat): Result<RewardPool> {
    if newlyAllocated == 0 then Ok(pool)
    else if pool.incTokenSupply == 0 then
      var residue :- Add128(pool.residue, newlyAllocated);
      Ok(pool.(residue := residue))
    else
      var total :- Add128(newlyAllocated, pool.residue);
      var scaled :- Mul128(total, REWARD_SCALE);
      var acc :- Add128(pool.accRewardPerShare, scaled / pool.incTokenSupply);
      Ok(pool.(accRewardPerShare := acc, residue := 0))
  }

  function NotifyAllocation(s: State, sender: Address, amount: nat): Result<Outcome> {
    if sender !in s.config.rewardSources && sender != s.config.admin then Abort(Unauthorized)
    else
      var pool :- UpdateRewards(s.pool, amount);
      Ok(Outcome(s.(pool := pool), []))
  }

  function RewardMessage(to: Address, pending: nat): seq<Message> {
    if pending > 0 then [TransferReward(to, pending)] else []
  }

  function SubscriberMessages(subscribers: seq<Address>, voter: Address, power: nat): seq<Message> {
    seq(|subscribers|, i requires 0 <= i < |subscribers| => UpdateVotingPower(subscribers[i], voter, power))
  }

  function Deposit(s: State, from: Address, amount: nat): Result<Outcome> {
    var user := UserOf(s.users, from);
    var acc := s.pool.accRewardPerShare;
    var pending :- if user.locked > 0 then Pending(user, acc) else Ok(0);
    var locked :- Add128(user.locked, amount);
    var debt :- Accrued(locked, acc);
    var supply :- Add128(s.pool.incTokenSupply, amount);
    Ok(Outcome(
         s.(users := s.users[from := UserInfo(locked, debt)], pool := s.pool.(incTokenSupply := supply)),
         RewardMessage(from, pending) + SubscriberMessages(s.subscribers, from, locked)))
  }

  function RedeemStake(s: State, to: Address, requested: Option<nat>): Result<Outcome> {
    var user := UserOf(s.users, to);
    var acc := s.pool.accRewardPerShare;
    var amount := if requested.Some? then requested.value else user.locked;
    if amount > user.locked then Abort(InsufficientFunds)
    else
      var pending :- Pending(user, acc);
      var locked := user.locked - amount;
      var debt :- Accrued(locked, acc);
      var supply :- Sub(s.pool.incTokenSupply, amount);
      Ok(Outcome(
           s.(users := s.users[to := UserInfo(locked, debt)], pool := s.pool.(incTokenSupply := supply)),
           RewardMessage(to, pending) + [TransferStake(to, amount)] + SubscriberMessages(s.subscribers, to, locked)))
  }

  function RunHook(s: State, hook: Hook): Result<Outcome> {
    match hook
    case DepositHook(from, amount) => Deposit(s, from, amount)
    case RedeemHook(to, amount) => RedeemStake(s, to, amount)
  }

  /** Gives the stake back and forgets the rewards: no settlement, no word to the subscribers. */
  function Emergency(s: State, sender: Address): Result<Outcome> {
    var locked := UserOf(s.users, sender).locked;
    var supply :- Sub(s.pool.incTokenSupply, locked);
    Ok(Outcome(
         s.(users := s.users[sender := UserInfo(0, 0)], pool := s.pool.(incTokenSupply := supply)),
         if locked > 0 then [TransferStake(sender, locked)] else []))
  }

  /** Every listed source is asked to report, and only then the contract calls itself back. */
  function AllocationMessages(config: Config, hook: Hook): seq<Message> {
    seq(|config.rewardSources|, i requires 0 <= i < |config.rewardSources| =>
      UpdateAllocation(config.rewardSources[i], config.ownAddr))
    + [SelfCallback(hook)]
  }

  function Handle(s: State, call: Call): Result<Outcome> {
    if s.stopped then
      match call.request
      case EmergencyRedeem => Emergency(s, call.sender)
      case ResumeContract =>
        if call.sender == s.config.admin then Ok(Outcome(s.(stopped := false), [])) else Abort(Unauthorized)
      case _ => Abort(Stopped)
    else
      match call.request
      case Receive(from, amount) =>
        if call.sender == s.config.incToken
        then Ok(Outcome(s, AllocationMessages(s.config, DepositHook(from, amount))))
        else Abort(Unauthorized)
      case Redeem(amount) =>
        Ok(Outcome(s, AllocationMessages(s.config, RedeemHook(call.sender, amount))))
      case Notify(amount) => NotifyAllocation(s, call.sender, amount)
      case Callback(hook) =>
        if call.sender == s.config.ownAddr then RunHook(s, hook) else Abort(Unauthorized)
      case StopContract =>
        if call.sender == s.config.admin then Ok(Outcome(s.(stopped := true), [])) else Abort(Unauthorized)
      case _ => Abort(NotFound)
  }

  /** The reward query: the new rewards are what the sources say they would allocate at that block. */
  function QueryPendingRewards(s: State, u: Address, newRewards: nat): Result<nat> {
    var user := UserOf(s.users, u);
    var acc :- if s.pool.incTokenSupply == 0 then Ok(s.pool.accRewardPerShare) else
        (var total :- Add128(newRewards, s.pool.residue);
         var scaled :- Mul128(total, REWARD_SCALE);
         Add128(s.pool.accRewardPerShare, scaled / s.pool.incTokenSupply));
    Pending(user, acc)
  }

  /** The state after a list of committed calls; `Abort` if one of them did not commit. */
  function Run(s: State, calls: seq<Call>): Result<State> {
    if calls == [] then Ok(s)
    else
      var before :- Run(s, calls[..|calls| - 1]);
      var outcome :- Handle(before, calls[|calls| - 1]);
      Ok(outcome.state)
  }
}
