/** The lp-staking contract in its own form: handlers that load, change and store fields.
    A handler that aborts promises nothing about the fields, since the chain discards its writes. */
module StakingContract {
  import opened Chain
  import opened Messages
  import S = Staking
  import Q = StakingQuery

  class Contract {
    var config: S.Config
    var stopped: bool
    var pool: S.RewardPool
    var users: map<Address, S.UserInfo>
    var subscribers: seq<Address>

    ghost function Model(): S.State
      reads this
    {
      S.State(config, stopped, pool, users, subscribers)
    }

    /** The handler answered as the state machine does, and left its state. */
    ghost predicate Follows(expected: Result<S.Outcome>, r: Result<seq<Message>>)
      reads this
    {
      match expected
      case Ok(out) => r == Ok(out.messages) && Model() == out.state
      case Abort(error) => r == Abort(error)
    }

    constructor (config: S.Config, subscribers: seq<Address>)
      ensures Model() == S.Init(config, subscribers)
    {
      this.config := config;
      this.stopped := false;
      this.pool := S.RewardPool(0, 0, 0);
      this.users := map[];
      this.subscribers := subscribers;
    }

    method UpdateRewards(newlyAllocated: nat) returns (r: Result<S.RewardPool>)
      modifies this`pool
      ensures r == S.UpdateRewards(old(pool), newlyAllocated)
      ensures r.Ok? ==> pool == r.value
    {
      if newlyAllocated == 0 {
        return Ok(pool);
      }
      if pool.incTokenSupply == 0 {
        var residue :- Add128(pool.residue, newlyAllocated);
        pool := pool.(residue := residue);
        return Ok(pool);
      }
      var total :- Add128(newlyAllocated, pool.residue);
      var scaled :- Mul128(total, S.REWARD_SCALE);
      var acc :- Add128(pool.accRewardPerShare, scaled / pool.incTokenSupply);
      pool := pool.(accRewardPerShare := acc);
      pool := pool.(residue := 0);
      return Ok(pool);
    }

    method NotifyAllocation(sender: Address, amount: nat) returns (r: Result<seq<Message>>)
      modifies this`pool
      ensures Follows(S.NotifyAllocation(old(Model()), sender, amount), r)
    {
      if sender !in config.rewardSources && sender != config.admin {
        return Abort(Unauthorized);
      }
      var _ :- UpdateRewards(amount);
      return Ok([]);
    }

    method NotifySubscribers(voter: Address, power: nat, messages: seq<Message>) returns (all: seq<Message>)
      ensures all == messages + S.SubscriberMessages(subscribers, voter, power)
    {
      all := messages;
      for i := 0 to |subscribers|
        invariant all == messages + S.SubscriberMessages(subscribers[..i], voter, power)
      {
        all := all + [UpdateVotingPower(subscribers[i], voter, power)];
        assert subscribers[..i + 1] == subscribers[..i] + [subscribers[i]];
      }
      assert subscribers[..] == subscribers;
    }

    method DepositHook(from: Address, amount: nat) returns (r: Result<seq<Message>>)
      modifies this`pool, this`users
      ensures Follows(S.Deposit(old(Model()), from, amount), r)
    {
      var messages: seq<Message> := [];
      var user := S.UserOf(users, from);
      if user.locked > 0 {
        var accrued :- Mul128(user.locked, pool.accRewardPerShare);
        var pending :- Sub(accrued / S.REWARD_SCALE, user.debt);
        if pending > 0 {
          messages := [TransferReward(from, pending)];
        }
      }
      var locked :- Add128(user.locked, amount);
      user := user.(locked := locked);
      var accrued :- Mul128(user.locked, pool.accRewardPerShare);
      user := user.(debt := accrued / S.REWARD_SCALE);
      users := users[from := user];

      var supply :- Add128(pool.incTokenSupply, amount);
      pool := pool.(incTokenSupply := supply);

      messages := NotifySubscribers(from, user.locked, messages);
      return Ok(messages);
    }

    method RedeemHook(to: Address, requested: Option<nat>) returns (r: Result<seq<Message>>)
      modifies this`pool, this`users
      ensures Follows(S.RedeemStake(old(Model()), to, requested), r)
    {
      var user := S.UserOf(users, to);
      var amount := if requested.Some? then requested.value else user.locked;
      if amount > user.locked {
        return Abort(InsufficientFunds);
      }
      var messages: seq<Message> := [];
      var accrued :- Mul128(user.locked, pool.accRewardPerShare);
      var pending :- Sub(accrued / S.REWARD_SCALE, user.debt);
      if pending > 0 {
        messages := [TransferReward(to, pending)];
      }
      user := user.(locked := user.locked - amount);
      accrued :- Mul128(user.locked, pool.accRewardPerShare);
      user := user.(debt := accrued / S.REWARD_SCALE);
      users := users[to := user];

      var supply :- Sub(pool.incTokenSupply, amount);
      pool := pool.(incTokenSupply := supply);

      messages := messages + [TransferStake(to, amount)];
      messages := NotifySubscribers(to, user.locked, messages);
      return Ok(messages);
    }

    method EmergencyRedeem(sender: Address) returns (r: Result<seq<Message>>)
      modifies this`pool, this`users
      ensures Follows(S.Emergency(old(Model()), sender), r)
    {
      var user := S.UserOf(users, sender);
      var supply :- Sub(pool.incTokenSupply, user.locked);
      pool := pool.(incTokenSupply := supply);
      var messages: seq<Message> := [];
      if user.locked > 0 {
        messages := [TransferStake(sender, user.locked)];
      }
      users := users[sender := S.UserInfo(0, 0)];
      return Ok(messages);
    }

    /** Asks every source to report, then calls itself back. */
    method UpdateAllocation(hook: Hook) returns (messages: seq<Message>)
      ensures messages == S.AllocationMessages(config, hook)
    {
      messages := [];
      for i := 0 to |config.rewardSources|
        invariant |messages| == i
        invariant forall k | 0 <= k < i ::
          messages[k] == Message.UpdateAllocation(config.rewardSources[k], config.ownAddr)
      {
        messages := messages + [Message.UpdateAllocation(config.rewardSources[i], config.ownAddr)];
      }
      messages := messages + [SelfCallback(hook)];
    }

    /** Adds up what the sources answer; a sum that does not fit aborts the query. */
    method QueryPending(answers: seq<nat>) returns (r: Result<nat>)
      ensures r == if Q.Sum(answers) < U128_LIMIT then Ok(Q.Sum(answers)) else Abort(Arithmetic)
    {
      var totalAmount := 0;
      for i := 0 to |answers|
        invariant totalAmount == Q.Sum(answers[..i]) < U128_LIMIT
      {
        Q.PrefixSum(answers, i);
        totalAmount :- Add128(totalAmount, answers[i]);
      }
      assert answers[..|answers|] == answers;
      return Ok(totalAmount);
    }

    method QueryPendingRewards(u: Address, answers: seq<nat>) returns (r: Result<nat>)
      ensures Q.Sum(answers) < U128_LIMIT ==> r == S.QueryPendingRewards(Model(), u, Q.Sum(answers))
      ensures Q.Sum(answers) >= U128_LIMIT ==> r == Abort(Arithmetic)
    {
      var newRewards :- QueryPending(answers);
      var user := S.UserOf(users, u);
      var acc := pool.accRewardPerShare;
      if pool.incTokenSupply != 0 {
        var total :- Add128(newRewards, pool.residue);
        var scaled :- Mul128(total, S.REWARD_SCALE);
        acc :- Add128(acc, scaled / pool.incTokenSupply);
      }
      var accrued :- Mul128(user.locked, acc);
      r := Sub(accrued / S.REWARD_SCALE, user.debt);
    }

    method Handle(call: S.Call) returns (r: Result<seq<Message>>)
      modifies this
      ensures Follows(S.Handle(old(Model()), call), r)
    {
      if stopped {
        match call.request {
          case EmergencyRedeem =>
            r := EmergencyRedeem(call.sender);
          case ResumeContract =>
            if call.sender != config.admin {
              return Abort(Unauthorized);
            }
            stopped := false;
            r := Ok([]);
          case _ =>
            r := Abort(Stopped);
        }
        return;
      }
      match call.request {
        case Receive(from, amount) =>
          if call.sender != config.incToken {
            return Abort(Unauthorized);
          }
          var messages := UpdateAllocation(Hook.DepositHook(from, amount));
          r := Ok(messages);
        case Redeem(amount) =>
          var messages := UpdateAllocation(Hook.RedeemHook(call.sender, amount));
          r := Ok(messages);
        case Notify(amount) =>
          r := NotifyAllocation(call.sender, amount);
        case Callback(hook) =>
          if call.sender != config.ownAddr {
            return Abort(Unauthorized);
          }
          match hook {
            case DepositHook(from, amount) => r := DepositHook(from, amount);
            case RedeemHook(to, amount) => r := RedeemHook(to, amount);
          }
        case StopContract =>
          if call.sender != config.admin {
            return Abort(Unauthorized);
          }
          stopped := true;
          r := Ok([]);
        case _ =>
          r := Abort(NotFound);
      }
    }
  }
}
