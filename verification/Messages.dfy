/** The messages handlers emit. They run in order after the handler, in the same transaction. */
module Messages {
  import opened Chain

  /** The part of a deposit or redeem that waits until the reward sources have reported. */
  datatype Hook =
    | DepositHook(from: Address, depositAmount: nat)
    | RedeemHook(to: Address, redeemAmount: Option<nat>)

  datatype Message =
    | UpdateAllocation(source: Address, spy: Address)
    | SelfCallback(hook: Hook)
    | NotifyAllocation(notified: Address, granted: nat)
    | MintReward(minted: Address, mintAmount: nat)
    | TransferReward(rewarded: Address, reward: nat)
    | TransferStake(staker: Address, stake: nat)
    | UpdateVotingPower(contract: Address, voter: Address, power: nat)

  /** Reward tokens that a list of messages sends to `u`. */
  function RewardTo(messages: seq<Message>, u: Address): nat {
    if messages == [] then 0
    else
      (if messages[0].TransferReward? && messages[0].rewarded == u then messages[0].reward else 0)
      + RewardTo(messages[1..], u)
  }

  /** Reward tokens that a list of messages sends away, to anybody. */
  function Rewards(messages: seq<Message>): nat {
    if messages == [] then 0
    else (if messages[0].TransferReward? then messages[0].reward else 0) + Rewards(messages[1..])
  }

  lemma {:induction false} RewardsConcat(a: seq<Message>, b: seq<Message>, u: Address)
    ensures Rewards(a + b) == Rewards(a) + Rewards(b)
    ensures RewardTo(a + b, u) == RewardTo(a, u) + RewardTo(b, u)
  {
    if a == [] {
      assert a + b == b;
    } else {
      assert (a + b)[1..] == a[1..] + b;
      RewardsConcat(a[1..], b, u);
    }
  }

  lemma {:induction false} NoRewards(messages: seq<Message>, u: Address)
    requires forall m | m in messages :: !m.TransferReward?
    ensures Rewards(messages) == RewardTo(messages, u) == 0
  {
    if messages != [] {
      assert messages[0] in messages;
      NoRewards(messages[1..], u);
    }
  }
}
