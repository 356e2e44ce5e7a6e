/** The bulk-distributor contract in its own form. */
module BulkDistributorContract {
  import opened Chain
  import opened Messages
  import B = BulkDistributor

  /** One more bulk never lowers the sum, so an overflow on the way is an overflow of the whole. */
  lemma {:induction false} ReleasedPrefix(bulks: seq<B.RewardBulk>, i: nat, from: nat, to: nat)
    requires i < |bulks|
    ensures B.Released(bulks[..i + 1], from, to)
            == B.Released(bulks[..i], from, to) + B.BlocksLeft(bulks[i].endBlock, from, to) * bulks[i].amountPerBlock
    ensures B.Released(bulks[..i + 1], from, to) <= B.Released(bulks, from, to)
  {
    assert bulks[..i + 1][..i] == bulks[..i];
    if i + 1 < |bulks| {
      var rest := bulks[..|bulks| - 1];
      ReleasedPrefix(rest, i, from, to);
      assert rest[..i + 1] == bulks[..i + 1] && rest[..i] == bulks[..i];
    } else {
      assert bulks[..i + 1] == bulks;
    }
  }

  /** The loop over the bulks, with the branches of the source. */
  method GetSpyRewards(bulks: seq<B.RewardBulk>, lastAwardedBlock: nat, currentBlock: nat) returns (r: Result<nat>)
    ensures r == B.BulkRewards(bulks, lastAwardedBlock, currentBlock)
  {
    var amount := 0;
    for i := 0 to |bulks|
      invariant amount == B.Released(bulks[..i], lastAwardedBlock, currentBlock) < U128_LIMIT
      invariant currentBlock < lastAwardedBlock ==> forall k | 0 <= k < i :: bulks[k].endBlock <= currentBlock
    {
      ReleasedPrefix(bulks, i, lastAwardedBlock, currentBlock);
      var bulk := bulks[i];
      if currentBlock < bulk.endBlock {
        var blocks :- Sub(currentBlock, lastAwardedBlock);
        var released :- Mul128(blocks, bulk.amountPerBlock);
        amount :- Add128(amount, released);
      } else if lastAwardedBlock < bulk.endBlock {
        var released :- Mul128(bulk.endBlock - lastAwardedBlock, bulk.amountPerBlock);
        amount :- Add128(amount, released);
      }
    }
    assert bulks[..|bulks|] == bulks;
    return Ok(amount);
  }

  class Contract {
    var admin: Address
    var spyToReward: Address
    var lastAwardedBlock: nat
    var bulks: seq<B.RewardBulk>

    ghost function Model(): B.State
      reads this
    {
      B.State(admin, spyToReward, lastAwardedBlock, bulks)
    }

    ghost predicate Follows(expected: Result<B.Outcome>, r: Result<seq<Message>>)
      reads this
    {
      match expected
      case Ok(out) => r == Ok(out.messages) && Model() == out.state
      case Abort(error) => r == Abort(error)
    }

    constructor (admin: Address, spyToReward: Address)
      ensures Model() == B.Init(admin, spyToReward)
    {
      this.admin := admin;
      this.spyToReward := spyToReward;
      this.lastAwardedBlock := 0;
      this.bulks := [];
    }

    /** Drops the finished bulks, and stores the list only if that changed it. */
    method UpdatedRewardBulks() returns (updated: seq<B.RewardBulk>)
      modifies this`bulks
      ensures updated == B.Unfinished(old(bulks), lastAwardedBlock) == bulks
    {
      updated := [];
      for i := 0 to |bulks|
        invariant updated == B.Unfinished(bulks[..i], lastAwardedBlock)
        invariant |updated| <= i
        invariant |updated| == i ==> updated == bulks[..i]
      {
        assert bulks[..i + 1][..i] == bulks[..i];
        if bulks[i].endBlock > lastAwardedBlock {
          updated := updated + [bulks[i]];
        }
      }
      assert bulks[..|bulks|] == bulks;
      if |updated| != |bulks| {
        bulks := updated;
      }
    }

    method UpdateAllocation(height: nat) returns (r: Result<seq<Message>>)
      modifies this`bulks, this`lastAwardedBlock
      ensures Follows(B.ApplyUpdate(old(Model()), height), r)
    {
      var rewards := 0;
      var messages: seq<Message> := [];
      if lastAwardedBlock < height {
        var live := UpdatedRewardBulks();
        rewards :- GetSpyRewards(live, lastAwardedBlock, height);
        if rewards > 0 {
          messages := [TransferReward(spyToReward, rewards)];
        }
        lastAwardedBlock := height;
      }
      ghost var transfer := messages;
      messages := messages + [NotifyAllocation(spyToReward, rewards)];
      assert transfer == [] ==> messages == [NotifyAllocation(spyToReward, rewards)];
      return Ok(messages);
    }

    method NewBulkReward(height: nat, from: Address, amount: nat, distributeOver: nat) returns (r: Result<seq<Message>>)
      modifies this`bulks, this`lastAwardedBlock
      ensures Follows(B.AddBulk(old(Model()), height, from, amount, distributeOver), r)
    {
      if from != admin {
        return Abort(Unauthorized);
      }
      // This happens before the new bulk is added, so that it is not rewarded for past blocks
      var messages :- UpdateAllocation(height);
      var endBlock :- Add64(height, distributeOver);
      var amountPerBlock :- Div(amount, distributeOver);
      bulks := bulks + [B.RewardBulk(endBlock, amountPerBlock)];
      return Ok(messages);
    }

    method QueryPendingRewards(block: nat) returns (r: Result<nat>)
      ensures r == B.QueryPending(Model(), block)
    {
      r := GetSpyRewards(bulks, lastAwardedBlock, block);
    }
  }
}
