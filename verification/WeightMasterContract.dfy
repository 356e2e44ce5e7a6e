/** The weight-master contract in its own form. */
module WeightMasterContract {
  import opened Chain
  import opened Messages
  import opened Schedule
  import W = WeightMaster

  class Contract {
    var admin: Address
    var totalWeight: nat
    var schedule: seq<ScheduleUnit>
    var spies: map<Address, W.SpySettings>

    ghost function Model(): W.State
      reads this
    {
      W.State(admin, totalWeight, schedule, spies)
    }

    /** Every stored schedule was sorted first; the reward loop relies on it. */
    ghost predicate Valid()
      reads this
    {
      Sorted(schedule)
    }

    ghost predicate Follows(expected: Result<W.Outcome>, r: Result<seq<Message>>)
      reads this
    {
      match expected
      case Ok(out) => r == Ok(out.messages) && Model() == out.state && Valid()
      case Abort(error) => r == Abort(error)
    }

    constructor (admin: Address, mintSchedule: seq<ScheduleUnit>)
      ensures Valid() && Model() == W.Init(admin, mintSchedule)
    {
      this.admin := admin;
      this.totalWeight := 1; // so that the division never fails
      this.schedule := SortSchedule(mintSchedule);
      this.spies := map[];
      new;
      SortIsStable(mintSchedule, 0);
    }

    method SetSchedule(sender: Address, newSchedule: seq<ScheduleUnit>) returns (r: Result<seq<Message>>)
      requires Valid()
      modifies this`schedule
      ensures Follows(W.Handle(old(Model()), W.Call(0, sender, W.SetSchedule(newSchedule))), r)
    {
      if sender != admin {
        return Abort(Unauthorized);
      }
      SortIsStable(newSchedule, 0);
      schedule := SortSchedule(newSchedule);
      return Ok([]);
    }

    method SetWeights(height: nat, sender: Address, weights: seq<W.WeightInfo>) returns (r: Result<seq<Message>>)
      requires Valid()
      modifies this`totalWeight, this`spies
      ensures Follows(W.Handle(old(Model()), W.Call(height, sender, W.SetWeights(weights))), r)
    {
      if sender != admin {
        return Abort(Unauthorized);
      }
      var messages: seq<Message> := [];
      var newWeightCounter := 0;
      var oldWeightCounter := 0;
      ghost var before := Model();

      for i := 0 to |weights|
        invariant Model() == before.(spies := spies)
        invariant W.SetAll(before, height, weights[..i])
                  == Ok(W.Progress(spies, messages, newWeightCounter, oldWeightCounter))
      {
        AbortedPrefix(before, height, weights, i + 1);
        assert weights[..i + 1][..i] == weights[..i];
        var toUpdate := weights[i];
        var settings := W.SpyOf(spies, toUpdate.address, height);
        if settings.lastUpdateBlock < height && settings.weight > 0 {
          var rewards :- GetSpyRewards(height, totalWeight, schedule, settings.lastUpdateBlock, settings.weight);
          messages := messages + [MintReward(toUpdate.address, rewards), NotifyAllocation(toUpdate.address, rewards)];
        } else {
          assert messages + [] == messages;
        }
        var oldWeight := settings.weight;
        settings := settings.(weight := toUpdate.weight);
        settings := settings.(lastUpdateBlock := height);
        spies := spies[toUpdate.address := settings];
        newWeightCounter :- Add64(newWeightCounter, toUpdate.weight);
        oldWeightCounter :- Add64(oldWeightCounter, oldWeight);
      }
      assert weights[..|weights|] == weights;
      var rest :- Sub(totalWeight, oldWeightCounter);
      totalWeight :- Add64(rest, newWeightCounter);
      return Ok(messages);
    }

    method UpdateAllocation(height: nat, spy: Address) returns (r: Result<seq<Message>>)
      requires Valid()
      modifies this`spies
      ensures Follows(W.ApplyUpdate(old(Model()), height, spy), r)
    {
      var settings := W.SpyOf(spies, spy, height);
      var rewards := 0;
      var messages: seq<Message> := [];
      if settings.lastUpdateBlock < height && settings.weight > 0 {
        rewards :- GetSpyRewards(height, totalWeight, schedule, settings.lastUpdateBlock, settings.weight);
        messages := [MintReward(spy, rewards)];
        settings := settings.(lastUpdateBlock := height);
        spies := spies[spy := settings];
      }
      ghost var minted := messages;
      messages := messages + [NotifyAllocation(spy, rewards)];
      assert minted == [] ==> messages == [NotifyAllocation(spy, rewards)];
      assert minted != [] ==> messages == [MintReward(spy, rewards), NotifyAllocation(spy, rewards)];
      return Ok(messages);
    }

    method QueryPendingRewards(spy: Address, block: nat) returns (r: Result<nat>)
      requires Valid()
      ensures r == W.QueryPending(Model(), spy, block)
    {
      var settings := W.SpyOf(spies, spy, block);
      r := GetSpyRewards(block, totalWeight, schedule, settings.lastUpdateBlock, settings.weight);
    }
  }

  /** Once an entry aborts, the whole list does. */
  lemma {:induction false} AbortedPrefix(s: W.State, height: nat, weights: seq<W.WeightInfo>, n: nat)
    requires n <= |weights|
    ensures W.SetAll(s, height, weights[..n]).Abort? ==> W.SetAll(s, height, weights) == W.SetAll(s, height, weights[..n])
  {
    if n == |weights| {
      assert weights[..n] == weights;
    } else {
      AbortedPrefix(s, height, weights[..|weights| - 1], n);
      assert weights[..|weights| - 1][..n] == weights[..n];
    }
  }
}
