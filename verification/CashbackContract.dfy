/** The cashback token in its own form. */
module CashbackContract {
  import opened Chain
  import opened HistoryStore
  import opened Snip20Store
  import L = Snip20
  import H = History
  import C = Cashback

  class Contract {
    const store: Store
    const history: Records
    var admin: Address
    var ownAddr: Address
    var master: Address
    var minters: seq<Address>
    var rewardBalance: nat

    ghost function Model(): C.State
      reads this, store, history
    {
      C.State(admin, ownAddr, master, minters, store.Model(), rewardBalance, history.Model())
    }

    ghost predicate Follows(expected: Result<C.Outcome>, r: Result<seq<C.Message>>)
      reads this, store, history
    {
      match expected
      case Ok(out) => r == Ok(out.messages) && Model() == out.state
      case Abort(error) => r == Abort(error)
    }

    constructor (admin: Address, ownAddr: Address, master: Address, store: Store, history: Records)
      ensures this.store == store && this.history == history
      ensures this.admin == admin && this.ownAddr == ownAddr && this.master == master
      ensures minters == [admin] && rewardBalance == 0
    {
      this.store := store;
      this.history := history;
      this.admin := admin;
      this.ownAddr := ownAddr;
      this.master := master;
      this.minters := [admin];
      this.rewardBalance := 0;
    }

    method Transfer(time: nat, sender: Address, recipient: Address, amount: nat) returns (r: Result<seq<C.Message>>)
      modifies store, history
      ensures Follows(C.Handle(old(Model()), C.Call(time, sender, C.Transfer(recipient, amount))), r)
    {
      var _ :- store.PerformTransfer(sender, recipient, amount);
      var _ :- history.StoreTransfer(sender, sender, recipient, amount);
      return Ok([]);
    }

    method TransferFrom(time: nat, sender: Address, owner: Address, recipient: Address, amount: nat)
      returns (r: Result<seq<C.Message>>)
      modifies store, history
      ensures Follows(C.Handle(old(Model()), C.Call(time, sender, C.TransferFrom(owner, recipient, amount))), r)
    {
      var _ :- store.SpendAllowance(time, owner, sender, amount);
      var _ :- store.PerformTransfer(owner, recipient, amount);
      var _ :- history.StoreTransfer(owner, sender, recipient, amount);
      return Ok([]);
    }

    method IncreaseAllowance(time: nat, sender: Address, spender: Address, amount: nat, expiration: Option<nat>)
      returns (r: Result<seq<C.Message>>)
      modifies store
      ensures Follows(C.Handle(old(Model()), C.Call(time, sender, C.IncreaseAllowance(spender, amount, expiration))), r)
    {
      store.IncreaseAllowance(sender, spender, amount, expiration);
      return Ok([]);
    }

    method DecreaseAllowance(time: nat, sender: Address, spender: Address, amount: nat, expiration: Option<nat>)
      returns (r: Result<seq<C.Message>>)
      modifies store
      ensures Follows(C.Handle(old(Model()), C.Call(time, sender, C.DecreaseAllowance(spender, amount, expiration))), r)
    {
      store.DecreaseAllowance(sender, spender, amount, expiration);
      return Ok([]);
    }

    method Mint(time: nat, sender: Address, recipient: Address, amount: nat) returns (r: Result<seq<C.Message>>)
      modifies store, history
      ensures Follows(C.Handle(old(Model()), C.Call(time, sender, C.Mint(recipient, amount))), r)
    {
      if sender !in minters {
        return Abort(Unauthorized);
      }
      var _ :- store.MintTo(recipient, amount);
      var _ :- history.StoreMint(sender, recipient, amount);
      return Ok([]);
    }

    method Burn(time: nat, sender: Address, amount: nat) returns (r: Result<seq<C.Message>>)
      ensures Follows(C.Handle(Model(), C.Call(time, sender, C.Burn(amount))), r)
    {
      var messages := UpdateAllocation(sender, amount);
      return Ok(messages);
    }

    method BurnFrom(time: nat, sender: Address, owner: Address, amount: nat) returns (r: Result<seq<C.Message>>)
      modifies store
      ensures Follows(C.Handle(old(Model()), C.Call(time, sender, C.BurnFrom(owner, amount))), r)
    {
      var _ :- store.SpendAllowance(time, owner, sender, amount);
      var messages := UpdateAllocation(owner, amount);
      return Ok(messages);
    }

    method UpdateAllocation(owner: Address, amount: nat) returns (messages: seq<C.Message>)
      ensures messages == C.BurnMessages(Model(), owner, amount)
    {
      messages := [C.UpdateAllocation(master, ownAddr)];
      messages := messages + [C.SelfCallback(owner, amount)];
    }

    method NotifyAllocation(time: nat, sender: Address, amount: nat) returns (r: Result<seq<C.Message>>)
      modifies this`rewardBalance
      ensures Follows(C.Handle(old(Model()), C.Call(time, sender, C.Notify(amount))), r)
    {
      if sender != master && sender != admin {
        return Abort(Unauthorized);
      }
      rewardBalance :- Add128(rewardBalance, amount);
      return Ok([]);
    }

    method SelfCallback(time: nat, sender: Address, burner: Address, amount: nat) returns (r: Result<seq<C.Message>>)
      modifies this`rewardBalance, store, history
      ensures Follows(C.Handle(old(Model()), C.Call(time, sender, C.Callback(burner, amount))), r)
    {
      if sender != ownAddr {
        return Abort(Unauthorized);
      }
      r := BurnHook(burner, amount);
    }

    method BurnHook(burner: Address, amount: nat) returns (r: Result<seq<C.Message>>)
      modifies this`rewardBalance, store, history
      ensures Follows(C.BurnHook(old(Model()), burner, amount), r)
    {
      hide H.StoreBurn, C.RewardOf;
      var _ :- store.TakeFromAccount(burner, amount);
      // The reward is a share of the supply before the burn
      var messages :- TransferReward(burner, amount, store.totalSupply);
      var _ :- store.TakeFromSupply(amount);
      var _ :- history.StoreBurn(burner, burner, amount);
      return Ok(messages);
    }

    method TransferReward(burner: Address, burnAmount: nat, totalSupply: nat) returns (r: Result<seq<C.Message>>)
      requires totalSupply == store.totalSupply
      modifies this`rewardBalance
      ensures Follows(C.PayReward(old(Model()), burner, burnAmount), r)
    {
      var scaled :- Mul128(burnAmount, rewardBalance);
      var reward :- Div(scaled, totalSupply);
      if reward > 0 {
        rewardBalance :- Sub(rewardBalance, reward);
        return Ok([C.TransferReward(burner, reward)]);
      } else {
        return Ok([]);
      }
    }
  }

  /** Once an initial balance does not fit, the whole list does not. */
  lemma {:induction false} AbortedPrefix(admin: Address, entries: seq<L.InitialBalance>, n: nat)
    requires n <= |entries|
    ensures C.InitialBooks(admin, entries[..n]).Abort? ==>
              C.InitialBooks(admin, entries) == C.InitialBooks(admin, entries[..n])
  {
    if n == |entries| {
      assert entries[..n] == entries;
    } else {
      AbortedPrefix(admin, entries[..|entries| - 1], n);
      assert entries[..|entries| - 1][..n] == entries[..n];
    }
  }

  lemma EmptyBooks(admin: Address)
    ensures C.InitialBooks(admin, []) == Ok(C.Books(L.Ledger(map[], 0, map[]), H.Log(0, map[], map[])))
  {
  }

  lemma OneMore(admin: Address, entries: seq<L.InitialBalance>, i: nat)
    requires i < |entries| && C.InitialBooks(admin, entries[..i]).Ok?
    ensures var before := C.InitialBooks(admin, entries[..i]).value;
      C.InitialBooks(admin, entries[..i + 1])
      == match L.AddInitial(before.ledger, entries[i])
         case Abort(error) => Abort(error)
         case Ok(ledger) =>
           match H.StoreMint(before.log, admin, entries[i].address, entries[i].amount)
           case Abort(error) => Abort(error)
           case Ok(log) => Ok(C.Books(ledger, log))
  {
    assert entries[..i + 1][..i] == entries[..i];
  }

  /** The init entry point: sets, counts and records every initial balance. */
  method Instantiate(admin: Address, ownAddr: Address, master: Address, entries: seq<L.InitialBalance>)
    returns (r: Result<Contract>)
    ensures match C.Init(admin, ownAddr, master, entries)
            case Ok(state) =>
              r.Ok? && fresh(r.value) && fresh(r.value.store) && fresh(r.value.history) && r.value.Model() == state
            case Abort(error) => r == Abort(error)
  {
    hide C.InitialBooks, H.StoreMint;
    EmptyBooks(admin);
    var store := new Store();
    var history := new Records();
    var totalSupply: nat := 0;
    for i := 0 to |entries|
      invariant C.InitialBooks(admin, entries[..i])
                == Ok(C.Books(store.Model().(totalSupply := totalSupply), history.Model()))
      invariant store.totalSupply == 0
    {
      AbortedPrefix(admin, entries, i + 1);
      OneMore(admin, entries, i);
      store.SetAccountBalance(entries[i].address, entries[i].amount);
      if totalSupply + entries[i].amount >= U128_LIMIT {
        return Abort(SupplyOverflow);
      }
      totalSupply := totalSupply + entries[i].amount;
      var _ :- history.StoreMint(admin, entries[i].address, entries[i].amount);
    }
    assert entries[..|entries|] == entries;
    store.totalSupply := totalSupply;
    var token := new Contract(admin, ownAddr, master, store, history);
    return Ok(token);
  }
}
