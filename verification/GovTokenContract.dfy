/** The gov-token contract in its own form. */
module GovTokenContract {
  import opened Chain
  import opened HistoryStore
  import opened Snip20Store
  import L = Snip20
  import G = GovToken

  class Contract {
    const store: Store
    const history: Records
    var admin: Address
    var minters: seq<Address>

    ghost function Model(): G.State
      reads this, store, history
    {
      G.State(admin, minters, store.Model(), history.Model())
    }

    ghost predicate Follows(expected: Result<G.State>, r: Result<()>)
      reads this, store, history
    {
      match expected
      case Ok(state) => r == Ok(()) && Model() == state
      case Abort(error) => r == Abort(error)
    }

    constructor (admin: Address, store: Store, history: Records)
      ensures this.store == store && this.history == history && this.admin == admin && minters == [admin]
    {
      this.store := store;
      this.history := history;
      this.admin := admin;
      this.minters := [admin];
    }

    method Transfer(time: nat, sender: Address, recipient: Address, amount: nat) returns (r: Result<()>)
      modifies store, history
      ensures Follows(G.Handle(old(Model()), G.Call(time, sender, G.Transfer(recipient, amount))), r)
    {
      var _ :- store.PerformTransfer(sender, recipient, amount);
      r := history.RecordTransfer(sender, sender, recipient, amount);
    }

    method TransferFrom(time: nat, sender: Address, owner: Address, recipient: Address, amount: nat)
      returns (r: Result<()>)
      modifies store, history
      ensures Follows(G.Handle(old(Model()), G.Call(time, sender, G.TransferFrom(owner, recipient, amount))), r)
    {
      var _ :- store.SpendAllowance(time, owner, sender, amount);
      var _ :- store.PerformTransfer(owner, recipient, amount);
      r := history.RecordTransfer(owner, sender, recipient, amount);
    }

    method IncreaseAllowance(time: nat, sender: Address, spender: Address, amount: nat, expiration: Option<nat>)
      returns (r: Result<()>)
      modifies store
      ensures Follows(G.Handle(old(Model()), G.Call(time, sender, G.IncreaseAllowance(spender, amount, expiration))), r)
    {
      store.IncreaseAllowance(sender, spender, amount, expiration);
      return Ok(());
    }

    method DecreaseAllowance(time: nat, sender: Address, spender: Address, amount: nat, expiration: Option<nat>)
      returns (r: Result<()>)
      modifies store
      ensures Follows(G.Handle(old(Model()), G.Call(time, sender, G.DecreaseAllowance(spender, amount, expiration))), r)
    {
      store.DecreaseAllowance(sender, spender, amount, expiration);
      return Ok(());
    }

    method Mint(time: nat, sender: Address, recipient: Address, amount: nat) returns (r: Result<()>)
      modifies store
      ensures Follows(G.Handle(old(Model()), G.Call(time, sender, G.Mint(recipient, amount))), r)
    {
      if sender !in minters {
        return Abort(Unauthorized);
      }
      r := store.MintTo(recipient, amount);
    }

    method Burn(time: nat, sender: Address, amount: nat) returns (r: Result<()>)
      modifies store
      ensures Follows(G.Handle(old(Model()), G.Call(time, sender, G.Burn(amount))), r)
    {
      var _ :- store.TakeFromAccount(sender, amount);
      r := store.TakeFromSupply(amount);
    }

    method BurnFrom(time: nat, sender: Address, owner: Address, amount: nat) returns (r: Result<()>)
      modifies store
      ensures Follows(G.Handle(old(Model()), G.Call(time, sender, G.BurnFrom(owner, amount))), r)
    {
      var _ :- store.SpendAllowance(time, owner, sender, amount);
      var _ :- store.TakeFromAccount(owner, amount);
      r := store.TakeFromSupply(amount);
    }

    method SetMinters(time: nat, sender: Address, newMinters: seq<Address>) returns (r: Result<()>)
      modifies this`minters
      ensures Follows(G.Handle(old(Model()), G.Call(time, sender, G.SetMinters(newMinters))), r)
    {
      if sender != admin {
        return Abort(Unauthorized);
      }
      minters := newMinters;
      return Ok(());
    }
  }

  /** Once an initial balance does not fit, the whole list does not. */
  lemma {:induction false} AbortedPrefix(entries: seq<L.InitialBalance>, n: nat)
    requires n <= |entries|
    ensures L.Initial(entries[..n]).Abort? ==> L.Initial(entries) == L.Initial(entries[..n])
  {
    if n == |entries| {
      assert entries[..n] == entries;
    } else {
      AbortedPrefix(entries[..|entries| - 1], n);
      assert entries[..|entries| - 1][..n] == entries[..n];
    }
  }

  /** The init entry point: sets every initial balance and counts them all, and then checks the
      name, the symbol and the decimals. */
  method Instantiate(admin: Address, info: G.TokenInfo, entries: seq<L.InitialBalance>) returns (r: Result<Contract>)
    ensures match G.Init(admin, info, entries)
            case Ok(state) =>
              r.Ok? && fresh(r.value) && fresh(r.value.store) && fresh(r.value.history) && r.value.Model() == state
            case Abort(error) => r == Abort(error)
  {
    var store := new Store();
    var totalSupply: nat := 0;
    for i := 0 to |entries|
      invariant L.Initial(entries[..i]) == Ok(store.Model().(totalSupply := totalSupply))
      invariant store.totalSupply == 0
    {
      AbortedPrefix(entries, i + 1);
      assert entries[..i + 1][..i] == entries[..i];
      store.SetAccountBalance(entries[i].address, entries[i].amount);
      if totalSupply + entries[i].amount >= U128_LIMIT {
        return Abort(SupplyOverflow);
      }
      totalSupply := totalSupply + entries[i].amount;
    }
    assert entries[..|entries|] == entries;
    if !G.IsValidName(info.name) {
      return Abort(Malformed);
    }
    if !G.IsValidSymbol(info.symbol) {
      return Abort(Malformed);
    }
    if info.decimals > 18 {
      return Abort(Malformed);
    }
    store.totalSupply := totalSupply;
    var history := new Records();
    var token := new Contract(admin, store, history);
    return Ok(token);
  }
}
