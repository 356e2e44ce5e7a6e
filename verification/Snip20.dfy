/** The books both tokens keep, as values: balances, allowances and the total supply. */
module Snip20 {
  import opened Chain

  datatype Allowance = Allowance(amount: nat, expiration: Option<nat>)

  datatype Ledger = Ledger(
    balances: map<Address, nat>,
    totalSupply: nat,
    allowances: map<(Address, Address), Allowance>)

  datatype InitialBalance = InitialBalance(address: Address, amount: nat)

  function BalanceOf(l: Ledger, u: Address): nat {
    if u in l.balances then l.balances[u] else 0
  }

  function AllowanceOf(l: Ledger, owner: Address, spender: Address): Allowance {
    if (owner, spender) in l.allowances then l.allowances[(owner, spender)] else Allowance(0, None)
  }

  function SetBalance(l: Ledger, u: Address, amount: nat): Ledger {
    l.(balances := l.balances[u := amount])
  }

  function SetAllowance(l: Ledger, owner: Address, spender: Address, allowance: Allowance): Ledger {
    l.(allowances := l.allowances[(owner, spender) := allowance])
  }

  /** An entry is written over what the account held, and always counted. */
  function AddInitial(l: Ledger, entry: InitialBalance): Result<Ledger> {
    if l.totalSupply + entry.amount >= U128_LIMIT then Abort(SupplyOverflow)
    else Ok(SetBalance(l, entry.address, entry.amount).(totalSupply := l.totalSupply + entry.amount))
  }

  function Initial(entries: seq<InitialBalance>): Result<Ledger> {
    if entries == [] then Ok(Ledger(map[], 0, map[]))
    else
      var before :- Initial(entries[..|entries| - 1]);
      AddInitial(before, entries[|entries| - 1])
  }

  function Transfer(l: Ledger, from: Address, to: Address, amount: nat): Result<Ledger> {
    if amount > BalanceOf(l, from) then Abort(InsufficientFunds)
    else
      var debited := SetBalance(l, from, BalanceOf(l, from) - amount);
      if BalanceOf(debited, to) + amount >= U128_LIMIT then Abort(TooRich)
      else Ok(SetBalance(debited, to, BalanceOf(debited, to) + amount))
  }

  /** An allowance that expired before now is worth nothing. */
  function SpendAllowance(l: Ledger, time: nat, owner: Address, spender: Address, amount: nat): Result<Ledger> {
    var allowance := AllowanceOf(l, owner, spender);
    if allowance.expiration.Some? && allowance.expiration.value < time then Abort(InsufficientFunds)
    else if amount > allowance.amount then Abort(InsufficientFunds)
    else Ok(SetAllowance(l, owner, spender, allowance.(amount := allowance.amount - amount)))
  }

  function TransferFrom(l: Ledger, time: nat, spender: Address, owner: Address, to: Address, amount: nat): Result<Ledger> {
    var spent :- SpendAllowance(l, time, owner, spender, amount);
    Transfer(spent, owner, to, amount)
  }

  function Renewed(allowance: Allowance, expiration: Option<nat>): Option<nat> {
    if expiration.Some? then expiration else allowance.expiration
  }

  function IncreaseAllowance(l: Ledger, owner: Address, spender: Address, amount: nat, expiration: Option<nat>): Ledger {
    var a := AllowanceOf(l, owner, spender);
    var sum := if a.amount + amount < U128_LIMIT then a.amount + amount else U128_LIMIT - 1;
    SetAllowance(l, owner, spender, Allowance(sum, Renewed(a, expiration)))
  }

  function DecreaseAllowance(l: Ledger, owner: Address, spender: Address, amount: nat, expiration: Option<nat>): Ledger {
    var a := AllowanceOf(l, owner, spender);
    var rest := if amount <= a.amount then a.amount - amount else 0;
    SetAllowance(l, owner, spender, Allowance(rest, Renewed(a, expiration)))
  }

  function Mint(l: Ledger, to: Address, amount: nat): Result<Ledger> {
    if l.totalSupply + amount >= U128_LIMIT then Abort(SupplyOverflow)
    else if BalanceOf(l, to) + amount >= U128_LIMIT then Abort(AccountOverflow)
    else Ok(SetBalance(l, to, BalanceOf(l, to) + amount).(totalSupply := l.totalSupply + amount))
  }

  function Burn(l: Ledger, owner: Address, amount: nat): Result<Ledger> {
    if amount > BalanceOf(l, owner) then Abort(InsufficientFunds)
    else if amount > l.totalSupply then Abort(BurnAboveSupply)
    else Ok(SetBalance(l, owner, BalanceOf(l, owner) - amount).(totalSupply := l.totalSupply - amount))
  }
}
