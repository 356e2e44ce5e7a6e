/** The part of storage both tokens lay out alike, and the handlers' shared steps on it. */
module Snip20Store {
  import opened Chain
  import L = Snip20

  class Store {
    var balances: map<Address, nat>
    var totalSupply: nat
    var allowances: map<(Address, Address), L.Allowance>

    ghost function Model(): L.Ledger
      reads this
    {
      L.Ledger(balances, totalSupply, allowances)
    }

    ghost predicate Follows(expected: Result<L.Ledger>, r: Result<()>)
      reads this
    {
      match expected
      case Ok(ledger) => r == Ok(()) && Model() == ledger
      case Abort(error) => r == Abort(error)
    }

    constructor ()
      ensures Model() == L.Ledger(map[], 0, map[])
    {
      balances := map[];
      totalSupply := 0;
      allowances := map[];
    }

    method Balance(account: Address) returns (amount: nat)
      ensures amount == L.BalanceOf(Model(), account)
    {
      if account in balances {
        return balances[account];
      }
      return 0;
    }

    method SetAccountBalance(account: Address, amount: nat)
      modifies this`balances
      ensures Model() == L.SetBalance(old(Model()), account, amount)
    {
      balances := balances[account := amount];
    }

    method PerformTransfer(from: Address, to: Address, amount: nat) returns (r: Result<()>)
      modifies this`balances
      ensures Follows(L.Transfer(old(Model()), from, to, amount), r)
    {
      var fromBalance := Balance(from);
      if amount > fromBalance {
        return Abort(InsufficientFunds);
      }
      fromBalance := fromBalance - amount;
      SetAccountBalance(from, fromBalance);

      // Read only now, since the two accounts may be one
      var toBalance := Balance(to);
      if toBalance + amount >= U128_LIMIT {
        return Abort(TooRich);
      }
      toBalance := toBalance + amount;
      SetAccountBalance(to, toBalance);
      return Ok(());
    }

    method ReadAllowance(owner: Address, spender: Address) returns (allowance: L.Allowance)
      ensures allowance == L.AllowanceOf(Model(), owner, spender)
    {
      if (owner, spender) in allowances {
        return allowances[(owner, spender)];
      }
      return L.Allowance(0, None);
    }

    method WriteAllowance(owner: Address, spender: Address, allowance: L.Allowance)
      modifies this`allowances
      ensures Model() == L.SetAllowance(old(Model()), owner, spender, allowance)
    {
      allowances := allowances[(owner, spender) := allowance];
    }

    method SpendAllowance(time: nat, owner: Address, spender: Address, amount: nat) returns (r: Result<()>)
      modifies this`allowances
      ensures Follows(L.SpendAllowance(old(Model()), time, owner, spender, amount), r)
    {
      var allowance := ReadAllowance(owner, spender);
      if allowance.expiration.Some? && allowance.expiration.value < time {
        allowance := allowance.(amount := 0);
        WriteAllowance(owner, spender, allowance); // lost again, since the transaction aborts
        return Abort(InsufficientFunds);
      }
      if amount > allowance.amount {
        return Abort(InsufficientFunds);
      }
      allowance := allowance.(amount := allowance.amount - amount);
      WriteAllowance(owner, spender, allowance);
      return Ok(());
    }

    method IncreaseAllowance(owner: Address, spender: Address, amount: nat, expiration: Option<nat>)
      modifies this`allowances
      ensures Model() == L.IncreaseAllowance(old(Model()), owner, spender, amount, expiration)
    {
      var allowance := ReadAllowance(owner, spender);
      if allowance.amount + amount < U128_LIMIT {
        allowance := allowance.(amount := allowance.amount + amount);
      } else {
        allowance := allowance.(amount := U128_LIMIT - 1);
      }
      if expiration.Some? {
        allowance := allowance.(expiration := expiration);
      }
      WriteAllowance(owner, spender, allowance);
    }

    method DecreaseAllowance(owner: Address, spender: Address, amount: nat, expiration: Option<nat>)
      modifies this`allowances
      ensures Model() == L.DecreaseAllowance(old(Model()), owner, spender, amount, expiration)
    {
      var allowance := ReadAllowance(owner, spender);
      if amount <= allowance.amount {
        allowance := allowance.(amount := allowance.amount - amount);
      } else {
        allowance := allowance.(amount := 0);
      }
      if expiration.Some? {
        allowance := allowance.(expiration := expiration);
      }
      WriteAllowance(owner, spender, allowance);
    }

    method MintTo(recipient: Address, amount: nat) returns (r: Result<()>)
      modifies this`balances, this`totalSupply
      ensures Follows(L.Mint(old(Model()), recipient, amount), r)
    {
      if totalSupply + amount >= U128_LIMIT {
        return Abort(SupplyOverflow);
      }
      totalSupply := totalSupply + amount;
      var accountBalance := Balance(recipient);
      if accountBalance + amount >= U128_LIMIT {
        return Abort(AccountOverflow);
      }
      accountBalance := accountBalance + amount;
      SetAccountBalance(recipient, accountBalance);
      return Ok(());
    }

    /** The first half of a burn. */
    method TakeFromAccount(owner: Address, amount: nat) returns (r: Result<()>)
      modifies this`balances
      ensures var before := old(Model());
        if amount > L.BalanceOf(before, owner) then r == Abort(InsufficientFunds)
        else r == Ok(()) && Model() == L.SetBalance(before, owner, L.BalanceOf(before, owner) - amount)
    {
      var accountBalance := Balance(owner);
      if amount > accountBalance {
        return Abort(InsufficientFunds);
      }
      accountBalance := accountBalance - amount;
      SetAccountBalance(owner, accountBalance);
      return Ok(());
    }

    /** The second half of a burn. */
    method TakeFromSupply(amount: nat) returns (r: Result<()>)
      modifies this`totalSupply
      ensures if amount > old(totalSupply) then r == Abort(BurnAboveSupply)
              else r == Ok(()) && totalSupply == old(totalSupply) - amount
    {
      if amount > totalSupply {
        return Abort(BurnAboveSupply);
      }
      totalSupply := totalSupply - amount;
      return Ok(());
    }
  }
}
