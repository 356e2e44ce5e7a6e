/** The balances of a token add up to its total supply, which is what makes three of its errors
    impossible. */
module TokenSupply {
  import opened Chain
  import opened Snip20
  import opened Sums
  import G = GovToken
  import H = History

  ghost function BalanceAt(l: Ledger): Address -> int {
    u => BalanceOf(l, u)
  }

  /** All tokens that accounts hold. */
  ghost function Circulating(l: Ledger): int {
    Sum(l.balances.Keys, BalanceAt(l))
  }

  ghost predicate Backed(l: Ledger) {
    Circulating(l) <= l.totalSupply < U128_LIMIT
  }

  // --- One operation ---

  lemma HeldWithin(l: Ledger, u: Address)
    ensures 0 <= BalanceOf(l, u) <= Circulating(l)
  {
    SumNonNegative(l.balances.Keys, BalanceAt(l));
    if u in l.balances {
      assert BalanceAt(l)(u) <= Circulating(l);
    }
  }

  lemma SetBalanceMoves(l: Ledger, u: Address, amount: nat)
    ensures Circulating(SetBalance(l, u, amount)) == Circulating(l) - BalanceOf(l, u) + amount
  {
    var t := SetBalance(l, u, amount);
    assert t.balances.Keys == l.balances.Keys + {u};
    SumUpdate(l.balances.Keys, BalanceAt(l), BalanceAt(t), u);
  }

  lemma SameBalances(l: Ledger, t: Ledger)
    requires t.balances == l.balances
    ensures Circulating(t) == Circulating(l)
  {
    SumAgree(l.balances.Keys, BalanceAt(l), BalanceAt(t));
  }

  /** Each account's change, with both sides of a transfer to oneself. */
  ghost predicate Moved(l: Ledger, t: Ledger, from: Address, to: Address, amount: nat) {
    forall u :: BalanceOf(t, u) == BalanceOf(l, u) - (if u == from then amount else 0) + (if u == to then amount else 0)
  }

  lemma TransferShape(l: Ledger, from: Address, to: Address, amount: nat)
    requires Transfer(l, from, to, amount).Ok?
    ensures Moved(l, Transfer(l, from, to, amount).value, from, to, amount)
  {
  }

  /** A transfer commits exactly when the sender can pay: nobody can become too rich. */
  lemma TransferMoves(l: Ledger, from: Address, to: Address, amount: nat)
    requires Backed(l)
    ensures var r := Transfer(l, from, to, amount);
      if amount > BalanceOf(l, from) then r == Abort(InsufficientFunds)
      else
        && r.Ok? && Moved(l, r.value, from, to, amount)
        && r.value == l.(balances := r.value.balances)
        && Circulating(r.value) == Circulating(l)
  {
    hide Circulating, Moved;
    if amount <= BalanceOf(l, from) {
      var debited := SetBalance(l, from, BalanceOf(l, from) - amount);
      SetBalanceMoves(l, from, BalanceOf(l, from) - amount);
      HeldWithin(debited, to);
      SetBalanceMoves(debited, to, BalanceOf(debited, to) + amount);
      TransferShape(l, from, to, amount);
    }
  }

  /** A mint fails only for the total supply: an account's funds are part of it. */
  lemma MintAdds(l: Ledger, to: Address, amount: nat)
    requires Backed(l)
    ensures var r := Mint(l, to, amount);
      if l.totalSupply + amount >= U128_LIMIT then r == Abort(SupplyOverflow)
      else
        && r == Ok(SetBalance(l, to, BalanceOf(l, to) + amount).(totalSupply := l.totalSupply + amount))
        && Circulating(r.value) == Circulating(l) + amount
  {
    HeldWithin(l, to);
    if l.totalSupply + amount < U128_LIMIT {
      var t := SetBalance(l, to, BalanceOf(l, to) + amount);
      SetBalanceMoves(l, to, BalanceOf(l, to) + amount);
      SameBalances(t, t.(totalSupply := l.totalSupply + amount));
    }
  }

  /** A burn fails only for the account: what it holds is there to be burned. */
  lemma BurnRemoves(l: Ledger, owner: Address, amount: nat)
    requires Backed(l)
    ensures var r := Burn(l, owner, amount);
      if amount > BalanceOf(l, owner) then r == Abort(InsufficientFunds)
      else
        && amount <= l.totalSupply
        && r == Ok(SetBalance(l, owner, BalanceOf(l, owner) - amount).(totalSupply := l.totalSupply - amount))
        && Circulating(r.value) == Circulating(l) - amount
  {
    HeldWithin(l, owner);
    if amount <= BalanceOf(l, owner) {
      var t := SetBalance(l, owner, BalanceOf(l, owner) - amount);
      SetBalanceMoves(l, owner, BalanceOf(l, owner) - amount);
      SameBalances(t, t.(totalSupply := l.totalSupply - amount));
    }
  }

  // --- Where it starts ---

  /** What the initial entries for `u` overwrote. */
  function LostBy(entries: seq<InitialBalance>, u: Address): nat {
    if entries == [] then 0
    else
      var before := entries[..|entries| - 1];
      LostBy(before, u)
      + if entries[|entries| - 1].address == u && Initial(before).Ok? then BalanceOf(Initial(before).value, u) else 0
  }

  /** What the initial entries overwrote in all. */
  function Lost(entries: seq<InitialBalance>): nat {
    if entries == [] then 0
    else
      var before := entries[..|entries| - 1];
      Lost(before) + if Initial(before).Ok? then BalanceOf(Initial(before).value, entries[|entries| - 1].address) else 0
  }

  lemma {:induction false} InitialSupply(entries: seq<InitialBalance>)
    requires Initial(entries).Ok?
    ensures Circulating(Initial(entries).value) + Lost(entries) == Initial(entries).value.totalSupply < U128_LIMIT
  {
    if entries != [] {
      var before := entries[..|entries| - 1];
      var entry := entries[|entries| - 1];
      InitialSupply(before);
      var l := Initial(before).value;
      SetBalanceMoves(l, entry.address, entry.amount);
      SameBalances(SetBalance(l, entry.address, entry.amount), Initial(entries).value);
    }
  }

  /** An entry that a later one for the same account overwrites is worth nothing. */
  predicate OverwritesNothing(entries: seq<InitialBalance>) {
    forall i, j | 0 <= i < j < |entries| && entries[i].address == entries[j].address :: entries[i].amount == 0
  }

  predicate Distinct(entries: seq<InitialBalance>) {
    forall i, j | 0 <= i < j < |entries| :: entries[i].address != entries[j].address
  }

  lemma {:induction false} InitialBalanceOf(entries: seq<InitialBalance>, u: Address) returns (i: int)
    requires Initial(entries).Ok?
    ensures -1 <= i < |entries|
    ensures i == -1 ==> BalanceOf(Initial(entries).value, u) == 0
    ensures i >= 0 ==> entries[i].address == u && entries[i].amount == BalanceOf(Initial(entries).value, u)
    ensures forall k | i < k < |entries| :: entries[k].address != u
  {
    i := -1;
    if entries != [] {
      i := InitialBalanceOf(entries[..|entries| - 1], u);
      if entries[|entries| - 1].address == u {
        i := |entries| - 1;
      }
    }
  }

  /** The initial balances are the supply exactly if no entry overwrites a balance. */
  lemma {:induction false} NothingLostIff(entries: seq<InitialBalance>)
    requires Initial(entries).Ok?
    ensures Lost(entries) == 0 <==> OverwritesNothing(entries)
    ensures Distinct(entries) ==> Lost(entries) == 0
  {
    if entries != [] {
      var n := |entries| - 1;
      var before := entries[..n];
      NothingLostIff(before);
      var i := InitialBalanceOf(before, entries[n].address);
      if i >= 0 {
        assert entries[i] == before[i];
      }
      assert OverwritesNothing(entries) ==> OverwritesNothing(before);
      if OverwritesNothing(before) && (i >= 0 ==> entries[i].amount == 0) {
        forall j, k | 0 <= j < k < |entries| && entries[j].address == entries[k].address
          ensures entries[j].amount == 0
        {
          if k == n {
            assert before[j].address == entries[n].address && j <= i;
            assert j < i ==> before[j].address == before[i].address;
          } else {
            assert before[j].address == before[k].address;
          }
        }
      }
    }
  }

  // --- gov-token, over whole runs ---

  lemma GovStep(s: G.State, call: G.Call)
    requires Backed(s.ledger)
    ensures var r := G.Handle(s, call);
      && r != Abort(TooRich) && r != Abort(AccountOverflow) && r != Abort(BurnAboveSupply)
      && (r.Ok? ==>
            && Backed(r.value.ledger)
            && r.value.ledger.totalSupply - Circulating(r.value.ledger) == s.ledger.totalSupply - Circulating(s.ledger)
            && r.value.ledger.totalSupply == s.ledger.totalSupply + Minted(call) - Burned(call))
  {
    hide Snip20.Transfer, Snip20.Mint, Snip20.Burn, Circulating;
    match call.request
    case Transfer(to, amount) => TransferMoves(s.ledger, call.sender, to, amount);
    case TransferFrom(owner, to, amount) =>
      var spent := SpendAllowance(s.ledger, call.time, owner, call.sender, amount);
      if spent.Ok? {
        SameBalances(s.ledger, spent.value);
        TransferMoves(spent.value, owner, to, amount);
      }
    case IncreaseAllowance(spender, amount, expiration) =>
      SameBalances(s.ledger, Snip20.IncreaseAllowance(s.ledger, call.sender, spender, amount, expiration));
    case DecreaseAllowance(spender, amount, expiration) =>
      SameBalances(s.ledger, Snip20.DecreaseAllowance(s.ledger, call.sender, spender, amount, expiration));
    case Mint(to, amount) => MintAdds(s.ledger, to, amount);
    case Burn(amount) => BurnRemoves(s.ledger, call.sender, amount);
    case BurnFrom(owner, amount) =>
      var spent := SpendAllowance(s.ledger, call.time, owner, call.sender, amount);
      if spent.Ok? {
        SameBalances(s.ledger, spent.value);
        BurnRemoves(spent.value, owner, amount);
      }
    case SetMinters(_) =>
  }

  function Minted(call: G.Call): nat {
    if call.request.Mint? then call.request.minted else 0
  }

  function Burned(call: G.Call): nat {
    match call.request
    case Burn(amount) => amount
    case BurnFrom(_, amount) => amount
    case _ => 0
  }

  function NetMinted(calls: seq<G.Call>): int {
    if calls == [] then 0
    else NetMinted(calls[..|calls| - 1]) + Minted(calls[|calls| - 1]) - Burned(calls[|calls| - 1])
  }

  /** In every reachable state the balances fall short of the supply by exactly what the
      initial entries overwrote, and the supply is what was issued and not burned. */
  lemma {:induction false} BalancesAreSupply(
      admin: Address, info: G.TokenInfo, entries: seq<InitialBalance>, calls: seq<G.Call>)
    requires G.Init(admin, info, entries).Ok? && G.Run(G.Init(admin, info, entries).value, calls).Ok?
    ensures var start := G.Init(admin, info, entries).value.ledger;
      var l := G.Run(G.Init(admin, info, entries).value, calls).value.ledger;
      && Circulating(l) + Lost(entries) == l.totalSupply < U128_LIMIT
      && l.totalSupply == start.totalSupply + NetMinted(calls)
      && (Circulating(l) == l.totalSupply <==> OverwritesNothing(entries))
  {
    NothingLostIff(entries);
    if calls == [] {
      InitialSupply(entries);
    } else {
      var before := calls[..|calls| - 1];
      BalancesAreSupply(admin, info, entries, before);
      GovStep(G.Run(G.Init(admin, info, entries).value, before).value, calls[|calls| - 1]);
    }
  }

  /** Three errors that the handlers check for never happen, whatever the initial balances. */
  lemma ErrorsNeverSeen(
      admin: Address, info: G.TokenInfo, entries: seq<InitialBalance>, calls: seq<G.Call>, call: G.Call)
    requires G.Init(admin, info, entries).Ok? && G.Run(G.Init(admin, info, entries).value, calls).Ok?
    ensures G.Handle(G.Run(G.Init(admin, info, entries).value, calls).value, call)
            !in {Abort(TooRich), Abort(AccountOverflow), Abort(BurnAboveSupply)}
  {
    BalancesAreSupply(admin, info, entries, calls);
    GovStep(G.Run(G.Init(admin, info, entries).value, calls).value, call);
  }

  // --- Allowances, over whole runs ---

  function GrantedBy(call: G.Call, owner: Address, spender: Address): nat {
    if call.sender == owner && call.request.IncreaseAllowance? && call.request.spender == spender
    then call.request.more else 0
  }

  function Granted(calls: seq<G.Call>, owner: Address, spender: Address): nat {
    if calls == [] then 0
    else Granted(calls[..|calls| - 1], owner, spender) + GrantedBy(calls[|calls| - 1], owner, spender)
  }

  function SpentBy(call: G.Call, owner: Address, spender: Address): nat {
    match call.request
    case TransferFrom(o, _, amount) => if o == owner && call.sender == spender then amount else 0
    case BurnFrom(o, amount) => if o == owner && call.sender == spender then amount else 0
    case _ => 0
  }

  function Spent(calls: seq<G.Call>, owner: Address, spender: Address): nat {
    if calls == [] then 0
    else Spent(calls[..|calls| - 1], owner, spender) + SpentBy(calls[|calls| - 1], owner, spender)
  }

  lemma AllowanceStep(s: G.State, call: G.Call, owner: Address, spender: Address)
    requires G.Handle(s, call).Ok?
    ensures SpentBy(call, owner, spender) + AllowanceOf(G.Handle(s, call).value.ledger, owner, spender).amount
            <= AllowanceOf(s.ledger, owner, spender).amount + GrantedBy(call, owner, spender)
  {
    match call.request
    case Transfer(to, amount) => AllowancesStay(s.ledger, call.sender, to, amount);
    case TransferFrom(o, to, amount) =>
      AllowancesStay(SpendAllowance(s.ledger, call.time, o, call.sender, amount).value, o, to, amount);
      hide Snip20.Transfer, H.RecordTransfer;
    case _ =>
  }

  lemma AllowancesStay(l: Ledger, from: Address, to: Address, amount: nat)
    requires Transfer(l, from, to, amount).Ok?
    ensures Transfer(l, from, to, amount).value.allowances == l.allowances
  {
  }

  /** A spender never moves or burns more of an owner's tokens than the owner granted. */
  lemma {:induction false} SpendingWithinGrants(
      admin: Address, info: G.TokenInfo, entries: seq<InitialBalance>, calls: seq<G.Call>, owner: Address, spender: Address)
    requires G.Init(admin, info, entries).Ok? && G.Run(G.Init(admin, info, entries).value, calls).Ok?
    ensures Spent(calls, owner, spender)
            + AllowanceOf(G.Run(G.Init(admin, info, entries).value, calls).value.ledger, owner, spender).amount
            <= Granted(calls, owner, spender)
  {
    if calls == [] {
      NoAllowancesYet(entries);
    } else {
      var before := calls[..|calls| - 1];
      var call := calls[|calls| - 1];
      SpendingWithinGrants(admin, info, entries, before, owner, spender);
      AllowanceStep(G.Run(G.Init(admin, info, entries).value, before).value, call, owner, spender);
    }
  }

  lemma {:induction false} NoAllowancesYet(entries: seq<InitialBalance>)
    requires Initial(entries).Ok?
    ensures Initial(entries).value.allowances == map[]
  {
    if entries != [] {
      NoAllowancesYet(entries[..|entries| - 1]);
    }
  }
}
