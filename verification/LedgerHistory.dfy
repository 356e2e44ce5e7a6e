/** The books of a token read off a journal of what happened: balances, supply, and the allowance
    of each owner to each spender, with saturation and expiration. */
module LedgerHistory {
  import opened Chain
  import opened Snip20
  import T = TokenSupply

  datatype Entry =
    | Allow(owner: Address, spender: Address, more: nat, expiration: Option<nat>)
    | Disallow(owner: Address, spender: Address, less: nat, expiration: Option<nat>)
    | Spend(owner: Address, spender: Address, amount: nat)
    | Move(from: Address, to: Address, amount: nat)
    | Issue(to: Address, amount: nat)
    | Destroy(owner: Address, amount: nat)

  // --- What the journal says ---

  const LARGEST: nat := U128_LIMIT - 1

  /** An increase stops at the largest amount and a decrease at zero; an expiration stands until
      another is given. */
  function AllowanceBy(journal: seq<Entry>, owner: Address, spender: Address): Allowance {
    if journal == [] then Allowance(0, None)
    else
      var before := AllowanceBy(journal[..|journal| - 1], owner, spender);
      match journal[|journal| - 1]
      case Allow(o, s, more, expiration) =>
        if (o, s) != (owner, spender) then before
        else Allowance(if before.amount + more <= LARGEST then before.amount + more else LARGEST,
                       if expiration.Some? then expiration else before.expiration)
      case Disallow(o, s, less, expiration) =>
        if (o, s) != (owner, spender) then before
        else Allowance(if less <= before.amount then before.amount - less else 0,
                       if expiration.Some? then expiration else before.expiration)
      case Spend(o, s, amount) =>
        if (o, s) != (owner, spender) then before
        else before.(amount := if amount <= before.amount then before.amount - amount else 0)
      case _ => before
  }

  /** What an account's last initial entry gives it. */
  function InitialOf(initial: seq<InitialBalance>, u: Address): nat {
    if initial == [] then 0
    else if initial[|initial| - 1].address == u then initial[|initial| - 1].amount
    else InitialOf(initial[..|initial| - 1], u)
  }

  function InitialTotal(initial: seq<InitialBalance>): nat {
    if initial == [] then 0 else InitialTotal(initial[..|initial| - 1]) + initial[|initial| - 1].amount
  }

  function BalanceBy(initial: seq<InitialBalance>, journal: seq<Entry>, u: Address): int {
    if journal == [] then InitialOf(initial, u)
    else
      var before := BalanceBy(initial, journal[..|journal| - 1], u);
      match journal[|journal| - 1]
      case Move(from, to, amount) => before - (if from == u then amount else 0) + (if to == u then amount else 0)
      case Issue(to, amount) => before + (if to == u then amount else 0)
      case Destroy(owner, amount) => before - (if owner == u then amount else 0)
      case _ => before
  }

  function SupplyBy(initial: seq<InitialBalance>, journal: seq<Entry>): int {
    if journal == [] then InitialTotal(initial)
    else
      var before := SupplyBy(initial, journal[..|journal| - 1]);
      match journal[|journal| - 1]
      case Issue(_, amount) => before + amount
      case Destroy(_, amount) => before - amount
      case _ => before
  }

  // --- The ledger agrees with the journal ---

  ghost predicate AllowancesAgree(journal: seq<Entry>, l: Ledger) {
    forall owner, spender :: AllowanceOf(l, owner, spender) == AllowanceBy(journal, owner, spender)
  }

  ghost predicate BalancesAgree(initial: seq<InitialBalance>, journal: seq<Entry>, l: Ledger) {
    l.totalSupply == SupplyBy(initial, journal) && forall u :: BalanceOf(l, u) == BalanceBy(initial, journal, u)
  }

  ghost predicate Agrees(initial: seq<InitialBalance>, journal: seq<Entry>, l: Ledger) {
    AllowancesAgree(journal, l) && BalancesAgree(initial, journal, l)
  }

  lemma {:induction false} InitialAgrees(initial: seq<InitialBalance>)
    requires Initial(initial).Ok?
    ensures Initial(initial).value.allowances == map[]
    ensures Agrees(initial, [], Initial(initial).value)
  {
    if initial != [] {
      InitialAgrees(initial[..|initial| - 1]);
      var before := Initial(initial[..|initial| - 1]).value;
      forall u
        ensures BalanceOf(Initial(initial).value, u) == InitialOf(initial, u)
      {
        assert BalanceOf(before, u) == BalanceBy(initial[..|initial| - 1], [], u);
      }
    }
  }

  /** The entries are counted one by one, each into the supply. */
  lemma {:induction false} InitialFits(initial: seq<InitialBalance>)
    ensures Initial(initial).Ok? <==> InitialTotal(initial) < U128_LIMIT
    ensures Initial(initial).Ok? ==> Initial(initial).value.totalSupply == InitialTotal(initial)
  {
    if initial != [] {
      InitialFits(initial[..|initial| - 1]);
    }
  }

  /** An entry that says nothing about balances. */
  lemma BalancesApart(initial: seq<InitialBalance>, journal: seq<Entry>, l: Ledger, t: Ledger, e: Entry)
    requires BalancesAgree(initial, journal, l) && t == l.(allowances := t.allowances)
    requires e.Allow? || e.Disallow? || e.Spend?
    ensures BalancesAgree(initial, journal + [e], t)
  {
    assert (journal + [e])[..|journal|] == journal;
    forall u
      ensures BalanceOf(t, u) == BalanceBy(initial, journal + [e], u)
    {
      assert BalanceOf(l, u) == BalanceBy(initial, journal, u);
    }
  }

  /** An entry that says nothing about allowances. */
  lemma AllowancesApart(journal: seq<Entry>, l: Ledger, t: Ledger, e: Entry)
    requires AllowancesAgree(journal, l) && t.allowances == l.allowances
    requires e.Move? || e.Issue? || e.Destroy?
    ensures AllowancesAgree(journal + [e], t)
  {
    assert (journal + [e])[..|journal|] == journal;
    forall owner, spender
      ensures AllowanceOf(t, owner, spender) == AllowanceBy(journal + [e], owner, spender)
    {
      assert AllowanceOf(l, owner, spender) == AllowanceBy(journal, owner, spender);
    }
  }

  lemma AllowAgrees(initial: seq<InitialBalance>, journal: seq<Entry>, l: Ledger,
                    owner: Address, spender: Address, more: nat, expiration: Option<nat>)
    requires Agrees(initial, journal, l)
    ensures Agrees(initial, journal + [Allow(owner, spender, more, expiration)],
                   IncreaseAllowance(l, owner, spender, more, expiration))
  {
    var e := Allow(owner, spender, more, expiration);
    hide BalancesAgree, BalanceBy, SupplyBy;
    var t := IncreaseAllowance(l, owner, spender, more, expiration);
    BalancesApart(initial, journal, l, t, e);
    assert (journal + [e])[..|journal|] == journal;
    forall o, s
      ensures AllowanceOf(t, o, s) == AllowanceBy(journal + [e], o, s)
    {
      assert AllowanceOf(l, o, s) == AllowanceBy(journal, o, s);
    }
  }

  lemma DisallowAgrees(initial: seq<InitialBalance>, journal: seq<Entry>, l: Ledger,
                       owner: Address, spender: Address, less: nat, expiration: Option<nat>)
    requires Agrees(initial, journal, l)
    ensures Agrees(initial, journal + [Disallow(owner, spender, less, expiration)],
                   DecreaseAllowance(l, owner, spender, less, expiration))
  {
    var e := Disallow(owner, spender, less, expiration);
    hide BalancesAgree, BalanceBy, SupplyBy;
    var t := DecreaseAllowance(l, owner, spender, less, expiration);
    BalancesApart(initial, journal, l, t, e);
    assert (journal + [e])[..|journal|] == journal;
    forall o, s
      ensures AllowanceOf(t, o, s) == AllowanceBy(journal + [e], o, s)
    {
      assert AllowanceOf(l, o, s) == AllowanceBy(journal, o, s);
    }
  }

  /** An allowance can be spent up to its amount, and up to its expiration. */
  predicate MaySpend(journal: seq<Entry>, owner: Address, spender: Address, time: nat, amount: nat) {
    var allowance := AllowanceBy(journal, owner, spender);
    amount <= allowance.amount && (allowance.expiration.Some? ==> time <= allowance.expiration.value)
  }

  lemma SpendAgrees(initial: seq<InitialBalance>, journal: seq<Entry>, l: Ledger,
                    time: nat, owner: Address, spender: Address, amount: nat)
    requires Agrees(initial, journal, l)
    ensures var r := SpendAllowance(l, time, owner, spender, amount);
      && (r.Ok? <==> MaySpend(journal, owner, spender, time, amount))
      && (r.Ok? ==> r.value == l.(allowances := r.value.allowances)
                    && Agrees(initial, journal + [Spend(owner, spender, amount)], r.value))
  {
    hide BalancesAgree, BalanceBy, SupplyBy;
    assert AllowanceOf(l, owner, spender) == AllowanceBy(journal, owner, spender);
    if MaySpend(journal, owner, spender, time, amount) {
      var e := Spend(owner, spender, amount);
      var t := SpendAllowance(l, time, owner, spender, amount).value;
      BalancesApart(initial, journal, l, t, e);
      assert (journal + [e])[..|journal|] == journal;
      forall o, s
        ensures AllowanceOf(t, o, s) == AllowanceBy(journal + [e], o, s)
      {
        assert AllowanceOf(l, o, s) == AllowanceBy(journal, o, s);
      }
    }
  }

  /** A change of balances as an entry says it. */
  lemma BalancesFollow(initial: seq<InitialBalance>, journal: seq<Entry>, l: Ledger, t: Ledger, e: Entry)
    requires Agrees(initial, journal, l) && t.allowances == l.allowances && (e.Move? || e.Issue? || e.Destroy?)
    requires t.totalSupply == l.totalSupply + (if e.Issue? then e.amount else 0) - (if e.Destroy? then e.amount else 0)
    requires forall u :: BalanceOf(t, u) == BalanceOf(l, u)
                         - (if (e.Move? && e.from == u) || (e.Destroy? && e.owner == u) then e.amount else 0)
                         + (if !e.Destroy? && e.to == u then e.amount else 0)
    ensures Agrees(initial, journal + [e], t)
  {
    AllowancesApart(journal, l, t, e);
    assert (journal + [e])[..|journal|] == journal;
    forall u
      ensures BalanceOf(t, u) == BalanceBy(initial, journal + [e], u)
    {
      assert BalanceOf(l, u) == BalanceBy(initial, journal, u);
    }
  }

  // --- One operation on a ledger whose supply backs its balances ---

  lemma SupplyAgrees(initial: seq<InitialBalance>, journal: seq<Entry>, l: Ledger)
    requires Agrees(initial, journal, l)
    ensures l.totalSupply == SupplyBy(initial, journal)
  {
  }

  lemma MoveAgrees(initial: seq<InitialBalance>, journal: seq<Entry>, l: Ledger,
                   from: Address, to: Address, amount: nat)
    requires Agrees(initial, journal, l) && T.Backed(l)
    ensures var r := Snip20.Transfer(l, from, to, amount);
      && (r.Ok? <==> amount <= BalanceBy(initial, journal, from))
      && (r.Ok? ==> Agrees(initial, journal + [Move(from, to, amount)], r.value))
  {
    T.TransferMoves(l, from, to, amount);
    hide Snip20.Transfer, T.Backed;
    assert Snip20.BalanceOf(l, from) == BalanceBy(initial, journal, from);
    if amount <= Snip20.BalanceOf(l, from) {
      BalancesFollow(initial, journal, l, Snip20.Transfer(l, from, to, amount).value, Move(from, to, amount));
    }
  }

  lemma IssueAgrees(initial: seq<InitialBalance>, journal: seq<Entry>, l: Ledger, to: Address, amount: nat)
    requires Agrees(initial, journal, l) && T.Backed(l)
    ensures var r := Snip20.Mint(l, to, amount);
      && (r.Ok? <==> SupplyBy(initial, journal) + amount < U128_LIMIT)
      && (r.Ok? ==> Agrees(initial, journal + [Issue(to, amount)], r.value))
  {
    T.MintAdds(l, to, amount);
    hide T.Backed;
    if l.totalSupply + amount < U128_LIMIT {
      BalancesFollow(initial, journal, l, Snip20.Mint(l, to, amount).value, Issue(to, amount));
    }
  }

  lemma DestroyAgrees(initial: seq<InitialBalance>, journal: seq<Entry>, l: Ledger,
                      owner: Address, amount: nat)
    requires Agrees(initial, journal, l) && T.Backed(l)
    ensures var r := Snip20.Burn(l, owner, amount);
      && (r.Ok? <==> amount <= BalanceBy(initial, journal, owner))
      && (r.Ok? ==> Agrees(initial, journal + [Destroy(owner, amount)], r.value))
  {
    T.BurnRemoves(l, owner, amount);
    hide T.Backed;
    assert Snip20.BalanceOf(l, owner) == BalanceBy(initial, journal, owner);
    if amount <= Snip20.BalanceOf(l, owner) {
      BalancesFollow(initial, journal, l, Snip20.Burn(l, owner, amount).value, Destroy(owner, amount));
    }
  }

  lemma StillBacked(l: Ledger, t: Ledger)
    requires T.Backed(l) && t == l.(allowances := t.allowances)
    ensures T.Backed(t)
  {
    T.SameBalances(l, t);
  }

  lemma SpendFirst(initial: seq<InitialBalance>, journal: seq<Entry>, owner: Address, spender: Address, amount: nat)
    ensures BalanceBy(initial, journal + [Spend(owner, spender, amount)], owner) == BalanceBy(initial, journal, owner)
  {
    var e := Spend(owner, spender, amount);
    assert (journal + [e])[..|journal|] == journal;
  }

  lemma MoveFromAgrees(initial: seq<InitialBalance>, journal: seq<Entry>, l: Ledger,
                       time: nat, spender: Address, owner: Address, to: Address, amount: nat)
    requires Agrees(initial, journal, l) && T.Backed(l)
    ensures var r := Snip20.TransferFrom(l, time, spender, owner, to, amount);
      && (r.Ok? <==> MaySpend(journal, owner, spender, time, amount) && amount <= BalanceBy(initial, journal, owner))
      && (r.Ok? ==> Agrees(initial, journal + [Spend(owner, spender, amount), Move(owner, to, amount)], r.value))
  {
    hide Agrees, BalanceBy, AllowanceBy, MaySpend, T.Backed, Snip20.Transfer, Snip20.SpendAllowance;
    SpendAgrees(initial, journal, l, time, owner, spender, amount);
    SpendFirst(initial, journal, owner, spender, amount);
    var spent := Snip20.SpendAllowance(l, time, owner, spender, amount);
    if spent.Ok? {
      StillBacked(l, spent.value);
      MoveAgrees(initial, journal + [Spend(owner, spender, amount)], spent.value, owner, to, amount);
      assert journal + [Spend(owner, spender, amount)] + [Move(owner, to, amount)]
             == journal + [Spend(owner, spender, amount), Move(owner, to, amount)];
    }
  }

  lemma DestroyFromAgrees(initial: seq<InitialBalance>, journal: seq<Entry>, l: Ledger,
                          time: nat, spender: Address, owner: Address, amount: nat)
    requires Agrees(initial, journal, l) && T.Backed(l)
    ensures var spent := Snip20.SpendAllowance(l, time, owner, spender, amount);
      var allowed := MaySpend(journal, owner, spender, time, amount);
      && (spent.Ok? <==> allowed)
      && (allowed ==>
            var r := Snip20.Burn(spent.value, owner, amount);
            && (r.Ok? <==> amount <= BalanceBy(initial, journal, owner))
            && (r.Ok? ==> Agrees(initial, journal + [Spend(owner, spender, amount), Destroy(owner, amount)], r.value)))
  {
    hide Agrees, BalanceBy, AllowanceBy, MaySpend, T.Backed, Snip20.Burn, Snip20.SpendAllowance;
    SpendAgrees(initial, journal, l, time, owner, spender, amount);
    SpendFirst(initial, journal, owner, spender, amount);
    var spent := Snip20.SpendAllowance(l, time, owner, spender, amount);
    if spent.Ok? {
      StillBacked(l, spent.value);
      DestroyAgrees(initial, journal + [Spend(owner, spender, amount)], spent.value, owner, amount);
      assert journal + [Spend(owner, spender, amount)] + [Destroy(owner, amount)]
             == journal + [Spend(owner, spender, amount), Destroy(owner, amount)];
    }
  }

  // --- Revocation ---

  function SpentIn(journal: seq<Entry>, owner: Address, spender: Address): nat {
    if journal == [] then 0
    else
      SpentIn(journal[..|journal| - 1], owner, spender)
      + match journal[|journal| - 1]
        case Spend(o, s, amount) => if (o, s) == (owner, spender) then amount else 0
        case _ => 0
  }

  predicate NoIncrease(journal: seq<Entry>, owner: Address, spender: Address) {
    forall e | e in journal :: e.Allow? ==> (e.owner, e.spender) != (owner, spender)
  }

  /** Every spend of a journal was within the allowance it found. */
  predicate Covered(journal: seq<Entry>) {
    forall i | 0 <= i < |journal| && journal[i].Spend? ::
      journal[i].amount <= AllowanceBy(journal[..i], journal[i].owner, journal[i].spender).amount
  }

  lemma NothingCovered()
    ensures Covered([])
  {
  }

  lemma CoveredGrows(journal: seq<Entry>, e: Entry)
    requires Covered(journal)
    requires e.Spend? ==> e.amount <= AllowanceBy(journal, e.owner, e.spender).amount
    ensures Covered(journal + [e])
  {
    var longer := journal + [e];
    forall i | 0 <= i < |longer| && longer[i].Spend?
      ensures longer[i].amount <= AllowanceBy(longer[..i], longer[i].owner, longer[i].spender).amount
    {
      if i < |journal| {
        assert longer[..i] == journal[..i];
      } else {
        assert longer[..i] == journal;
      }
    }
  }

  /** Until it is increased again, an allowance covers all that is still spent of it. */
  lemma {:induction false} SpendsWithinAllowance(journal: seq<Entry>, later: seq<Entry>, owner: Address, spender: Address)
    requires Covered(journal + later) && NoIncrease(later, owner, spender)
    ensures SpentIn(later, owner, spender) + AllowanceBy(journal + later, owner, spender).amount
            <= AllowanceBy(journal, owner, spender).amount
  {
    if later == [] {
      assert journal + later == journal;
    } else {
      var before := later[..|later| - 1];
      var e := later[|later| - 1];
      assert (journal + later)[..|journal + later| - 1] == journal + before;
      assert e in later && forall k | k in before :: k in later;
      forall i | 0 <= i < |journal + before| && (journal + before)[i].Spend?
        ensures (journal + before)[i].amount
                <= AllowanceBy((journal + before)[..i], (journal + before)[i].owner, (journal + before)[i].spender).amount
      {
        assert (journal + later)[i] == (journal + before)[i] && (journal + later)[..i] == (journal + before)[..i];
      }
      SpendsWithinAllowance(journal, before, owner, spender);
      assert e.Spend? ==> e.amount <= AllowanceBy(journal + before, e.owner, e.spender).amount by {
        assert (journal + later)[|journal + before|] == e;
      }
    }
  }

  /** After a decrease by `less`, what is spent before the next increase is at most what the
      decrease left, which is nothing if it took the whole allowance. */
  lemma {:induction false} RevokedIsRevoked(
      journal: seq<Entry>, owner: Address, spender: Address, less: nat, expiration: Option<nat>, later: seq<Entry>)
    requires Covered(journal + [Disallow(owner, spender, less, expiration)] + later) && NoIncrease(later, owner, spender)
    ensures var held := AllowanceBy(journal, owner, spender).amount;
      SpentIn(later, owner, spender) <= if less <= held then held - less else 0
  {
    var lowered := journal + [Disallow(owner, spender, less, expiration)];
    assert lowered[..|journal|] == journal;
    SpendsWithinAllowance(lowered, later, owner, spender);
  }
}
