/** gov-token read off its calls alone: its books, its records, its minters, and when a call is
    taken. */
module GovHistory {
  import opened Chain
  import opened GovToken
  import H = History
  import opened LedgerHistory
  import opened LogHistory
  import Snip20
  import T = TokenSupply

  // --- What the calls alone say ---

  function EntriesOf(call: Call): seq<Entry> {
    match call.request
    case Transfer(to, amount) => [Move(call.sender, to, amount)]
    case TransferFrom(owner, to, amount) => [Spend(owner, call.sender, amount), Move(owner, to, amount)]
    case IncreaseAllowance(spender, amount, expiration) => [Allow(call.sender, spender, amount, expiration)]
    case DecreaseAllowance(spender, amount, expiration) => [Disallow(call.sender, spender, amount, expiration)]
    case Mint(to, amount) => [Issue(to, amount)]
    case Burn(amount) => [Destroy(call.sender, amount)]
    case BurnFrom(owner, amount) => [Spend(owner, call.sender, amount), Destroy(owner, amount)]
    case SetMinters(_) => []
  }

  function Journal(calls: seq<Call>): seq<Entry> {
    if calls == [] then [] else Journal(calls[..|calls| - 1]) + EntriesOf(calls[|calls| - 1])
  }

  function RecordsOf(call: Call): seq<Happened> {
    match call.request
    case Transfer(to, amount) => [Happened(H.Transfer(call.sender, call.sender, to), amount)]
    case TransferFrom(owner, to, amount) => [Happened(H.Transfer(owner, call.sender, to), amount)]
    case _ => []
  }

  function Records(calls: seq<Call>): seq<Happened> {
    if calls == [] then [] else Records(calls[..|calls| - 1]) + RecordsOf(calls[|calls| - 1])
  }

  /** The minters set last, or at init the admin. */
  function MintersBy(admin: Address, calls: seq<Call>): seq<Address> {
    if calls == [] then [admin]
    else
      match calls[|calls| - 1].request
      case SetMinters(minters) => minters
      case _ => MintersBy(admin, calls[..|calls| - 1])
  }

  // --- The state agrees with the calls ---

  ghost predicate StateAgrees(admin: Address, initial: seq<Snip20.InitialBalance>, calls: seq<Call>, t: State) {
    && t.admin == admin && t.minters == MintersBy(admin, calls)
    && Agrees(initial, Journal(calls), t.ledger)
    && LogAgrees(Records(calls), t.log)
  }

  /** Who may make which call, and what must fit. */
  predicate MayCall(admin: Address, initial: seq<Snip20.InitialBalance>, calls: seq<Call>, call: Call) {
    var journal := Journal(calls);
    match call.request
    case Transfer(_, amount) =>
      amount <= BalanceBy(initial, journal, call.sender) && |Records(calls)| + 1 < U64_LIMIT
    case TransferFrom(owner, _, amount) =>
      && MaySpend(journal, owner, call.sender, call.time, amount)
      && amount <= BalanceBy(initial, journal, owner) && |Records(calls)| + 1 < U64_LIMIT
    case IncreaseAllowance(_, _, _) => true
    case DecreaseAllowance(_, _, _) => true
    case Mint(_, amount) => call.sender in MintersBy(admin, calls) && SupplyBy(initial, journal) + amount < U128_LIMIT
    case Burn(amount) => amount <= BalanceBy(initial, journal, call.sender)
    case BurnFrom(owner, amount) =>
      MaySpend(journal, owner, call.sender, call.time, amount) && amount <= BalanceBy(initial, journal, owner)
    case SetMinters(_) => call.sender == admin
  }

  lemma CallAgrees(admin: Address, initial: seq<Snip20.InitialBalance>, calls: seq<Call>, t: State, call: Call)
    requires StateAgrees(admin, initial, calls, t) && T.Backed(t.ledger)
    ensures Handle(t, call).Ok? <==> MayCall(admin, initial, calls, call)
    ensures Handle(t, call).Ok? ==> StateAgrees(admin, initial, calls + [call], Handle(t, call).value)
  {
    hide Agrees, LogAgrees, BalanceBy, MaySpend, T.Backed, Snip20.Transfer, Snip20.TransferFrom, Snip20.Mint, Snip20.Burn;
    hide Snip20.SpendAllowance, Snip20.IncreaseAllowance, Snip20.DecreaseAllowance, H.RecordTransfer;
    assert (calls + [call])[..|calls|] == calls;
    var journal := Journal(calls);
    SupplyAgrees(initial, journal, t.ledger);
    match call.request
    case Transfer(to, amount) =>
      MoveAgrees(initial, journal, t.ledger, call.sender, to, amount);
      RecordAgrees(Records(calls), t.log, call.sender, call.sender, to, amount);
    case TransferFrom(owner, to, amount) =>
      MoveFromAgrees(initial, journal, t.ledger, call.time, call.sender, owner, to, amount);
      RecordAgrees(Records(calls), t.log, owner, call.sender, to, amount);
    case IncreaseAllowance(spender, amount, expiration) =>
      AllowAgrees(initial, journal, t.ledger, call.sender, spender, amount, expiration);
      assert Records(calls) + [] == Records(calls);
    case DecreaseAllowance(spender, amount, expiration) =>
      DisallowAgrees(initial, journal, t.ledger, call.sender, spender, amount, expiration);
      assert Records(calls) + [] == Records(calls);
    case Mint(to, amount) =>
      IssueAgrees(initial, journal, t.ledger, to, amount);
      assert Records(calls) + [] == Records(calls);
    case Burn(amount) =>
      DestroyAgrees(initial, journal, t.ledger, call.sender, amount);
      assert Records(calls) + [] == Records(calls);
    case BurnFrom(owner, amount) =>
      DestroyFromAgrees(initial, journal, t.ledger, call.time, call.sender, owner, amount);
      assert Records(calls) + [] == Records(calls);
    case SetMinters(_) =>
      assert Records(calls) + [] == Records(calls) && journal + [] == journal;
  }

  // --- Whole runs ---

  lemma {:induction false} RunAgrees(admin: Address, info: TokenInfo, initial: seq<Snip20.InitialBalance>, calls: seq<Call>)
    requires Init(admin, info, initial).Ok? && Run(Init(admin, info, initial).value, calls).Ok?
    ensures var t := Run(Init(admin, info, initial).value, calls).value;
      StateAgrees(admin, initial, calls, t) && T.Backed(t.ledger)
  {
    hide StateAgrees, Handle, Init;
    T.BalancesAreSupply(admin, info, initial, calls);
    if calls == [] {
      StartAgrees(admin, info, initial);
    } else {
      var before := calls[..|calls| - 1];
      RunAgrees(admin, info, initial, before);
      assert before + [calls[|calls| - 1]] == calls;
      CallAgrees(admin, initial, before, Run(Init(admin, info, initial).value, before).value, calls[|calls| - 1]);
    }
  }

  lemma StartAgrees(admin: Address, info: TokenInfo, initial: seq<Snip20.InitialBalance>)
    requires Init(admin, info, initial).Ok?
    ensures StateAgrees(admin, initial, [], Init(admin, info, initial).value)
  {
    hide LogAgrees, Agrees;
    InitialAgrees(initial);
    NoRecords();
  }

  /** A token starts exactly if its initial balances add up to a supply and it is properly named. */
  lemma InitCommitsIff(admin: Address, info: TokenInfo, initial: seq<Snip20.InitialBalance>)
    ensures Init(admin, info, initial).Ok?
            <==> && InitialTotal(initial) < U128_LIMIT
                 && 3 <= |info.name| <= 30
                 && 3 <= |info.symbol| <= 6 && (forall c | c in info.symbol :: 'A' <= c <= 'Z')
                 && info.decimals <= 18
  {
    InitialFits(initial);
  }

  /** In every reachable state everything is what the calls say: each balance, the supply, each
      allowance with its expiration, the minters, and each account's list of transfers. */
  lemma {:induction false} TokenFromCalls(
      admin: Address, info: TokenInfo, initial: seq<Snip20.InitialBalance>, calls: seq<Call>)
    requires Init(admin, info, initial).Ok? && Run(Init(admin, info, initial).value, calls).Ok?
    ensures var t := Run(Init(admin, info, initial).value, calls).value;
      && t.admin == admin && t.minters == MintersBy(admin, calls)
      && t.ledger.totalSupply == SupplyBy(initial, Journal(calls))
      && (forall u :: Snip20.BalanceOf(t.ledger, u) == BalanceBy(initial, Journal(calls), u))
      && (forall o, s :: Snip20.AllowanceOf(t.ledger, o, s) == AllowanceBy(Journal(calls), o, s))
      && Recordable(Records(calls))
      && forall u :: H.LogOf(t.log, u) == ListOf(Records(calls), u)
  {
    hide Handle, Init;
    RunAgrees(admin, info, initial, calls);
  }

  /** When a call is taken, in every reachable state: by whom it may be made, of how much, and until
      when. */
  lemma {:induction false} CommitsIff(
      admin: Address, info: TokenInfo, initial: seq<Snip20.InitialBalance>, calls: seq<Call>, call: Call)
    requires Init(admin, info, initial).Ok? && Run(Init(admin, info, initial).value, calls).Ok?
    ensures Handle(Run(Init(admin, info, initial).value, calls).value, call).Ok? <==> MayCall(admin, initial, calls, call)
  {
    hide StateAgrees, Handle, Init, MayCall;
    RunAgrees(admin, info, initial, calls);
    CallAgrees(admin, initial, calls, Run(Init(admin, info, initial).value, calls).value, call);
  }

  // --- Revocation ---

  lemma {:induction false} JournalSplits(a: seq<Call>, b: seq<Call>)
    ensures Journal(a + b) == Journal(a) + Journal(b)
  {
    hide EntriesOf;
    if b == [] {
      assert a + b == a && Journal(a) + [] == Journal(a);
    } else {
      var last := EntriesOf(b[|b| - 1]);
      JournalSplits(a, b[..|b| - 1]);
      assert (a + b)[..|a + b| - 1] == a + b[..|b| - 1];
      assert Journal(a) + Journal(b[..|b| - 1]) + last == Journal(a) + (Journal(b[..|b| - 1]) + last);
    }
  }

  lemma {:induction false} JournalCovered(
      admin: Address, info: TokenInfo, initial: seq<Snip20.InitialBalance>, calls: seq<Call>)
    requires Init(admin, info, initial).Ok? && Run(Init(admin, info, initial).value, calls).Ok?
    ensures Covered(Journal(calls))
  {
    hide Handle, Init, Covered, AllowanceBy, BalanceBy, SupplyBy;
    if calls == [] {
      NothingCovered();
    } else {
      var before := calls[..|calls| - 1];
      var call := calls[|calls| - 1];
      JournalCovered(admin, info, initial, before);
      CommitsIff(admin, info, initial, before, call);
      var es := EntriesOf(call);
      if es == [] {
        assert Journal(before) + [] == Journal(before);
      } else {
        CoveredGrows(Journal(before), es[0]);
        if |es| == 2 {
          CoveredGrows(Journal(before) + [es[0]], es[1]);
          assert Journal(before) + [es[0]] + [es[1]] == Journal(before) + es;
        } else {
          assert [es[0]] == es;
        }
      }
    }
  }

  /** Once the owner lowers an allowance, what its spender moves and burns before the next increase
      is at most what is left of it: lowering it by all of it revokes it. */
  lemma {:induction false} LoweredAllowanceHolds(
      admin: Address, info: TokenInfo, initial: seq<Snip20.InitialBalance>,
      calls: seq<Call>, lowering: Call, later: seq<Call>)
    requires Init(admin, info, initial).Ok? && lowering.request.DecreaseAllowance?
    requires Run(Init(admin, info, initial).value, calls + [lowering] + later).Ok?
    requires NoIncrease(Journal(later), lowering.sender, lowering.request.shrunk)
    ensures var held := AllowanceBy(Journal(calls), lowering.sender, lowering.request.shrunk).amount;
      SpentIn(Journal(later), lowering.sender, lowering.request.shrunk)
      <= if lowering.request.less <= held then held - lowering.request.less else 0
  {
    hide Run, Init, Covered, AllowanceBy, SpentIn, NoIncrease;
    JournalCovered(admin, info, initial, calls + [lowering] + later);
    JournalSplits(calls + [lowering], later);
    JournalSplits(calls, [lowering]);
    assert [lowering][..0] == [] && Journal([lowering]) == EntriesOf(lowering);
    RevokedIsRevoked(Journal(calls), lowering.sender, lowering.request.shrunk, lowering.request.less,
                     lowering.request.newExpiration, Journal(later));
  }
}
