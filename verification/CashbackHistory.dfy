/** The cashback token read off its calls alone: its books, its records, its rewards, its minters,
    what each call sends, and when it is taken. */
module CashbackHistory {
  import opened Cashback
  import opened Chain
  import H = History
  import opened LedgerHistory
  import opened LogHistory
  import R = CashbackRewards
  import Snip20
  import T = TokenSupply

  // --- What the calls alone say ---

  /** A burn itself moves nothing: the callback does. */
  function EntriesOf(call: Call): seq<Entry> {
    match call.request
    case Transfer(to, amount) => [Move(call.sender, to, amount)]
    case TransferFrom(owner, to, amount) => [Spend(owner, call.sender, amount), Move(owner, to, amount)]
    case IncreaseAllowance(spender, amount, expiration) => [Allow(call.sender, spender, amount, expiration)]
    case DecreaseAllowance(spender, amount, expiration) => [Disallow(call.sender, spender, amount, expiration)]
    case Mint(to, amount) => [Issue(to, amount)]
    case BurnFrom(owner, amount) => [Spend(owner, call.sender, amount)]
    case Callback(burner, amount) => [Destroy(burner, amount)]
    case _ => []
  }

  function Journal(calls: seq<Call>): seq<Entry> {
    if calls == [] then [] else Journal(calls[..|calls| - 1]) + EntriesOf(calls[|calls| - 1])
  }

  function RecordsOf(call: Call): seq<Happened> {
    match call.request
    case Transfer(to, amount) => [Happened(H.Transfer(call.sender, call.sender, to), amount)]
    case TransferFrom(owner, to, amount) => [Happened(H.Transfer(owner, call.sender, to), amount)]
    case Mint(to, amount) => [Happened(H.Mint(call.sender, to), amount)]
    case Callback(burner, amount) => [Happened(H.Burn(burner, burner), amount)]
    case _ => []
  }

  function InitialRecords(admin: Address, initial: seq<Snip20.InitialBalance>): seq<Happened> {
    if initial == [] then []
    else
      var entry := initial[|initial| - 1];
      InitialRecords(admin, initial[..|initial| - 1]) + [Happened(H.Mint(admin, entry.address), entry.amount)]
  }

  function Records(admin: Address, initial: seq<Snip20.InitialBalance>, calls: seq<Call>): seq<Happened> {
    if calls == [] then InitialRecords(admin, initial)
    else Records(admin, initial, calls[..|calls| - 1]) + RecordsOf(calls[|calls| - 1])
  }

  function MintersBy(admin: Address, calls: seq<Call>): seq<Address> {
    if calls == [] then [admin]
    else
      match calls[|calls| - 1].request
      case SetMinters(minters) => minters
      case _ => MintersBy(admin, calls[..|calls| - 1])
  }

  /** A burner's share of what has been collected, by the tokens that there were before the burn. */
  function ShareOf(amount: nat, collected: int, supply: int): int {
    if supply <= 0 then 0 else amount * collected / supply
  }

  /** The rewards that were notified and not paid. */
  function RewardsBy(initial: seq<Snip20.InitialBalance>, calls: seq<Call>): int {
    if calls == [] then 0
    else
      var before := calls[..|calls| - 1];
      match calls[|calls| - 1].request
      case Notify(amount) => RewardsBy(initial, before) + amount
      case Callback(_, amount) =>
        RewardsBy(initial, before) - ShareOf(amount, RewardsBy(initial, before), SupplyBy(initial, Journal(before)))
      case _ => RewardsBy(initial, before)
  }

  /** What a call sends. */
  function MessagesBy(
      ownAddr: Address, master: Address, initial: seq<Snip20.InitialBalance>, calls: seq<Call>, call: Call): seq<Message>
    requires call.request.Callback? ==>
               ShareOf(call.request.burnAmount, RewardsBy(initial, calls), SupplyBy(initial, Journal(calls))) >= 0
  {
    match call.request
    case Burn(amount) => [UpdateAllocation(master, ownAddr), SelfCallback(call.sender, amount)]
    case BurnFrom(owner, amount) => [UpdateAllocation(master, ownAddr), SelfCallback(owner, amount)]
    case Callback(burner, amount) =>
      var reward := ShareOf(amount, RewardsBy(initial, calls), SupplyBy(initial, Journal(calls)));
      if reward > 0 then [TransferReward(burner, reward)] else []
    case _ => []
  }

  /** Who may make which call, and what must fit. */
  predicate MayCall(admin: Address, ownAddr: Address, master: Address, initial: seq<Snip20.InitialBalance>,
                    calls: seq<Call>, call: Call)
  {
    var journal := Journal(calls);
    var recordable := |Records(admin, initial, calls)| + 1 < U64_LIMIT;
    match call.request
    case Transfer(_, amount) => amount <= BalanceBy(initial, journal, call.sender) && recordable
    case TransferFrom(owner, _, amount) =>
      && MaySpend(journal, owner, call.sender, call.time, amount)
      && amount <= BalanceBy(initial, journal, owner) && recordable
    case IncreaseAllowance(_, _, _) => true
    case DecreaseAllowance(_, _, _) => true
    case Mint(_, amount) =>
      call.sender in MintersBy(admin, calls) && SupplyBy(initial, journal) + amount < U128_LIMIT && recordable
    case Burn(_) => true
    case BurnFrom(owner, amount) => MaySpend(journal, owner, call.sender, call.time, amount)
    case Notify(amount) => call.sender in {master, admin} && RewardsBy(initial, calls) + amount < U128_LIMIT
    case Callback(burner, amount) =>
      && call.sender == ownAddr
      && amount <= BalanceBy(initial, journal, burner) && SupplyBy(initial, journal) > 0
      && amount * RewardsBy(initial, calls) < U128_LIMIT && recordable
    case SetMinters(_) => call.sender == admin
  }

  // --- The state agrees with the calls ---

  ghost predicate StateAgrees(admin: Address, ownAddr: Address, master: Address, initial: seq<Snip20.InitialBalance>,
                              calls: seq<Call>, t: State)
  {
    && t.admin == admin && t.ownAddr == ownAddr && t.master == master
    && t.minters == MintersBy(admin, calls)
    && t.rewardBalance == RewardsBy(initial, calls)
    && Agrees(initial, Journal(calls), t.ledger)
    && LogAgrees(Records(admin, initial, calls), t.log)
  }

  /** What a call makes of a state that agrees with the calls before it. */
  ghost predicate Follows(admin: Address, ownAddr: Address, master: Address, initial: seq<Snip20.InitialBalance>,
                          calls: seq<Call>, t: State, call: Call)
    requires call.request.Callback? ==>
               ShareOf(call.request.burnAmount, RewardsBy(initial, calls), SupplyBy(initial, Journal(calls))) >= 0
  {
    && (Handle(t, call).Ok? <==> MayCall(admin, ownAddr, master, initial, calls, call))
    && (Handle(t, call).Ok? ==>
          && StateAgrees(admin, ownAddr, master, initial, calls + [call], Handle(t, call).value.state)
          && Handle(t, call).value.messages == MessagesBy(ownAddr, master, initial, calls, call))
  }

  lemma ShareDefined(amount: nat, collected: nat, supply: nat)
    ensures ShareOf(amount, collected, supply) >= 0
  {
    if supply > 0 {
      assert amount * collected >= 0;
    }
  }

  /** The hook's effects on the books and the records, each as its journal says. */
  lemma HookFollows(initial: seq<Snip20.InitialBalance>, journal: seq<Entry>, happened: seq<Happened>, t: State,
                    burner: Address, amount: nat)
    requires Agrees(initial, journal, t.ledger) && LogAgrees(happened, t.log) && T.Backed(t.ledger)
    ensures var r := BurnHook(t, burner, amount);
      var reward := ShareOf(amount, t.rewardBalance, t.ledger.totalSupply);
      && reward >= 0
      && (r.Ok? <==> && amount <= BalanceBy(initial, journal, burner) && t.ledger.totalSupply > 0
                     && amount * t.rewardBalance < U128_LIMIT && |happened| + 1 < U64_LIMIT)
      && (r.Ok? ==>
            var out := r.value;
            && out.state == t.(ledger := out.state.ledger, rewardBalance := t.rewardBalance - reward, log := out.state.log)
            && Agrees(initial, journal + [Destroy(burner, amount)], out.state.ledger)
            && LogAgrees(happened + [Happened(H.Burn(burner, burner), amount)], out.state.log)
            && out.messages == if reward > 0 then [TransferReward(burner, reward)] else [])
  {
    ShareDefined(amount, t.rewardBalance, t.ledger.totalSupply);
    R.BurnCommitsIff(t, burner, amount);
    DestroyAgrees(initial, journal, t.ledger, burner, amount);
    BurnAgrees(happened, t.log, burner, amount);
    RecordsCounted(happened, t.log);
    BalanceAgrees(initial, journal, t.ledger, burner);
    hide Agrees, LogAgrees, BalanceBy, T.Backed, Snip20.Burn, H.StoreBurn;
  }

  lemma CallbackFollows(admin: Address, ownAddr: Address, master: Address, initial: seq<Snip20.InitialBalance>,
                        calls: seq<Call>, t: State, call: Call)
    requires StateAgrees(admin, ownAddr, master, initial, calls, t) && T.Backed(t.ledger) && call.request.Callback?
    ensures ShareOf(call.request.burnAmount, RewardsBy(initial, calls), SupplyBy(initial, Journal(calls))) >= 0
    ensures Follows(admin, ownAddr, master, initial, calls, t, call)
  {
    hide Agrees, LogAgrees, BalanceBy, SupplyBy, T.Backed, BurnHook, Journal, Records, ShareOf;
    assert (calls + [call])[..|calls|] == calls;
    SupplyAgrees(initial, Journal(calls), t.ledger);
    HookFollows(initial, Journal(calls), Records(admin, initial, calls), t, call.request.burner, call.request.burnAmount);
    JournalGrows(calls, call);
    RecordsGrow(admin, initial, calls, call);
  }

  lemma RecordsCounted(happened: seq<Happened>, log: H.Log)
    requires LogAgrees(happened, log)
    ensures log.txCount == |happened|
  {
  }

  lemma BalanceAgrees(initial: seq<Snip20.InitialBalance>, journal: seq<Entry>, l: Snip20.Ledger, u: Address)
    requires Agrees(initial, journal, l)
    ensures Snip20.BalanceOf(l, u) == BalanceBy(initial, journal, u)
  {
  }

  lemma JournalGrows(calls: seq<Call>, call: Call)
    ensures Journal(calls + [call]) == Journal(calls) + EntriesOf(call)
  {
    assert (calls + [call])[..|calls|] == calls;
  }

  lemma RecordsGrow(admin: Address, initial: seq<Snip20.InitialBalance>, calls: seq<Call>, call: Call)
    ensures Records(admin, initial, calls + [call]) == Records(admin, initial, calls) + RecordsOf(call)
  {
    assert (calls + [call])[..|calls|] == calls;
  }

  lemma OtherFollows(admin: Address, ownAddr: Address, master: Address, initial: seq<Snip20.InitialBalance>,
                     calls: seq<Call>, t: State, call: Call)
    requires StateAgrees(admin, ownAddr, master, initial, calls, t) && T.Backed(t.ledger) && !call.request.Callback?
    ensures Follows(admin, ownAddr, master, initial, calls, t, call)
  {
    hide Agrees, LogAgrees, BalanceBy, SupplyBy, MaySpend, T.Backed, Snip20.Transfer, Snip20.TransferFrom, Snip20.Mint;
    hide Snip20.SpendAllowance, Snip20.IncreaseAllowance, Snip20.DecreaseAllowance, H.StoreTransfer, H.StoreMint;
    hide BurnHook, Journal, Records;
    assert (calls + [call])[..|calls|] == calls;
    var journal := Journal(calls);
    var records := Records(admin, initial, calls);
    JournalGrows(calls, call);
    RecordsGrow(admin, initial, calls, call);
    assert journal + [] == journal && records + [] == records;
    match call.request
    case Transfer(to, amount) =>
      MoveAgrees(initial, journal, t.ledger, call.sender, to, amount);
      StoreAgrees(records, t.log, call.sender, call.sender, to, amount);
    case TransferFrom(owner, to, amount) =>
      MoveFromAgrees(initial, journal, t.ledger, call.time, call.sender, owner, to, amount);
      StoreAgrees(records, t.log, owner, call.sender, to, amount);
    case IncreaseAllowance(spender, amount, expiration) =>
      AllowAgrees(initial, journal, t.ledger, call.sender, spender, amount, expiration);
    case DecreaseAllowance(spender, amount, expiration) =>
      DisallowAgrees(initial, journal, t.ledger, call.sender, spender, amount, expiration);
    case Mint(to, amount) =>
      IssueAgrees(initial, journal, t.ledger, to, amount);
      MintAgrees(records, t.log, call.sender, to, amount);
    case BurnFrom(owner, amount) =>
      SpendAgrees(initial, journal, t.ledger, call.time, owner, call.sender, amount);
    case _ =>
  }

  // --- Whole runs ---

  lemma {:induction false} StartAgrees(admin: Address, initial: seq<Snip20.InitialBalance>)
    requires InitialBooks(admin, initial).Ok?
    ensures var books := InitialBooks(admin, initial).value;
      Agrees(initial, [], books.ledger) && LogAgrees(InitialRecords(admin, initial), books.log)
  {
    hide Agrees, LogAgrees, Snip20.AddInitial, H.StoreMint;
    R.BooksAreLedger(admin, initial);
    InitialAgrees(initial);
    if initial == [] {
      NoRecords();
    } else {
      var n := |initial| - 1;
      StartAgrees(admin, initial[..n]);
      MintAgrees(InitialRecords(admin, initial[..n]), InitialBooks(admin, initial[..n]).value.log, admin,
                 initial[n].address, initial[n].amount);
    }
  }

  lemma {:induction false} RunAgrees(
      admin: Address, ownAddr: Address, master: Address, initial: seq<Snip20.InitialBalance>, calls: seq<Call>)
    requires Init(admin, ownAddr, master, initial).Ok? && Run(Init(admin, ownAddr, master, initial).value, calls).Ok?
    ensures var t := Run(Init(admin, ownAddr, master, initial).value, calls).value;
      StateAgrees(admin, ownAddr, master, initial, calls, t) && T.Backed(t.ledger)
  {
    hide Agrees, LogAgrees, Handle, InitialBooks, RewardsBy, Records;
    R.BooksAlwaysKept(admin, ownAddr, master, initial, calls);
    if calls == [] {
      StartAgrees(admin, initial);
      NoCalls(admin, initial);
    } else {
      var before := calls[..|calls| - 1];
      var call := calls[|calls| - 1];
      RunAgrees(admin, ownAddr, master, initial, before);
      var t := Run(Init(admin, ownAddr, master, initial).value, before).value;
      assert before + [call] == calls;
      CallFollows(admin, ownAddr, master, initial, before, t, call);
    }
  }

  lemma NoCalls(admin: Address, initial: seq<Snip20.InitialBalance>)
    ensures Records(admin, initial, []) == InitialRecords(admin, initial) && RewardsBy(initial, []) == 0
  {
  }

  lemma CallFollows(admin: Address, ownAddr: Address, master: Address, initial: seq<Snip20.InitialBalance>,
                    calls: seq<Call>, t: State, call: Call)
    requires StateAgrees(admin, ownAddr, master, initial, calls, t) && T.Backed(t.ledger)
    ensures call.request.Callback? ==>
              ShareOf(call.request.burnAmount, RewardsBy(initial, calls), SupplyBy(initial, Journal(calls))) >= 0
    ensures Follows(admin, ownAddr, master, initial, calls, t, call)
  {
    hide StateAgrees, Follows, Handle;
    if call.request.Callback? {
      CallbackFollows(admin, ownAddr, master, initial, calls, t, call);
    } else {
      OtherFollows(admin, ownAddr, master, initial, calls, t, call);
    }
  }

  lemma {:induction false} BooksCommitIff(admin: Address, initial: seq<Snip20.InitialBalance>)
    ensures InitialBooks(admin, initial).Ok? <==> InitialTotal(initial) < U128_LIMIT && |initial| < U64_LIMIT
    ensures InitialBooks(admin, initial).Ok? ==>
              var books := InitialBooks(admin, initial).value;
              books.ledger.totalSupply == InitialTotal(initial) && books.log.txCount == |initial|
  {
    if initial != [] {
      BooksCommitIff(admin, initial[..|initial| - 1]);
    }
  }

  /** A token starts exactly if its initial balances add up to a supply, and each can be recorded. */
  lemma InitCommitsIff(admin: Address, ownAddr: Address, master: Address, initial: seq<Snip20.InitialBalance>)
    ensures Init(admin, ownAddr, master, initial).Ok? <==> InitialTotal(initial) < U128_LIMIT && |initial| < U64_LIMIT
  {
    BooksCommitIff(admin, initial);
  }

  /** In every reachable state everything is what the calls say: each balance, the supply, each
      allowance with its expiration, the rewards collected, the minters, and each account's list of
      transactions. */
  lemma {:induction false} TokenFromCalls(
      admin: Address, ownAddr: Address, master: Address, initial: seq<Snip20.InitialBalance>, calls: seq<Call>)
    requires Init(admin, ownAddr, master, initial).Ok? && Run(Init(admin, ownAddr, master, initial).value, calls).Ok?
    ensures var t := Run(Init(admin, ownAddr, master, initial).value, calls).value;
      && t.admin == admin && t.ownAddr == ownAddr && t.master == master && t.minters == MintersBy(admin, calls)
      && t.rewardBalance == RewardsBy(initial, calls)
      && t.ledger.totalSupply == SupplyBy(initial, Journal(calls))
      && (forall u :: Snip20.BalanceOf(t.ledger, u) == BalanceBy(initial, Journal(calls), u))
      && (forall o, s :: Snip20.AllowanceOf(t.ledger, o, s) == AllowanceBy(Journal(calls), o, s))
      && Recordable(Records(admin, initial, calls))
      && forall u :: H.LogOf(t.log, u) == ListOf(Records(admin, initial, calls), u)
  {
    hide Handle, Init;
    RunAgrees(admin, ownAddr, master, initial, calls);
  }

  /** When a call is taken, in every reachable state, and what it then sends. */
  lemma {:induction false} CommitsIff(
      admin: Address, ownAddr: Address, master: Address, initial: seq<Snip20.InitialBalance>, calls: seq<Call>, call: Call)
    requires Init(admin, ownAddr, master, initial).Ok? && Run(Init(admin, ownAddr, master, initial).value, calls).Ok?
    ensures call.request.Callback? ==>
              ShareOf(call.request.burnAmount, RewardsBy(initial, calls), SupplyBy(initial, Journal(calls))) >= 0
    ensures var r := Handle(Run(Init(admin, ownAddr, master, initial).value, calls).value, call);
      && (r.Ok? <==> MayCall(admin, ownAddr, master, initial, calls, call))
      && (r.Ok? ==> r.value.messages == MessagesBy(ownAddr, master, initial, calls, call))
  {
    hide StateAgrees, Handle, Init, MayCall, MessagesBy;
    RunAgrees(admin, ownAddr, master, initial, calls);
    CallFollows(admin, ownAddr, master, initial, calls, Run(Init(admin, ownAddr, master, initial).value, calls).value, call);
  }

  // --- Revocation ---

  lemma {:induction false} JournalSplits(a: seq<Call>, b: seq<Call>)
    ensures Journal(a + b) == Journal(a) + Journal(b)
  {
    hide EntriesOf;
    if b == [] {
      assert a + b == a && Journal(a) + [] == Journal(a);
    } else {
      var last := EntriesOf(b[|b| - 1]);
      JournalSplits(a, b[..|b| - 1]);
      assert (a + b)[..|a + b| - 1] == a + b[..|b| - 1];
      assert Journal(a) + Journal(b[..|b| - 1]) + last == Journal(a) + (Journal(b[..|b| - 1]) + last);
    }
  }

  lemma {:induction false} JournalCovered(
      admin: Address, ownAddr: Address, master: Address, initial: seq<Snip20.InitialBalance>, calls: seq<Call>)
    requires Init(admin, ownAddr, master, initial).Ok? && Run(Init(admin, ownAddr, master, initial).value, calls).Ok?
    ensures Covered(Journal(calls))
  {
    hide Handle, Init, Covered, AllowanceBy, BalanceBy, SupplyBy, RewardsBy, Records;
    if calls == [] {
      NothingCovered();
    } else {
      var before := calls[..|calls| - 1];
      var call := calls[|calls| - 1];
      JournalCovered(admin, ownAddr, master, initial, before);
      CommitsIff(admin, ownAddr, master, initial, before, call);
      var es := EntriesOf(call);
      if es == [] {
        assert Journal(before) + [] == Journal(before);
      } else {
        CoveredGrows(Journal(before), es[0]);
        if |es| == 2 {
          CoveredGrows(Journal(before) + [es[0]], es[1]);
          assert Journal(before) + [es[0]] + [es[1]] == Journal(before) + es;
        } else {
          assert [es[0]] == es;
        }
      }
    }
  }

  /** Once the owner lowers an allowance, what its spender moves and burns before the next increase
      is at most what is left of it: lowering it by all of it revokes it. */
  lemma {:induction false} LoweredAllowanceHolds(
      admin: Address, ownAddr: Address, master: Address, initial: seq<Snip20.InitialBalance>,
      calls: seq<Call>, lowering: Call, later: seq<Call>)
    requires Init(admin, ownAddr, master, initial).Ok? && lowering.request.DecreaseAllowance?
    requires Run(Init(admin, ownAddr, master, initial).value, calls + [lowering] + later).Ok?
    requires NoIncrease(Journal(later), lowering.sender, lowering.request.shrunk)
    ensures var held := AllowanceBy(Journal(calls), lowering.sender, lowering.request.shrunk).amount;
      SpentIn(Journal(later), lowering.sender, lowering.request.shrunk)
      <= if lowering.request.less <= held then held - lowering.request.less else 0
  {
    hide Run, Init, Covered, AllowanceBy, SpentIn, NoIncrease;
    JournalCovered(admin, ownAddr, master, initial, calls + [lowering] + later);
    JournalSplits(calls + [lowering], later);
    JournalSplits(calls, [lowering]);
    assert [lowering][..0] == [] && Journal([lowering]) == EntriesOf(lowering);
    RevokedIsRevoked(Journal(calls), lowering.sender, lowering.request.shrunk, lowering.request.less,
                     lowering.request.newExpiration, Journal(later));
  }
}
