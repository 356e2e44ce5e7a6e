/** The lists of transfers: the second list of the cashback token, and the only one of gov-token. */
module TransferHistory {
  import opened Chain
  import C = Cashback
  import G = GovToken
  import opened History
  import opened HistoryReplay
  import Snip20
  import T = TokenSupply

  // --- The cashback token's second list ---

  /** The transfers among the records of a list, in order. */
  function OnlyTransfers(txs: seq<StoredTx>): seq<StoredTx> {
    if txs == [] then []
    else
      var last := txs[|txs| - 1];
      OnlyTransfers(txs[..|txs| - 1]) + (if last.action.txType == 0 then [last] else [])
  }

  function AsTxs(transfers: seq<StoredLegacyTransfer>): seq<StoredTx> {
    seq(|transfers|, i requires 0 <= i < |transfers| => FromStoredLegacyTransfer(transfers[i]))
  }

  ghost predicate SameTransfers(log: Log) {
    forall u :: AsTxs(TransfersOf(log, u)) == OnlyTransfers(LogOf(log, u))
  }

  lemma OneMoreTx(txs: seq<StoredTx>, tx: StoredTx)
    ensures OnlyTransfers(txs + [tx]) == OnlyTransfers(txs) + (if tx.action.txType == 0 then [tx] else [])
  {
    assert (txs + [tx])[..|txs|] == txs;
  }

  /** A transfer appended to both lists of an account. */
  lemma BothAppended(log: Log, transfer: StoredLegacyTransfer, u: Address)
    requires SameTransfers(log)
    ensures SameTransfers(AppendTransfer(AppendTx(log, FromStoredLegacyTransfer(transfer), u), transfer, u))
  {
    hide OnlyTransfers;
    OneMoreTx(LogOf(log, u), FromStoredLegacyTransfer(transfer));
    var after := AppendTransfer(AppendTx(log, FromStoredLegacyTransfer(transfer), u), transfer, u);
    forall v
      ensures AsTxs(TransfersOf(after, v)) == OnlyTransfers(LogOf(after, v))
    {
      assert AsTxs(TransfersOf(log, v)) == OnlyTransfers(LogOf(log, v));
      assert v != u ==> LogOf(after, v) == LogOf(log, v) && TransfersOf(after, v) == TransfersOf(log, v);
    }
  }

  /** Any other record appended to the first list. */
  lemma OtherAppended(log: Log, tx: StoredTx, u: Address)
    requires SameTransfers(log) && tx.action.txType != 0
    ensures SameTransfers(AppendTx(log, tx, u))
  {
    hide OnlyTransfers;
    OneMoreTx(LogOf(log, u), tx);
    var after := AppendTx(log, tx, u);
    forall v
      ensures AsTxs(TransfersOf(after, v)) == OnlyTransfers(LogOf(after, v))
    {
      assert AsTxs(TransfersOf(log, v)) == OnlyTransfers(LogOf(log, v));
      assert TransfersOf(after, v) == TransfersOf(log, v) && (v != u ==> LogOf(after, v) == LogOf(log, v));
    }
  }

  lemma SameLists(log: Log, after: Log)
    requires SameTransfers(log) && after.txs == log.txs && after.transfers == log.transfers
    ensures SameTransfers(after)
  {
    forall u
      ensures AsTxs(TransfersOf(after, u)) == OnlyTransfers(LogOf(after, u))
    {
      assert AsTxs(TransfersOf(log, u)) == OnlyTransfers(LogOf(log, u));
    }
  }

  /** The two lists of an account are apart, so the order of the appends makes no difference. */
  lemma TransferKeepsSame(log: Log, owner: Address, sender: Address, receiver: Address, amount: nat)
    requires SameTransfers(log) && StoreTransfer(log, owner, sender, receiver, amount).Ok?
    ensures SameTransfers(StoreTransfer(log, owner, sender, receiver, amount).value)
  {
    var counted := IncrementTxCount(log).value;
    var transfer := StoredLegacyTransfer(counted.txCount, owner, sender, receiver, amount);
    var tx := FromStoredLegacyTransfer(transfer);
    var first := if owner != sender then AppendTransfer(AppendTx(counted, tx, owner), transfer, owner) else counted;
    var second := AppendTransfer(AppendTx(first, tx, sender), transfer, sender);
    var third := AppendTransfer(AppendTx(second, tx, receiver), transfer, receiver);
    assert StoreTransfer(log, owner, sender, receiver, amount).value == third;
    hide SameTransfers, AppendTransfer, AppendTx, StoreTransfer;
    SameLists(log, counted);
    if owner != sender {
      BothAppended(counted, transfer, owner);
    }
    BothAppended(first, transfer, sender);
    BothAppended(second, transfer, receiver);
  }

  lemma MintKeepsSame(log: Log, minter: Address, recipient: Address, amount: nat)
    requires SameTransfers(log) && StoreMint(log, minter, recipient, amount).Ok?
    ensures SameTransfers(StoreMint(log, minter, recipient, amount).value)
  {
    hide SameTransfers, AppendTx;
    var counted := IncrementTxCount(log).value;
    var tx := StoredTx(counted.txCount, StoredMint(minter, recipient), amount);
    SameLists(log, counted);
    if minter != recipient {
      OtherAppended(counted, tx, recipient);
    }
    OtherAppended(if minter != recipient then AppendTx(counted, tx, recipient) else counted, tx, minter);
  }

  lemma BurnKeepsSame(log: Log, owner: Address, burner: Address, amount: nat)
    requires SameTransfers(log) && StoreBurn(log, owner, burner, amount).Ok?
    ensures SameTransfers(StoreBurn(log, owner, burner, amount).value)
  {
    hide SameTransfers, AppendTx;
    var counted := IncrementTxCount(log).value;
    var tx := StoredTx(counted.txCount, StoredBurn(owner, burner), amount);
    SameLists(log, counted);
    if burner != owner {
      OtherAppended(counted, tx, owner);
    }
    OtherAppended(if burner != owner then AppendTx(counted, tx, owner) else counted, tx, burner);
  }

  lemma CallKeepsSame(s: C.State, call: C.Call)
    requires SameTransfers(s.log) && C.Handle(s, call).Ok?
    ensures SameTransfers(C.Handle(s, call).value.state.log)
  {
    hide SameTransfers, StoreTransfer, StoreMint, StoreBurn;
    match call.request
    case Transfer(to, amount) => TransferKeepsSame(s.log, call.sender, call.sender, to, amount);
    case TransferFrom(owner, to, amount) => TransferKeepsSame(s.log, owner, call.sender, to, amount);
    case Mint(to, amount) => MintKeepsSame(s.log, call.sender, to, amount);
    case Callback(burner, amount) => BurnKeepsSame(s.log, burner, burner, amount);
    case _ =>
  }

  lemma {:induction false} InitialSame(admin: Address, entries: seq<Snip20.InitialBalance>)
    requires C.InitialBooks(admin, entries).Ok?
    ensures SameTransfers(C.InitialBooks(admin, entries).value.log)
  {
    hide StoreMint;
    if entries != [] {
      var n := |entries| - 1;
      InitialSame(admin, entries[..n]);
      MintKeepsSame(C.InitialBooks(admin, entries[..n]).value.log, admin, entries[n].address, entries[n].amount);
    }
  }

  /** In every reachable state an account's list of transfers is what its list of transactions
      has of them, in the same order. */
  lemma {:induction false} ListsShowTheSameTransfers(
      admin: Address, ownAddr: Address, master: Address, entries: seq<Snip20.InitialBalance>, calls: seq<C.Call>)
    requires C.Init(admin, ownAddr, master, entries).Ok?
    requires C.Run(C.Init(admin, ownAddr, master, entries).value, calls).Ok?
    ensures var log := C.Run(C.Init(admin, ownAddr, master, entries).value, calls).value.log;
      forall u :: AsTxs(TransfersOf(log, u)) == OnlyTransfers(LogOf(log, u))
  {
    if calls == [] {
      InitialSame(admin, entries);
    } else {
      var before := calls[..|calls| - 1];
      ListsShowTheSameTransfers(admin, ownAddr, master, entries, before);
      CallKeepsSame(C.Run(C.Init(admin, ownAddr, master, entries).value, before).value, calls[|calls| - 1]);
    }
  }

  // --- gov-token's list ---

  /** What a call issued to `u`, less what it burned of hers: the changes no transfer explains. */
  function IssuedBy(call: G.Call, u: Address): int {
    match call.request
    case Mint(to, amount) => if to == u then amount else 0
    case Burn(amount) => if call.sender == u then -(amount as int) else 0
    case BurnFrom(owner, amount) => if owner == u then -(amount as int) else 0
    case _ => 0
  }

  ghost function Issued(entries: seq<Snip20.InitialBalance>, calls: seq<G.Call>, u: Address): int {
    if calls == [] then (if Snip20.Initial(entries).Ok? then Snip20.BalanceOf(Snip20.Initial(entries).value, u) else 0)
    else Issued(entries, calls[..|calls| - 1], u) + IssuedBy(calls[|calls| - 1], u)
  }

  /** Nothing recorded, and each balance moved by what was issued. */
  lemma UnrecordedTells(
      l: Snip20.Ledger, t: Snip20.Ledger, log: Log, missing: Address -> int, now: Address -> int)
    requires Tells(l, log, missing)
    requires forall u :: Snip20.BalanceOf(t, u) + now(u) == Snip20.BalanceOf(l, u) + missing(u)
    ensures Tells(t, log, now)
  {
    hide Told, Recorded, Agreeing, Snip20.BalanceOf;
  }

  lemma RecordedTells(
      s: G.State, from: Address, sender: Address, to: Address, amount: nat, missing: Address -> int)
    requires Tells(s.ledger, s.log, missing)
    requires Snip20.Transfer(s.ledger, from, to, amount).Ok? && RecordTransfer(s.log, from, sender, to, amount).Ok?
    ensures Tells(Snip20.Transfer(s.ledger, from, to, amount).value,
                  RecordTransfer(s.log, from, sender, to, amount).value, missing)
  {
    T.TransferShape(s.ledger, from, to, amount);
    RecordAdds(s.log, from, sender, to, amount);
    hide Snip20.Transfer, RecordTransfer, Tells, Adds;
    TellsNext(s.ledger, s.log, Snip20.Transfer(s.ledger, from, to, amount).value,
              RecordTransfer(s.log, from, sender, to, amount).value,
              StoredTx(s.log.txCount + 1, StoredTransfer(from, sender, to), amount), missing);
  }

  lemma Retold(l: Snip20.Ledger, log: Log, missing: Address -> int, now: Address -> int)
    requires Tells(l, log, missing) && forall u :: now(u) == missing(u)
    ensures Tells(l, log, now)
  {
    hide Told, Recorded, Agreeing, Snip20.BalanceOf;
  }

  lemma GovCallTells(s: G.State, call: G.Call, missing: Address -> int, now: Address -> int)
    requires Tells(s.ledger, s.log, missing) && G.Handle(s, call).Ok?
    requires forall u :: now(u) == missing(u) - IssuedBy(call, u)
    ensures Tells(G.Handle(s, call).value.ledger, G.Handle(s, call).value.log, now)
  {
    hide Snip20.Transfer, RecordTransfer, Tells;
    var t := G.Handle(s, call).value;
    match call.request
    case Transfer(to, amount) =>
      RecordedTells(s, call.sender, call.sender, to, amount, missing);
      Retold(t.ledger, t.log, missing, now);
    case TransferFrom(owner, to, amount) =>
      var spent := Snip20.SpendAllowance(s.ledger, call.time, owner, call.sender, amount).value;
      SameTells(s.ledger, spent, s.log, missing);
      RecordedTells(s.(ledger := spent), owner, call.sender, to, amount, missing);
      Retold(t.ledger, t.log, missing, now);
    case _ => UnrecordedTells(s.ledger, t.ledger, s.log, missing, now);
  }

  ghost function NotIssued(entries: seq<Snip20.InitialBalance>, calls: seq<G.Call>): Address -> int {
    u => -Issued(entries, calls, u)
  }

  lemma {:induction false} GovRunTells(
      admin: Address, info: G.TokenInfo, entries: seq<Snip20.InitialBalance>, calls: seq<G.Call>)
    requires G.Init(admin, info, entries).Ok? && G.Run(G.Init(admin, info, entries).value, calls).Ok?
    ensures var s := G.Run(G.Init(admin, info, entries).value, calls).value;
      Tells(s.ledger, s.log, NotIssued(entries, calls))
  {
    if calls != [] {
      var before := calls[..|calls| - 1];
      GovRunTells(admin, info, entries, before);
      GovCallTells(G.Run(G.Init(admin, info, entries).value, before).value, calls[|calls| - 1],
                   NotIssued(entries, before), NotIssued(entries, calls));
    }
  }

  /** In every reachable state of gov-token an account's recorded transfers, each id counted once,
      are exactly what its balance differs by from what was issued to it; and every transfer is
      in the lists of exactly the accounts it names. */
  lemma {:induction false} TransfersExplainBalance(
      admin: Address, info: G.TokenInfo, entries: seq<Snip20.InitialBalance>, calls: seq<G.Call>, u: Address)
    requires G.Init(admin, info, entries).Ok? && G.Run(G.Init(admin, info, entries).value, calls).Ok?
    ensures var s := G.Run(G.Init(admin, info, entries).value, calls).value;
      && Readable(LogOf(s.log, u))
      && Snip20.BalanceOf(s.ledger, u)
         == Issued(entries, calls, u) + Replay(DropRepeated(NewestFirst(LogOf(s.log, u))), u)
      && forall v, tx | tx in LogOf(s.log, u) :: Names(tx.action, u) && (Names(tx.action, v) ==> tx in LogOf(s.log, v))
  {
    GovRunTells(admin, info, entries, calls);
    var s := G.Run(G.Init(admin, info, entries).value, calls).value;
    assert Told(s.log, u) == Snip20.BalanceOf(s.ledger, u) + NotIssued(entries, calls)(u);
  }
}
