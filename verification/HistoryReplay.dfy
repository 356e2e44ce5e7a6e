/** What the pages of an account's history say is what the account holds. */
module HistoryReplay {
  import opened Chain
  import opened History
  import Snip20
  import C = Cashback
  import T = TokenSupply
  import R = CashbackRewards

  // --- Storing and reading one action ---

  /** How the three kinds of records are stored. */
  function Stored(action: TxAction): StoredTxAction
    requires !action.Deposit? && !action.Redeem?
  {
    match action
    case Transfer(from, sender, recipient) => StoredTransfer(from, sender, recipient)
    case Mint(minter, recipient) => StoredMint(minter, recipient)
    case Burn(burner, owner) => StoredBurn(owner, burner)
  }

  /** The reader understands the record as what the writer encodes that way. */
  predicate ReadsBack(tx: StoredTx) {
    var read := IntoHumanized(tx.action);
    && read.Ok? && !read.value.Deposit? && !read.value.Redeem?
    && Stored(read.value) == tx.action
  }

  /** The reader takes the two accounts of a burn in the other order than the writer, which shows
      only if they differ. */
  lemma RoundTripIff(action: TxAction)
    requires !action.Deposit? && !action.Redeem?
    ensures IntoHumanized(Stored(action)).Ok?
    ensures IntoHumanized(Stored(action)).value == action <==> !(action.Burn? && action.burner != action.owner)
  {
  }

  // --- What a history amounts to ---

  /** What a record says it did to the tokens of `u`. */
  function Delta(tx: RichTx, u: Address): int {
    match tx.action
    case Transfer(from, _, recipient) => (if recipient == u then tx.amount else 0) - (if from == u then tx.amount else 0)
    case Mint(_, recipient) => if recipient == u then tx.amount else 0
    case Burn(_, owner) => if owner == u then -(tx.amount as int) else 0
    case _ => 0
  }

  function Replay(txs: seq<RichTx>, u: Address): int {
    if txs == [] then 0 else Delta(txs[0], u) + Replay(txs[1..], u)
  }

  predicate HasId(txs: seq<RichTx>, id: nat) {
    exists i | 0 <= i < |txs| :: txs[i].id == id
  }

  /** Drops all but the last record of each id. */
  function DropRepeated(txs: seq<RichTx>): seq<RichTx> {
    if txs == [] then []
    else if HasId(txs[1..], txs[0].id) then DropRepeated(txs[1..])
    else [txs[0]] + DropRepeated(txs[1..])
  }

  /** What remains once repeated ids are dropped has each id once, and none was lost. */
  lemma {:induction false} DropsExactlyRepeated(txs: seq<RichTx>)
    ensures forall i, j | 0 <= i < j < |DropRepeated(txs)| :: DropRepeated(txs)[i].id != DropRepeated(txs)[j].id
    ensures forall id: nat :: HasId(DropRepeated(txs), id) <==> HasId(txs, id)
  {
    if txs != [] {
      var rest := DropRepeated(txs[1..]);
      DropsExactlyRepeated(txs[1..]);
      forall id: nat
        ensures HasId(txs, id) <==> txs[0].id == id || HasId(txs[1..], id)
      {
        if HasId(txs[1..], id) {
          var i :| 0 <= i < |txs[1..]| && txs[1..][i].id == id;
          assert txs[i + 1].id == id;
        }
        if HasId(txs, id) && txs[0].id != id {
          var i :| 0 <= i < |txs| && txs[i].id == id;
          assert txs[1..][i - 1].id == id;
        }
      }
      if !HasId(txs[1..], txs[0].id) {
        var all := [txs[0]] + rest;
        assert forall i | 0 <= i < |rest| :: all[i + 1] == rest[i];
        forall id: nat
          ensures HasId(all, id) <==> txs[0].id == id || HasId(rest, id)
        {
          if HasId(rest, id) {
            var i :| 0 <= i < |rest| && rest[i].id == id;
            assert all[i + 1].id == id;
          }
          assert all[0].id == txs[0].id;
        }
        forall i, j | 0 <= i < j < |all|
          ensures all[i].id != all[j].id
        {
          assert HasId(rest, rest[j - 1].id);
        }
      }
    }
  }

  predicate Readable(s: seq<StoredTx>) {
    forall i | 0 <= i < |s| :: Read(s[i]).Ok?
  }

  /** A list as it is read: newest first. */
  function NewestFirst(s: seq<StoredTx>): seq<RichTx>
    requires Readable(s)
  {
    if s == [] then [] else [Read(s[|s| - 1]).value] + NewestFirst(s[..|s| - 1])
  }

  // --- Pages ---

  lemma {:induction false} NewestFirstAt(s: seq<StoredTx>, i: nat)
    requires Readable(s) && i < |s|
    ensures |NewestFirst(s)| == |s| && NewestFirst(s)[i] == Read(s[|s| - 1 - i]).value
  {
    if i > 0 {
      NewestFirstAt(s[..|s| - 1], i - 1);
    } else if |s| > 1 {
      NewestFirstAt(s[..|s| - 1], 0);
    }
  }

  lemma {:induction false} ReadAllAt(s: seq<StoredTx>)
    requires Readable(s)
    ensures ReadAll(s).Ok? && |ReadAll(s).value| == |s|
    ensures forall i | 0 <= i < |s| :: ReadAll(s).value[i] == Read(s[i]).value
  {
    if s != [] {
      ReadAllAt(s[..|s| - 1]);
    }
  }

  lemma NewestFirstLength(s: seq<StoredTx>)
    requires Readable(s)
    ensures |NewestFirst(s)| == |s|
  {
    if s != [] {
      NewestFirstAt(s, 0);
    }
  }

  function Slice(all: seq<RichTx>, skip: nat, take: nat): seq<RichTx> {
    all[Min(skip, |all|)..Min(skip + take, |all|)]
  }

  lemma PickedAt(s: seq<StoredTx>, skip: nat, take: nat, i: nat)
    requires i < |SkipTake(Reversed(s), skip, take)|
    ensures Min(skip, |s|) + i < |s|
    ensures SkipTake(Reversed(s), skip, take)[i] == s[|s| - 1 - (Min(skip, |s|) + i)]
  {
  }

  lemma PickedReadable(s: seq<StoredTx>, skip: nat, take: nat)
    requires Readable(s)
    ensures Readable(SkipTake(Reversed(s), skip, take))
    ensures |SkipTake(Reversed(s), skip, take)| == Min(skip + take, |s|) - Min(skip, |s|)
  {
    forall i | 0 <= i < |SkipTake(Reversed(s), skip, take)|
      ensures Read(SkipTake(Reversed(s), skip, take)[i]).Ok?
    {
      PickedAt(s, skip, take, i);
    }
  }

  lemma SliceRead(s: seq<StoredTx>, skip: nat, take: nat)
    requires Readable(s)
    ensures ReadAll(SkipTake(Reversed(s), skip, take)) == Ok(Slice(NewestFirst(s), skip, take))
  {
    hide SkipTake, Reversed, ReadAll, NewestFirst, Read;
    var picked := SkipTake(Reversed(s), skip, take);
    NewestFirstLength(s);
    PickedReadable(s, skip, take);
    ReadAllAt(picked);
    var slice := Slice(NewestFirst(s), skip, take);
    assert |slice| == |picked|;
    forall i | 0 <= i < |picked|
      ensures ReadAll(picked).value[i] == slice[i]
    {
      PickedAt(s, skip, take, i);
      NewestFirstAt(s, Min(skip, |s|) + i);
    }
    assert ReadAll(picked).value == slice;
  }

  /** A page is its slice of the history, newest first; it aborts exactly when its offset
      does not fit. */
  lemma PageIsSlice(log: Log, u: Address, page: nat, pageSize: nat)
    requires Readable(LogOf(log, u))
    ensures GetTxs(log, u, page, pageSize).Ok? <==> u !in log.txs || page * pageSize < U32_LIMIT
    ensures GetTxs(log, u, page, pageSize).Ok? ==>
              var all := NewestFirst(LogOf(log, u));
              GetTxs(log, u, page, pageSize).value == (Slice(all, page * pageSize, pageSize), |all|)
  {
    hide ReadAll, NewestFirst, Reversed, SkipTake, Slice, Readable;
    var s := LogOf(log, u);
    NewestFirstLength(s);
    SliceRead(s, page * pageSize, pageSize);
    if u !in log.txs {
      NoPage(page * pageSize, pageSize);
    }
  }

  lemma NoPage(skip: nat, take: nat)
    ensures NewestFirst([]) == [] && Slice([], skip, take) == []
  {
  }

  /** The first n pages, one after the other. */
  function Pages(log: Log, u: Address, pageSize: nat, n: nat): Result<seq<RichTx>> {
    if n == 0 then Ok([])
    else
      var before :- Pages(log, u, pageSize, n - 1);
      var page :- GetTxs(log, u, n - 1, pageSize);
      Ok(before + page.0)
  }

  lemma PrefixGrows(all: seq<RichTx>, skip: nat, take: nat)
    ensures all[..Min(skip, |all|)] + Slice(all, skip, take) == all[..Min(skip + take, |all|)]
  {
  }

  lemma {:induction false} PagesArePrefix(log: Log, u: Address, pageSize: nat, n: nat)
    requires Readable(LogOf(log, u)) && Pages(log, u, pageSize, n).Ok?
    ensures var all := NewestFirst(LogOf(log, u));
      Pages(log, u, pageSize, n).value == all[..Min(n * pageSize, |all|)]
  {
    hide GetTxs, NewestFirst, Slice, Readable;
    if n > 0 {
      PagesArePrefix(log, u, pageSize, n - 1);
      PageIsSlice(log, u, n - 1, pageSize);
      PrefixGrows(NewestFirst(LogOf(log, u)), (n - 1) * pageSize, pageSize);
      assert (n - 1) * pageSize + pageSize == n * pageSize;
    }
  }

  /** Enough pages are the whole history. */
  lemma {:induction false} PagesAreHistory(log: Log, u: Address, pageSize: nat, n: nat)
    requires Readable(LogOf(log, u)) && Pages(log, u, pageSize, n).Ok? && n * pageSize >= |LogOf(log, u)|
    ensures Pages(log, u, pageSize, n).value == NewestFirst(LogOf(log, u))
  {
    PagesArePrefix(log, u, pageSize, n);
    NewestFirstLength(LogOf(log, u));
  }

  // --- Appending ---

  predicate Below(s: seq<StoredTx>, id: nat) {
    forall i | 0 <= i < |s| :: s[i].id < id
  }

  ghost predicate Recorded(log: Log) {
    forall u | u in log.txs :: Readable(log.txs[u]) && Below(log.txs[u], log.txCount + 1)
  }

  lemma {:induction false} NoOldId(s: seq<StoredTx>, id: nat)
    requires Readable(s) && Below(s, id)
    ensures !HasId(NewestFirst(s), id)
  {
    forall i | 0 <= i < |NewestFirst(s)|
      ensures NewestFirst(s)[i].id != id
    {
      NewestFirstLength(s);
      NewestFirstAt(s, i);
    }
  }

  /** The accounts a record names: who sent, received, minted, burned or spent for another. */
  predicate Names(action: StoredTxAction, u: Address) {
    Some(u) in [action.address1, action.address2, action.address3]
  }

  lemma UnnamedUnchanged(tx: StoredTx, u: Address)
    requires Read(tx).Ok? && !Names(tx.action, u)
    ensures Delta(Read(tx).value, u) == 0
  {
    var named := [tx.action.address1, tx.action.address2, tx.action.address3];
    assert named[0] in named && named[1] in named && named[2] in named;
  }

  /** How a record reaches one list: once or twice if it names the account, and else not. */
  ghost predicate Grows(before: seq<StoredTx>, after: seq<StoredTx>, tx: StoredTx, named: bool) {
    if named then after == before + [tx] || after == before + [tx] + [tx] else after == before
  }

  lemma ReplayOne(s: seq<StoredTx>, tx: StoredTx, u: Address)
    requires Readable(s) && Below(s, tx.id) && Read(tx).Ok?
    ensures Readable(s + [tx])
    ensures var now := NewestFirst(s + [tx]);
      && now == [Read(tx).value] + NewestFirst(s)
      && Replay(DropRepeated(now), u) == Replay(DropRepeated(NewestFirst(s)), u) + Delta(Read(tx).value, u)
  {
    assert (s + [tx])[..|s|] == s;
    NoOldId(s, tx.id);
    var now := [Read(tx).value] + NewestFirst(s);
    assert now[1..] == NewestFirst(s);
  }

  /** A new record counts once, however many copies of it the list received. */
  lemma {:induction false} GrowsReplays(before: seq<StoredTx>, after: seq<StoredTx>, tx: StoredTx, u: Address)
    requires Readable(before) && Below(before, tx.id) && Read(tx).Ok?
    requires Grows(before, after, tx, Names(tx.action, u))
    ensures Readable(after)
    ensures Replay(DropRepeated(NewestFirst(after)), u)
            == Replay(DropRepeated(NewestFirst(before)), u) + Delta(Read(tx).value, u)
  {
    if !Names(tx.action, u) {
      UnnamedUnchanged(tx, u);
    } else {
      ReplayOne(before, tx, u);
      if after == before + [tx] + [tx] {
        var once := before + [tx];
        assert after[..|once|] == once;
        var now := NewestFirst(after);
        assert now == [Read(tx).value] + NewestFirst(once);
        assert now[1..] == NewestFirst(once) && NewestFirst(once)[0].id == now[0].id;
      }
    }
  }

  // --- The three kinds of records ---

  /** One more record, in the lists of exactly those it names. */
  ghost predicate Adds(log: Log, after: Log, tx: StoredTx) {
    && tx.id == after.txCount == log.txCount + 1 && Read(tx).Ok? && ReadsBack(tx)
    && forall u :: Grows(LogOf(log, u), LogOf(after, u), tx, Names(tx.action, u))
  }

  lemma RecordAdds(log: Log, owner: Address, sender: Address, receiver: Address, amount: nat)
    requires RecordTransfer(log, owner, sender, receiver, amount).Ok?
    ensures Adds(log, RecordTransfer(log, owner, sender, receiver, amount).value,
                 StoredTx(log.txCount + 1, StoredTransfer(owner, sender, receiver), amount))
  {
  }

  /** The second list is apart from the first. */
  lemma TransferAdds(log: Log, owner: Address, sender: Address, receiver: Address, amount: nat)
    requires StoreTransfer(log, owner, sender, receiver, amount).Ok?
    ensures Adds(log, StoreTransfer(log, owner, sender, receiver, amount).value,
                 StoredTx(log.txCount + 1, StoredTransfer(owner, sender, receiver), amount))
  {
    var recorded := RecordTransfer(log, owner, sender, receiver, amount).value;
    RecordAdds(log, owner, sender, receiver, amount);
    hide RecordTransfer;
    var stored := StoreTransfer(log, owner, sender, receiver, amount).value;
    assert stored.txs == recorded.txs && stored.txCount == recorded.txCount;
    assert forall u :: LogOf(stored, u) == LogOf(recorded, u);
  }

  lemma MintAdds(log: Log, minter: Address, recipient: Address, amount: nat)
    requires StoreMint(log, minter, recipient, amount).Ok?
    ensures Adds(log, StoreMint(log, minter, recipient, amount).value,
                 StoredTx(log.txCount + 1, StoredMint(minter, recipient), amount))
  {
  }

  lemma BurnAdds(log: Log, burner: Address, amount: nat)
    requires StoreBurn(log, burner, burner, amount).Ok?
    ensures Adds(log, StoreBurn(log, burner, burner, amount).value,
                 StoredTx(log.txCount + 1, StoredBurn(burner, burner), amount))
  {
  }

  /** What the records of `u` say, each counted once. */
  ghost function Told(log: Log, u: Address): int
    requires Recorded(log)
  {
    Replay(DropRepeated(NewestFirst(LogOf(log, u))), u)
  }

  lemma AddsOne(log: Log, after: Log, tx: StoredTx, u: Address)
    requires Recorded(log) && Adds(log, after, tx)
    ensures Readable(LogOf(after, u)) && Below(LogOf(after, u), after.txCount + 1)
    ensures Replay(DropRepeated(NewestFirst(LogOf(after, u))), u)
            == Replay(DropRepeated(NewestFirst(LogOf(log, u))), u) + Delta(Read(tx).value, u)
  {
    hide Delta, DropRepeated, Replay, NewestFirst;
    assert Grows(LogOf(log, u), LogOf(after, u), tx, Names(tx.action, u));
    GrowsReplays(LogOf(log, u), LogOf(after, u), tx, u);
  }

  lemma AddsTold(log: Log, after: Log, tx: StoredTx)
    requires Recorded(log) && Adds(log, after, tx)
    ensures Recorded(after)
    ensures forall u :: Told(after, u) == Told(log, u) + Delta(Read(tx).value, u)
  {
    assert Read(tx).Ok?;
    hide Adds, Delta, DropRepeated, Replay, NewestFirst, Read;
    forall u
      ensures Readable(LogOf(after, u)) && Below(LogOf(after, u), after.txCount + 1)
      ensures Replay(DropRepeated(NewestFirst(LogOf(after, u))), u)
              == Replay(DropRepeated(NewestFirst(LogOf(log, u))), u) + Delta(Read(tx).value, u)
    {
      AddsOne(log, after, tx, u);
    }
    assert forall u | u in after.txs :: after.txs[u] == LogOf(after, u);
  }

  /** The lists agree: a record is in the lists of exactly the accounts it names, and is read
      back as what it was stored for. */
  ghost predicate Agreeing(log: Log) {
    && (forall u, v, tx | tx in LogOf(log, u) :: Names(tx.action, u) && (Names(tx.action, v) ==> tx in LogOf(log, v)))
    && (forall u, tx | tx in LogOf(log, u) :: ReadsBack(tx))
  }

  lemma AddsAgree(log: Log, after: Log, tx: StoredTx)
    requires Agreeing(log) && Adds(log, after, tx)
    ensures Agreeing(after)
  {
    hide Names, Read, ReadsBack;
    forall u, known | known in LogOf(after, u)
      ensures ReadsBack(known)
    {
      assert Grows(LogOf(log, u), LogOf(after, u), tx, Names(tx.action, u));
      assert known == tx || known in LogOf(log, u);
    }
    forall u, v, known | known in LogOf(after, u)
      ensures Names(known.action, u) && (Names(known.action, v) ==> known in LogOf(after, v))
    {
      assert Grows(LogOf(log, u), LogOf(after, u), tx, Names(tx.action, u));
      assert Grows(LogOf(log, v), LogOf(after, v), tx, Names(tx.action, v));
      assert known == tx || known in LogOf(log, u);
    }
  }

  // --- Whole runs ---

  /** The history tells what the account holds, and what the initial balances overwrote. */
  ghost predicate Tells(ledger: Snip20.Ledger, log: Log, lost: Address -> int) {
    && Recorded(log) && Agreeing(log)
    && forall u :: Told(log, u) == Snip20.BalanceOf(ledger, u) + lost(u)
  }

  /** A record that says of each account what the books did to it. */
  lemma {:induction false} TellsNext(
      l: Snip20.Ledger, log: Log, after: Snip20.Ledger, afterLog: Log, tx: StoredTx, lost: Address -> int)
    requires Tells(l, log, lost) && Adds(log, afterLog, tx)
    requires forall u :: Snip20.BalanceOf(after, u) == Snip20.BalanceOf(l, u) + Delta(Read(tx).value, u)
    ensures Tells(after, afterLog, lost)
  {
    hide Adds, Recorded, Told, Agreeing, Snip20.BalanceOf;
    AddsTold(log, afterLog, tx);
    AddsAgree(log, afterLog, tx);
  }

  lemma {:induction false} InitialTells(admin: Address, entries: seq<Snip20.InitialBalance>)
    requires C.InitialBooks(admin, entries).Ok?
    ensures var books := C.InitialBooks(admin, entries).value;
      Tells(books.ledger, books.log, u => T.LostBy(entries, u))
  {
    if entries != [] {
      var n := |entries| - 1;
      var before := C.InitialBooks(admin, entries[..n]).value;
      var after := C.InitialBooks(admin, entries).value;
      InitialTells(admin, entries[..n]);
      R.BooksAreLedger(admin, entries[..n]);
      MintAdds(before.log, admin, entries[n].address, entries[n].amount);
      var tx := StoredTx(before.log.txCount + 1, StoredMint(admin, entries[n].address), entries[n].amount);
      AddsTold(before.log, after.log, tx);
      AddsAgree(before.log, after.log, tx);
    }
  }

  lemma SameTells(l: Snip20.Ledger, t: Snip20.Ledger, log: Log, lost: Address -> int)
    requires Tells(l, log, lost) && t.balances == l.balances
    ensures Tells(t, log, lost)
  {
    hide Told, Recorded, Agreeing;
  }

  lemma {:induction false} TransferTells(
      s: C.State, from: Address, sender: Address, to: Address, amount: nat, lost: Address -> int)
    requires Tells(s.ledger, s.log, lost)
    requires Snip20.Transfer(s.ledger, from, to, amount).Ok? && StoreTransfer(s.log, from, sender, to, amount).Ok?
    ensures Tells(Snip20.Transfer(s.ledger, from, to, amount).value,
                  StoreTransfer(s.log, from, sender, to, amount).value, lost)
  {
    T.TransferShape(s.ledger, from, to, amount);
    TransferAdds(s.log, from, sender, to, amount);
    hide Snip20.Transfer, StoreTransfer, Tells, Adds;
    TellsNext(s.ledger, s.log, Snip20.Transfer(s.ledger, from, to, amount).value,
              StoreTransfer(s.log, from, sender, to, amount).value,
              StoredTx(s.log.txCount + 1, StoredTransfer(from, sender, to), amount), lost);
  }

  lemma {:induction false} MintTells(s: C.State, minter: Address, to: Address, amount: nat, lost: Address -> int)
    requires Tells(s.ledger, s.log, lost)
    requires Snip20.Mint(s.ledger, to, amount).Ok? && StoreMint(s.log, minter, to, amount).Ok?
    ensures Tells(Snip20.Mint(s.ledger, to, amount).value, StoreMint(s.log, minter, to, amount).value, lost)
  {
    MintAdds(s.log, minter, to, amount);
    hide StoreMint, Tells, Adds;
    TellsNext(s.ledger, s.log, Snip20.Mint(s.ledger, to, amount).value, StoreMint(s.log, minter, to, amount).value,
              StoredTx(s.log.txCount + 1, StoredMint(minter, to), amount), lost);
  }

  lemma {:induction false} BurnTells(s: C.State, burner: Address, amount: nat, lost: Address -> int)
    requires Tells(s.ledger, s.log, lost) && C.BurnHook(s, burner, amount).Ok?
    ensures var t := C.BurnHook(s, burner, amount).value.state;
      Tells(t.ledger, t.log, lost)
  {
    BurnAdds(s.log, burner, amount);
    hide StoreBurn, Tells, Adds;
    var t := C.BurnHook(s, burner, amount).value.state;
    TellsNext(s.ledger, s.log, t.ledger, t.log,
              StoredTx(s.log.txCount + 1, StoredBurn(burner, burner), amount), lost);
  }

  lemma {:induction false} CallTells(s: C.State, call: C.Call, lost: Address -> int)
    requires Tells(s.ledger, s.log, lost) && C.Handle(s, call).Ok?
    ensures var t := C.Handle(s, call).value.state;
      Tells(t.ledger, t.log, lost)
  {
    hide Snip20.Transfer, Snip20.Mint, C.BurnHook, StoreTransfer, StoreMint, Tells;
    var t := C.Handle(s, call).value.state;
    match call.request
    case Transfer(to, amount) => TransferTells(s, call.sender, call.sender, to, amount, lost);
    case TransferFrom(owner, to, amount) =>
      var spent := Snip20.SpendAllowance(s.ledger, call.time, owner, call.sender, amount).value;
      SameTells(s.ledger, spent, s.log, lost);
      TransferTells(s.(ledger := spent), owner, call.sender, to, amount, lost);
    case Mint(to, amount) => MintTells(s, call.sender, to, amount, lost);
    case Callback(burner, amount) => BurnTells(s, burner, amount, lost);
    case _ => SameTells(s.ledger, t.ledger, t.log, lost);
  }

  lemma {:induction false} RunTells(
      admin: Address, ownAddr: Address, master: Address, entries: seq<Snip20.InitialBalance>, calls: seq<C.Call>)
    requires C.Init(admin, ownAddr, master, entries).Ok?
    requires C.Run(C.Init(admin, ownAddr, master, entries).value, calls).Ok?
    ensures var s := C.Run(C.Init(admin, ownAddr, master, entries).value, calls).value;
      Tells(s.ledger, s.log, u => T.LostBy(entries, u))
  {
    hide Tells;
    if calls == [] {
      InitialTells(admin, entries);
    } else {
      var before := calls[..|calls| - 1];
      RunTells(admin, ownAddr, master, entries, before);
      CallTells(C.Run(C.Init(admin, ownAddr, master, entries).value, before).value, calls[|calls| - 1],
                u => T.LostBy(entries, u));
    }
  }

  /** In every reachable state: collect an account's pages, drop repeated ids, and add up what it
      received, sent and burned. The result is its balance, plus what the initial balances
      overwrote for it. */
  lemma {:induction false} PagesReplayToBalance(
      admin: Address, ownAddr: Address, master: Address, entries: seq<Snip20.InitialBalance>, calls: seq<C.Call>,
      u: Address, pageSize: nat, n: nat)
    requires C.Init(admin, ownAddr, master, entries).Ok?
    requires C.Run(C.Init(admin, ownAddr, master, entries).value, calls).Ok?
    ensures var s := C.Run(C.Init(admin, ownAddr, master, entries).value, calls).value;
      && (GetTxs(s.log, u, n, pageSize).Ok? <==> u !in s.log.txs || n * pageSize < U32_LIMIT)
      && (Pages(s.log, u, pageSize, n).Ok? && n * pageSize >= |LogOf(s.log, u)| ==>
            Replay(DropRepeated(Pages(s.log, u, pageSize, n).value), u)
            == Snip20.BalanceOf(s.ledger, u) + T.LostBy(entries, u))
  {
    RunTells(admin, ownAddr, master, entries, calls);
    var s := C.Run(C.Init(admin, ownAddr, master, entries).value, calls).value;
    assert Told(s.log, u) == Snip20.BalanceOf(s.ledger, u) + T.LostBy(entries, u);
    PageIsSlice(s.log, u, n, pageSize);
    if Pages(s.log, u, pageSize, n).Ok? && n * pageSize >= |LogOf(s.log, u)| {
      PagesAreHistory(s.log, u, pageSize, n);
    }
  }

  /** In every reachable state the lists of all accounts agree on what happened: a record is in
      the lists of exactly the accounts it names. */
  lemma {:induction false} HistoriesAgree(
      admin: Address, ownAddr: Address, master: Address, entries: seq<Snip20.InitialBalance>, calls: seq<C.Call>)
    requires C.Init(admin, ownAddr, master, entries).Ok?
    requires C.Run(C.Init(admin, ownAddr, master, entries).value, calls).Ok?
    ensures var log := C.Run(C.Init(admin, ownAddr, master, entries).value, calls).value.log;
      forall u, v, tx | tx in LogOf(log, u) :: Names(tx.action, u) && (Names(tx.action, v) ==> tx in LogOf(log, v))
  {
    RunTells(admin, ownAddr, master, entries, calls);
  }

  lemma BurnsAreByOwners(tx: StoredTx)
    requires ReadsBack(tx)
    ensures var action := IntoHumanized(tx.action).value;
      action.Burn? ==> action.burner == action.owner
  {
    RoundTripIff(IntoHumanized(tx.action).value);
  }

  /** In every reachable state every record in any list is read back as what it was stored for:
      the code only ever stores burns by the owner. */
  lemma {:induction false} RecordsReadBack(
      admin: Address, ownAddr: Address, master: Address, entries: seq<Snip20.InitialBalance>, calls: seq<C.Call>)
    requires C.Init(admin, ownAddr, master, entries).Ok?
    requires C.Run(C.Init(admin, ownAddr, master, entries).value, calls).Ok?
    ensures var log := C.Run(C.Init(admin, ownAddr, master, entries).value, calls).value.log;
      forall u, tx | tx in LogOf(log, u) ::
        && IntoHumanized(tx.action).Ok?
        && var action := IntoHumanized(tx.action).value;
           && !action.Deposit? && !action.Redeem? && Stored(action) == tx.action
           && (action.Burn? ==> action.burner == action.owner)
  {
    RunTells(admin, ownAddr, master, entries, calls);
    var log := C.Run(C.Init(admin, ownAddr, master, entries).value, calls).value.log;
    forall u, tx | tx in LogOf(log, u)
      ensures ReadsBack(tx) && (IntoHumanized(tx.action).value.Burn? ==>
                IntoHumanized(tx.action).value.burner == IntoHumanized(tx.action).value.owner)
    {
      BurnsAreByOwners(tx);
    }
  }

  /** Nothing is overwritten for `u` exactly if its entries but the last are worth nothing. */
  lemma {:induction false} NothingLostForIff(entries: seq<Snip20.InitialBalance>, u: Address)
    requires Snip20.Initial(entries).Ok?
    ensures T.LostBy(entries, u) == 0
            <==> forall i, j | 0 <= i < j < |entries| && entries[i].address == u == entries[j].address ::
                   entries[i].amount == 0
    ensures T.Distinct(entries) ==> T.LostBy(entries, u) == 0
  {
    if entries != [] {
      var n := |entries| - 1;
      var before := entries[..n];
      NothingLostForIff(before, u);
      var k := T.InitialBalanceOf(before, u);
      if k >= 0 {
        assert before[k] == entries[k];
      }
      if forall i, j | 0 <= i < j < |entries| && entries[i].address == u == entries[j].address :: entries[i].amount == 0 {
        assert forall i, j | 0 <= i < j < |before| && before[i].address == u == before[j].address ::
            entries[i].amount == 0 && entries[j].address == u;
      }
      if T.LostBy(entries, u) == 0 {
        forall i, j | 0 <= i < j < |entries| && entries[i].address == u == entries[j].address
          ensures entries[i].amount == 0
        {
          assert before[i].address == u;
          if j == n {
            assert i <= k;
          } else {
            assert before[j].address == u;
          }
        }
      }
    }
  }
}
