/** The lists of records read off what happened, in order: each account's list is what happened to
    it, numbered through for all accounts together. */
module LogHistory {
  import opened Chain
  import opened History
  import opened HistoryReplay

  datatype Happened = Happened(action: TxAction, amount: nat)

  /** How often a record appears in an account's list: once for having sent or spent, once more
      for having received a transfer, and once for a mint or a burn it has to do with. */
  function CopiesFor(action: TxAction, u: Address): nat {
    match action
    case Transfer(from, sender, recipient) => (if u in {from, sender} then 1 else 0) + (if u == recipient then 1 else 0)
    case Mint(minter, recipient) => if u in {minter, recipient} then 1 else 0
    case Burn(burner, owner) => if u in {burner, owner} then 1 else 0
    case _ => 0
  }

  predicate Recordable(happened: seq<Happened>) {
    forall i | 0 <= i < |happened| :: !happened[i].action.Deposit? && !happened[i].action.Redeem?
  }

  function ListOf(happened: seq<Happened>, u: Address): seq<StoredTx>
    requires Recordable(happened)
  {
    if happened == [] then []
    else
      var last := happened[|happened| - 1];
      ListOf(happened[..|happened| - 1], u)
      + seq(CopiesFor(last.action, u), _ => StoredTx(|happened|, Stored(last.action), last.amount))
  }

  ghost predicate LogAgrees(happened: seq<Happened>, log: Log) {
    && Recordable(happened) && log.txCount == |happened|
    && forall u :: LogOf(log, u) == ListOf(happened, u)
  }

  lemma NoRecords()
    ensures LogAgrees([], Log(0, map[], map[]))
  {
  }

  lemma ListGrows(happened: seq<Happened>, h: Happened, u: Address)
    requires Recordable(happened) && !h.action.Deposit? && !h.action.Redeem?
    ensures Recordable(happened + [h])
    ensures ListOf(happened + [h], u)
            == ListOf(happened, u) + seq(CopiesFor(h.action, u), _ => StoredTx(|happened| + 1, Stored(h.action), h.amount))
  {
    assert (happened + [h])[..|happened|] == happened;
  }

  /** One more record, as often in each list as it should be. */
  ghost predicate Adds(log: Log, after: Log, h: Happened)
    requires !h.action.Deposit? && !h.action.Redeem?
  {
    && after.txCount == log.txCount + 1
    && forall u ::
         LogOf(after, u)
         == LogOf(log, u) + seq(CopiesFor(h.action, u), _ => StoredTx(log.txCount + 1, Stored(h.action), h.amount))
  }

  lemma AddsAgrees(happened: seq<Happened>, log: Log, after: Log, h: Happened)
    requires LogAgrees(happened, log) && !h.action.Deposit? && !h.action.Redeem? && Adds(log, after, h)
    ensures LogAgrees(happened + [h], after)
  {
    hide ListOf, CopiesFor, Stored, LogOf;
    assert Recordable(happened + [h]);
    forall u
      ensures LogOf(after, u) == ListOf(happened + [h], u)
    {
      ListGrows(happened, h, u);
    }
  }

  lemma Twice<T>(s: seq<T>, x: T)
    ensures s + [x] + [x] == s + seq(2, _ => x)
    ensures s + [x] == s + seq(1, _ => x)
    ensures s == s + seq(0, _ => x)
  {
  }

  lemma RecordOne(log: Log, owner: Address, sender: Address, receiver: Address, amount: nat, u: Address)
    requires RecordTransfer(log, owner, sender, receiver, amount).Ok?
    ensures LogOf(RecordTransfer(log, owner, sender, receiver, amount).value, u)
            == LogOf(log, u) + seq(CopiesFor(Transfer(owner, sender, receiver), u),
                                   _ => StoredTx(log.txCount + 1, Stored(Transfer(owner, sender, receiver)), amount))
  {
    Twice(LogOf(log, u), StoredTx(log.txCount + 1, Stored(Transfer(owner, sender, receiver)), amount));
  }

  lemma RecordAgrees(happened: seq<Happened>, log: Log, owner: Address, sender: Address, receiver: Address, amount: nat)
    requires LogAgrees(happened, log)
    ensures var r := RecordTransfer(log, owner, sender, receiver, amount);
      && (r.Ok? <==> |happened| + 1 < U64_LIMIT)
      && (r.Ok? ==> LogAgrees(happened + [Happened(Transfer(owner, sender, receiver), amount)], r.value))
  {
    var r := RecordTransfer(log, owner, sender, receiver, amount);
    if r.Ok? {
      assert r.value.txCount == log.txCount + 1;
      hide RecordTransfer, LogAgrees;
      forall u
        ensures LogOf(r.value, u)
                == LogOf(log, u) + seq(CopiesFor(Transfer(owner, sender, receiver), u),
                                       _ => StoredTx(log.txCount + 1, Stored(Transfer(owner, sender, receiver)), amount))
      {
        RecordOne(log, owner, sender, receiver, amount, u);
      }
      AddsAgrees(happened, log, r.value, Happened(Transfer(owner, sender, receiver), amount));
    }
  }

  lemma SameLog(happened: seq<Happened>, log: Log, after: Log)
    requires LogAgrees(happened, log) && after.txs == log.txs && after.txCount == log.txCount
    ensures LogAgrees(happened, after)
  {
    hide ListOf;
    assert forall u :: LogOf(after, u) == LogOf(log, u);
  }

  lemma StoreAgrees(happened: seq<Happened>, log: Log, owner: Address, sender: Address, receiver: Address, amount: nat)
    requires LogAgrees(happened, log)
    ensures var r := StoreTransfer(log, owner, sender, receiver, amount);
      && (r.Ok? <==> |happened| + 1 < U64_LIMIT)
      && (r.Ok? ==> LogAgrees(happened + [Happened(Transfer(owner, sender, receiver), amount)], r.value))
  {
    hide RecordTransfer, LogAgrees;
    RecordAgrees(happened, log, owner, sender, receiver, amount);
    if |happened| + 1 < U64_LIMIT {
      SameLog(happened + [Happened(Transfer(owner, sender, receiver), amount)],
              RecordTransfer(log, owner, sender, receiver, amount).value,
              StoreTransfer(log, owner, sender, receiver, amount).value);
    }
  }

  lemma MintAgrees(happened: seq<Happened>, log: Log, minter: Address, recipient: Address, amount: nat)
    requires LogAgrees(happened, log)
    ensures var r := StoreMint(log, minter, recipient, amount);
      && (r.Ok? <==> |happened| + 1 < U64_LIMIT)
      && (r.Ok? ==> LogAgrees(happened + [Happened(Mint(minter, recipient), amount)], r.value))
  {
    hide ListOf;
    var r := StoreMint(log, minter, recipient, amount);
    if r.Ok? {
      forall u
        ensures LogOf(r.value, u)
                == LogOf(log, u) + seq(CopiesFor(Mint(minter, recipient), u),
                                       _ => StoredTx(log.txCount + 1, Stored(Mint(minter, recipient)), amount))
      {
        Twice(LogOf(log, u), StoredTx(log.txCount + 1, Stored(Mint(minter, recipient)), amount));
      }
      AddsAgrees(happened, log, r.value, Happened(Mint(minter, recipient), amount));
    }
  }

  lemma BurnAgrees(happened: seq<Happened>, log: Log, burner: Address, amount: nat)
    requires LogAgrees(happened, log)
    ensures var r := StoreBurn(log, burner, burner, amount);
      && (r.Ok? <==> |happened| + 1 < U64_LIMIT)
      && (r.Ok? ==> LogAgrees(happened + [Happened(Burn(burner, burner), amount)], r.value))
  {
    hide ListOf;
    var r := StoreBurn(log, burner, burner, amount);
    if r.Ok? {
      forall u
        ensures LogOf(r.value, u)
                == LogOf(log, u) + seq(CopiesFor(Burn(burner, burner), u),
                                       _ => StoredTx(log.txCount + 1, Stored(Burn(burner, burner)), amount))
      {
        Twice(LogOf(log, u), StoredTx(log.txCount + 1, Stored(Burn(burner, burner)), amount));
      }
      AddsAgrees(happened, log, r.value, Happened(Burn(burner, burner), amount));
    }
  }
}
