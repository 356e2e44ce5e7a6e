/** The transaction histories of the tokens: append-only lists per account, read back newest first
    in pages. The cashback token keeps every transaction, and transfers once more in a list of
    their own; gov-token keeps only transfers. */
module History {
  import opened Chain

  const U32_LIMIT: nat := 0x1_0000_0000

  datatype TxAction =
    | Transfer(from: Address, sender: Address, recipient: Address)
    | Mint(minter: Address, recipient: Address)
    | Burn(burner: Address, owner: Address)
    | Deposit
    | Redeem

  /** An action as storage keeps it: a code and up to three addresses. */
  datatype StoredTxAction = StoredTxAction(
    txType: nat, address1: Option<Address>, address2: Option<Address>, address3: Option<Address>)

  datatype StoredTx = StoredTx(id: nat, action: StoredTxAction, amount: nat)

  datatype RichTx = RichTx(id: nat, action: TxAction, amount: nat)

  /** A transfer as the second list keeps it, in which there are only transfers. */
  datatype StoredLegacyTransfer = StoredLegacyTransfer(
    id: nat, from: Address, sender: Address, receiver: Address, amount: nat)

  datatype Log = Log(
    txCount: nat,
    txs: map<Address, seq<StoredTx>>,
    transfers: map<Address, seq<StoredLegacyTransfer>>)

  function StoredTransfer(from: Address, sender: Address, recipient: Address): StoredTxAction {
    StoredTxAction(0, Some(from), Some(sender), Some(recipient))
  }

  function StoredMint(minter: Address, recipient: Address): StoredTxAction {
    StoredTxAction(1, Some(minter), Some(recipient), None)
  }

  function StoredBurn(owner: Address, burner: Address): StoredTxAction {
    StoredTxAction(2, Some(owner), Some(burner), None)
  }

  function Required(address: Option<Address>): Result<Address> {
    match address
    case Some(a) => Ok(a)
    case None => Abort(Malformed)
  }

  /** Fields that the code does not expect are ignored. */
  function IntoHumanized(a: StoredTxAction): Result<TxAction> {
    if a.txType == 0 then
      var from :- Required(a.address1);
      var sender :- Required(a.address2);
      var recipient :- Required(a.address3);
      Ok(Transfer(from, sender, recipient))
    else if a.txType == 1 then
      var minter :- Required(a.address1);
      var recipient :- Required(a.address2);
      Ok(Mint(minter, recipient))
    else if a.txType == 2 then
      var burner :- Required(a.address1);
      var owner :- Required(a.address2);
      Ok(Burn(burner, owner))
    else if a.txType == 3 then Ok(Deposit)
    else if a.txType == 4 then Ok(Redeem)
    else Abort(Malformed)
  }

  function Read(tx: StoredTx): Result<RichTx> {
    var action :- IntoHumanized(tx.action);
    Ok(RichTx(tx.id, action, tx.amount))
  }

  function LogOf(log: Log, u: Address): seq<StoredTx> {
    if u in log.txs then log.txs[u] else []
  }

  function AppendTx(log: Log, tx: StoredTx, u: Address): Log {
    log.(txs := log.txs[u := LogOf(log, u) + [tx]])
  }

  function IncrementTxCount(log: Log): Result<Log> {
    var id :- Add64(log.txCount, 1);
    Ok(log.(txCount := id))
  }

  function TransfersOf(log: Log, u: Address): seq<StoredLegacyTransfer> {
    if u in log.transfers then log.transfers[u] else []
  }

  function AppendTransfer(log: Log, transfer: StoredLegacyTransfer, u: Address): Log {
    log.(transfers := log.transfers[u := TransfersOf(log, u) + [transfer]])
  }

  function FromStoredLegacyTransfer(transfer: StoredLegacyTransfer): StoredTx {
    StoredTx(transfer.id, StoredTransfer(transfer.from, transfer.sender, transfer.receiver), transfer.amount)
  }

  /** The owner gets a record of her own only when somebody else spent for her. */
  function RecordTransfer(log: Log, owner: Address, sender: Address, receiver: Address, amount: nat): Result<Log> {
    var counted :- IncrementTxCount(log);
    var tx := StoredTx(counted.txCount, StoredTransfer(owner, sender, receiver), amount);
    var forOwner := if owner != sender then AppendTx(counted, tx, owner) else counted;
    Ok(AppendTx(AppendTx(forOwner, tx, sender), tx, receiver))
  }

  /** The same transfer in both lists of everybody it names. */
  function StoreTransfer(log: Log, owner: Address, sender: Address, receiver: Address, amount: nat): Result<Log> {
    var recorded :- RecordTransfer(log, owner, sender, receiver, amount);
    var transfer := StoredLegacyTransfer(recorded.txCount, owner, sender, receiver, amount);
    var forOwner := if owner != sender then AppendTransfer(recorded, transfer, owner) else recorded;
    Ok(AppendTransfer(AppendTransfer(forOwner, transfer, sender), transfer, receiver))
  }

  function StoreMint(log: Log, minter: Address, recipient: Address, amount: nat): Result<Log> {
    var counted :- IncrementTxCount(log);
    var tx := StoredTx(counted.txCount, StoredMint(minter, recipient), amount);
    var forRecipient := if minter != recipient then AppendTx(counted, tx, recipient) else counted;
    Ok(AppendTx(forRecipient, tx, minter))
  }

  function StoreBurn(log: Log, owner: Address, burner: Address, amount: nat): Result<Log> {
    var counted :- IncrementTxCount(log);
    var tx := StoredTx(counted.txCount, StoredBurn(owner, burner), amount);
    var forOwner := if burner != owner then AppendTx(counted, tx, owner) else counted;
    Ok(AppendTx(forOwner, tx, burner))
  }

  function Reversed(s: seq<StoredTx>): seq<StoredTx> {
    seq(|s|, i requires 0 <= i < |s| => s[|s| - 1 - i])
  }

  function Min(a: nat, b: nat): nat {
    if a <= b then a else b
  }

  function SkipTake(s: seq<StoredTx>, skip: nat, take: nat): seq<StoredTx> {
    s[Min(skip, |s|)..Min(skip + take, |s|)]
  }

  /** One unreadable record fails the whole page. */
  function ReadAll(txs: seq<StoredTx>): Result<seq<RichTx>> {
    if txs == [] then Ok([])
    else
      var before :- ReadAll(txs[..|txs| - 1]);
      var last :- Read(txs[|txs| - 1]);
      Ok(before + [last])
  }

  /** A page and the length of the whole list. The offset is computed in 32 bits. */
  function GetTxs(log: Log, u: Address, page: nat, pageSize: nat): Result<(seq<RichTx>, nat)> {
    if u !in log.txs then Ok(([], 0))
    else if page * pageSize >= U32_LIMIT then Abort(Arithmetic)
    else
      var txs :- ReadAll(SkipTake(Reversed(log.txs[u]), page * pageSize, pageSize));
      Ok((txs, |log.txs[u]|))
  }
}
