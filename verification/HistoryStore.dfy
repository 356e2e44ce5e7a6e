/** The storage of the transaction histories, with the tokens' steps on it. */
module HistoryStore {
  import opened Chain
  import H = History

  /** The append-only lists of records, and the counter that numbers them. */
  class Records {
    var txCount: nat
    var txs: map<Address, seq<H.StoredTx>>
    var transfers: map<Address, seq<H.StoredLegacyTransfer>>

    ghost function Model(): H.Log
      reads this
    {
      H.Log(txCount, txs, transfers)
    }

    ghost predicate Follows(expected: Result<H.Log>, r: Result<()>)
      reads this
    {
      match expected
      case Ok(log) => r == Ok(()) && Model() == log
      case Abort(error) => r == Abort(error)
    }

    constructor ()
      ensures Model() == H.Log(0, map[], map[])
    {
      txCount := 0;
      txs := map[];
      transfers := map[];
    }

    method IncrementTxCount() returns (r: Result<nat>)
      modifies this`txCount
      ensures match H.IncrementTxCount(old(Model()))
              case Ok(log) => r == Ok(log.txCount) && Model() == log
              case Abort(error) => r == Abort(error)
    {
      txCount :- Add64(txCount, 1);
      return Ok(txCount);
    }

    method AppendTx(tx: H.StoredTx, forAddress: Address)
      modifies this`txs
      ensures Model() == H.AppendTx(old(Model()), tx, forAddress)
    {
      if forAddress in txs {
        txs := txs[forAddress := txs[forAddress] + [tx]];
      } else {
        assert [] + [tx] == [tx];
        txs := txs[forAddress := [tx]];
      }
    }

    method AppendTransfer(transfer: H.StoredLegacyTransfer, forAddress: Address)
      modifies this`transfers
      ensures Model() == H.AppendTransfer(old(Model()), transfer, forAddress)
    {
      if forAddress in transfers {
        transfers := transfers[forAddress := transfers[forAddress] + [transfer]];
      } else {
        assert [] + [transfer] == [transfer];
        transfers := transfers[forAddress := [transfer]];
      }
    }

    /** gov-token's transfers, in its only list. */
    method RecordTransfer(owner: Address, sender: Address, receiver: Address, amount: nat) returns (r: Result<()>)
      modifies this
      ensures Follows(H.RecordTransfer(old(Model()), owner, sender, receiver, amount), r)
    {
      var id :- IncrementTxCount();
      var tx := H.StoredTx(id, H.StoredTransfer(owner, sender, receiver), amount);
      if owner != sender {
        AppendTx(tx, owner);
      }
      AppendTx(tx, sender);
      AppendTx(tx, receiver);
      return Ok(());
    }

    /** The cashback token's transfers, in both lists. */
    method StoreTransfer(owner: Address, sender: Address, receiver: Address, amount: nat) returns (r: Result<()>)
      modifies this
      ensures Follows(H.StoreTransfer(old(Model()), owner, sender, receiver, amount), r)
    {
      var id :- IncrementTxCount();
      var transfer := H.StoredLegacyTransfer(id, owner, sender, receiver, amount);
      var tx := H.FromStoredLegacyTransfer(transfer);
      if owner != sender {
        AppendTx(tx, owner);
        AppendTransfer(transfer, owner);
      }
      AppendTx(tx, sender);
      AppendTransfer(transfer, sender);
      AppendTx(tx, receiver);
      AppendTransfer(transfer, receiver);
      return Ok(());
    }

    method StoreMint(minter: Address, recipient: Address, amount: nat) returns (r: Result<()>)
      modifies this
      ensures Follows(H.StoreMint(old(Model()), minter, recipient, amount), r)
    {
      var id :- IncrementTxCount();
      var tx := H.StoredTx(id, H.StoredMint(minter, recipient), amount);
      if minter != recipient {
        AppendTx(tx, recipient);
      }
      AppendTx(tx, minter);
      return Ok(());
    }

    method StoreBurn(owner: Address, burner: Address, amount: nat) returns (r: Result<()>)
      modifies this
      ensures Follows(H.StoreBurn(old(Model()), owner, burner, amount), r)
    {
      var id :- IncrementTxCount();
      var tx := H.StoredTx(id, H.StoredBurn(owner, burner), amount);
      if burner != owner {
        AppendTx(tx, owner);
      }
      AppendTx(tx, burner);
      return Ok(());
    }
  }
}
