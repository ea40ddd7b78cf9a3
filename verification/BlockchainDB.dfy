/** The database object: its tables as fields, its operations as methods that update them step by step. */
module BlockchainDB {
  import opened ChainData
  import opened Tables
  import opened BlockStore

  datatype Status = Ok | Threw(error: Error)

  /** The status and the tables a call ended with, as one value. */
  function End<S>(status: Status, s: S): Outcome<S> {
    match status
    case Ok => Done(s)
    case Threw(e) => Thrown(s, e)
  }

  class Database {
    const crypto: Crypto
    var spentKeys: set<KeyImage>
    var txIndices: map<Hash, TxIndex>
    var txsPruned: map<nat, TxBase>
    var txsPrunable: map<nat, Blob>
    var txsPrunableHash: map<nat, Hash>
    var txOutputs: map<nat, seq<nat>>
    var outputTxs: seq<OutTx>
    var outputAmounts: map<nat, seq<OutKey>>
    var blocks: seq<Block>
    var blockInfos: map<nat, BlockInfo>
    var blockHeights: map<Hash, nat>
    var spinnerHeights: map<PublicKey, nat>

    function TxView(): TxTables
      reads this
    {
      TxTables(txIndices, txsPruned, txsPrunable, txsPrunableHash, txOutputs)
    }

    function OutView(): Outputs
      reads this
    {
      Outputs(outputTxs, outputAmounts)
    }

    function LedgerView(): Ledger
      reads this
    {
      Ledger(spentKeys, TxView(), OutView())
    }

    function ChainView(): BlockTables
      reads this
    {
      BlockTables(blocks, blockInfos, blockHeights)
    }

    function View(): Store
      reads this
    {
      Store(LedgerView(), ChainView(), spinnerHeights)
    }

    constructor (c: Crypto)
      ensures crypto == c && View() == EMPTY_STORE
    {
      crypto := c;
      spentKeys, txIndices, txsPruned, txsPrunable, txsPrunableHash, txOutputs := {}, map[], map[], map[], map[], map[];
      outputTxs, outputAmounts := [], map[];
      blocks, blockInfos, blockHeights, spinnerHeights := [], map[], map[], map[];
    }

    // ----- Spent keys -----

    method AddSpentKey(k: KeyImage) returns (r: Status)
      modifies this`spentKeys
      ensures r == if k in old(spentKeys) then Threw(KeyImageExists) else Ok
      ensures spentKeys == old(spentKeys) + {k}
    {
      if k in spentKeys {
        assert spentKeys + {k} == spentKeys;
        return Threw(KeyImageExists);
      }
      spentKeys := spentKeys + {k};
      return Ok;
    }

    method RemoveSpentKey(k: KeyImage)
      modifies this`spentKeys
      ensures spentKeys == old(spentKeys) - {k}
    {
      if k in spentKeys { spentKeys := spentKeys - {k}; }
    }

    method RemoveSpentKeys(vin: seq<TxIn>)
      modifies this`spentKeys
      ensures spentKeys == RemoveInputs(vin, 0, old(spentKeys))
    {
      for i := 0 to |vin|
        invariant RemoveInputs(vin, 0, old(spentKeys)) == RemoveInputs(vin, i, spentKeys)
      {
        if vin[i].ToKey? { RemoveSpentKey(vin[i].keyImage); }
      }
    }

    /** The input loop of `add_transaction`; `stop` says the call is over, either quietly or with an exception. */
    method SpendInputs(vin: seq<TxIn>) returns (r: Status, stop: bool, gen: bool)
      modifies this`spentKeys
      ensures match AddInputs(vin, 0, old(spentKeys), false)
              case InputsDone(s, g) => r == Ok && !stop && gen == g && spentKeys == s
              case InputsDuplicate(s) => r == Threw(KeyImageExists) && stop && spentKeys == s
              case InputsAborted(s) => r == Ok && stop && spentKeys == s
    {
      gen := false;
      for i := 0 to |vin|
        invariant AddInputs(vin, 0, old(spentKeys), false) == AddInputs(vin, i, spentKeys, gen)
      {
        match vin[i]
        case ToKey(k) =>
          ghost var before := spentKeys;
          r := AddSpentKey(k);
          if r != Ok {
            assert spentKeys == before;
            return r, true, gen;
          }
        case Gen(_) =>
          gen := true;
        case OtherIn =>
          RemoveSpentKeys(vin);
          return Ok, true, gen;
      }
      return Ok, false, gen;
    }

    // ----- Outputs -----

    method AddOneOutput(hash: Hash, out: TxOut, localIndex: nat, unlockTime: nat, height: nat, commitment: Option<Key>)
      returns (r: Status, index: nat)
      modifies this`outputTxs, this`outputAmounts
      ensures End(r, OutView()) == AddOutput(old(OutView()), hash, out, localIndex, unlockTime, height, commitment)
      ensures r == Ok ==> index == |Bucket(old(OutView()), out.amount)|
    {
      index := 0;
      if out.target.OtherTarget? { return Threw(WrongOutputType), index; }
      if out.amount == 0 && commitment.None? { return Threw(MissingCommitment), index; }
      var id := NextOutputId(OutView());
      outputTxs := outputTxs + [OutTx(id, hash, localIndex)];
      var b := [];
      if out.amount in outputAmounts {
        b := outputAmounts[out.amount];
        index := |b|;
      }
      if b != [] && b[|b| - 1].amountIndex >= index { return Threw(DbError), index; }
      var entry := OutKey(index, id, out.target.key, unlockTime, height, if out.amount == 0 then commitment else None);
      outputAmounts := outputAmounts[out.amount := b + [entry]];
      return Ok, index;
    }

    method StoreOutputs(hash: Hash, tx: TxBase, gen: bool) returns (r: Status, indices: seq<nat>)
      modifies this`outputTxs, this`outputAmounts
      ensures End(r, Indexed(OutView(), indices))
           == AddOutputs(crypto, Indexed(old(OutView()), []), hash, tx, gen, |blocks|)
    {
      hide AddOutput;
      indices := [];
      ghost var start := Indexed(old(OutView()), []);
      var i := 0;
      while i < |tx.vout|
        invariant i == |indices| <= |tx.vout|
        invariant AddOutputs(crypto, start, hash, tx, gen, |blocks|)
               == AddOutputs(crypto, Indexed(OutView(), indices), hash, tx, gen, |blocks|)
      {
        var out, commitment := tx.vout[i], None;
        if gen && tx.version == 2 {
          commitment := Some(crypto.zeroCommit(out.amount));
          out := out.(amount := 0);
        } else if tx.version > 1 {
          if i >= |tx.outPk| { return Threw(UndefinedAccess), indices; }
          commitment := Some(tx.outPk[i]);
        }
        var index;
        r, index := AddOneOutput(hash, out, i, tx.unlockTime, |blocks|, commitment);
        if r != Ok { return r, indices; }
        indices := indices + [index];
        i := i + 1;
      }
      return Ok, indices;
    }

    method RemoveOneOutput(amount: nat, index: nat) returns (r: Status)
      modifies this`outputTxs, this`outputAmounts
      ensures End(r, OutView()) == RemoveOutput(old(OutView()), amount, index)
    {
      var b := if amount in outputAmounts then outputAmounts[amount] else [];
      var p := FindKey(b, index);
      if p == |b| { return Threw(OutputDne); }
      var q := FindId(outputTxs, b[p].outputId);
      if q == |outputTxs| { return Threw(DbError); }
      outputTxs := Without(outputTxs, q);
      outputAmounts := SetBucket(outputAmounts, amount, Without(b, p));
      return Ok;
    }

    method RemoveTxOutputs(tx: TxBase, indices: seq<nat>) returns (r: Status)
      modifies this`outputTxs, this`outputAmounts
      ensures End(r, OutView()) == RemoveOutputs(old(OutView()), tx, indices, |tx.vout|)
    {
      hide RemoveOutput;
      var pseudoRct := PseudoRct(tx);
      var i := |tx.vout|;
      while i > 0
        invariant 0 <= i <= |tx.vout|
        invariant RemoveOutputs(old(OutView()), tx, indices, |tx.vout|) == RemoveOutputs(OutView(), tx, indices, i)
      {
        i := i - 1;
        if i >= |indices| { return Threw(UndefinedAccess); }
        r := RemoveOneOutput(if pseudoRct then 0 else tx.vout[i].amount, indices[i]);
        if r != Ok { return r; }
      }
      return Ok;
    }

    // ----- Transactions -----

    method AddTransactionData(tx: Transaction, hash: Hash) returns (r: Status, id: nat)
      modifies this`txIndices, this`txsPruned, this`txsPrunable, this`txsPrunableHash
      ensures id == |old(txsPruned)|
      ensures End(r, TxView()) == AddTxData(crypto, old(TxView()), |blocks|, tx, hash)
    {
      id := |txsPruned|;
      if hash in txIndices { return Threw(TxExists), id; }
      txIndices := txIndices[hash := TxIndex(id, tx.base.unlockTime, |blocks|)];
      if !KnownVersion(tx.base) { return Threw(DbError), id; }
      if !CanAppend(txsPruned, id) { return Threw(DbError), id; }
      txsPruned := txsPruned[id := tx.base];
      if !CanAppend(txsPrunable, id) { return Threw(DbError), id; }
      txsPrunable := txsPrunable[id := tx.prunable];
      if tx.base.version > 1 {
        if !CanAppend(txsPrunableHash, id) { return Threw(DbError), id; }
        txsPrunableHash := txsPrunableHash[id := crypto.prunableHash(tx)];
      }
      return Ok, id;
    }

    method RemoveTransactionData(hash: Hash, tx: TxBase) returns (r: Status)
      modifies this`txIndices, this`txsPruned, this`txsPrunable, this`txsPrunableHash, this`txOutputs, this`outputTxs,
               this`outputAmounts
      ensures End(r, LedgerView()) == RemoveTxData(old(LedgerView()), hash, tx)
    {
      hide RemoveOutputs;
      if hash !in txIndices { return Threw(TxDne); }
      var id := txIndices[hash].txId;
      if id !in txsPruned { return Threw(DbError); }
      txsPruned := txsPruned - {id};
      if id in txsPrunable {
        txsPrunable := txsPrunable - {id};
      } else {
        assert txsPrunable - {id} == txsPrunable;
      }
      if tx.version > 1 {
        if id !in txsPrunableHash { return Threw(DbError); }
        txsPrunableHash := txsPrunableHash - {id};
      }
      if id !in txOutputs { return Threw(UndefinedAccess); }
      var indices := txOutputs[id];
      if indices == [] && tx.vout != [] { return Threw(DbError); }
      r := RemoveTxOutputs(tx, indices);
      if r != Ok { return r; }
      txOutputs := txOutputs - {id};
      txIndices := txIndices - {hash};
      return Ok;
    }

    method StoreOne(tx: Transaction, hash: Hash) returns (r: Status)
      modifies this`spentKeys, this`txIndices, this`txsPruned, this`txsPrunable, this`txsPrunableHash, this`txOutputs,
               this`outputTxs, this`outputAmounts
      ensures End(r, LedgerView()) == AddTransaction(crypto, old(LedgerView()), |blocks|, tx, hash)
    {
      var stop, gen;
      r, stop, gen := SpendInputs(tx.base.vin);
      if stop { return r; }
      var id;
      r, id := AddTransactionData(tx, hash);
      if r != Ok { return r; }
      var indices;
      r, indices := StoreOutputs(hash, tx.base, gen);
      if r != Ok { return r; }
      if !CanAppend(txOutputs, id) { return Threw(DbError); }
      txOutputs := txOutputs[id := indices];
      return Ok;
    }

    method RemoveOne(hash: Hash) returns (r: Status)
      modifies this`spentKeys, this`txIndices, this`txsPruned, this`txsPrunable, this`txsPrunableHash, this`txOutputs,
               this`outputTxs, this`outputAmounts
      ensures End(r, LedgerView()) == RemoveTransaction(old(LedgerView()), hash)
    {
      var tx := GetPrunedTx(TxView(), hash);
      if tx.None? { return Threw(TxDne); }
      RemoveSpentKeys(tx.value.vin);
      r := RemoveTransactionData(hash, tx.value);
    }

    // ----- Blocks -----

    method AppendBlock(a: BlockArgs, numRct: nat, hash: Hash) returns (r: Status)
      modifies this`blocks, this`blockInfos, this`blockHeights, this`spinnerHeights
      ensures End(r, View()) == PutBlock(old(View()), a, numRct, hash)
    {
      var h := |blocks|;
      if hash in blockHeights { return Threw(BlockExists); }
      if h > 0 {
        if a.blk.prevId !in blockHeights { return Threw(DbError); }
        if blockHeights[a.blk.prevId] != h - 1 { return Threw(ParentDne); }
      }
      blocks := blocks + [a.blk];
      var cum := numRct;
      if a.blk.majorVersion >= 4 {
        if h == 0 || h - 1 !in blockInfos { return Threw(BlockDne); }
        cum := cum + blockInfos[h - 1].cumRct;
      }
      if !CanAppend(blockInfos, h) { return Threw(DbError); }
      blockInfos := blockInfos[h := NewInfo(a, h, hash, cum)];
      blockHeights := blockHeights[hash := h];
      spinnerHeights := spinnerHeights[a.spinKey := h];
      return Ok;
    }

    method DropBlock() returns (r: Status)
      modifies this`blocks, this`blockInfos, this`blockHeights, this`spinnerHeights
      ensures End(r, View()) == RemoveBlock(old(View()))
    {
      var h := |blocks|;
      if h == 0 || h - 1 !in blockInfos { return Threw(BlockDne); }
      var info := blockInfos[h - 1];
      if info.hash !in blockHeights { return Threw(DbError); }
      blockHeights := blockHeights - {info.hash};
      blocks := blocks[..h - 1];
      blockInfos := blockInfos - {h - 1};
      spinnerHeights := spinnerHeights[info.spinKey := info.spinPrevHeight];
      return Ok;
    }

    /** `num_rct_outs` of one ordinary transaction. */
    method CountZeroOutputs(vout: seq<TxOut>) returns (n: nat)
      ensures n == ZeroOutputs(vout)
    {
      n := 0;
      assert vout[..|vout|] == vout;
      for i := 0 to |vout|
        invariant n == ZeroOutputs(vout[..i])
      {
        assert vout[..i + 1][..i] == vout[..i];
        if vout[i].amount == 0 { n := n + 1; }
      }
    }

    /** The public `add_block`; on success `prevHeight` is the height before the call. */
    method PushBlock(a: BlockArgs) returns (r: Status, prevHeight: nat)
      modifies this
      ensures End(r, View()) == AddBlock(crypto, old(View()), a)
      ensures prevHeight == |old(blocks)|
    {
      hide AddTransaction, PutBlock, ZeroOutputs;
      prevHeight := |blocks|;
      if |a.blk.txHashes| != |a.txs| { return Threw(InconsistentSizes), prevHeight; }
      ghost var start := LedgerView();
      var numRct := 0;
      r := StoreOne(a.blk.spinnerTx, crypto.txHash(a.blk.spinnerTx));
      if r != Ok { return r, prevHeight; }
      if a.blk.spinnerTx.base.version == 2 { numRct := numRct + |a.blk.spinnerTx.base.vout|; }
      var i := 0;
      while i < |a.txs|
        invariant 0 <= i <= |a.txs| && numRct == NumRct(a, i)
        invariant ChainView() == old(ChainView()) && spinnerHeights == old(spinnerHeights)
        invariant AddLedger(crypto, start, prevHeight, a) == AddTransactions(crypto, LedgerView(), prevHeight, a, i)
      {
        r := StoreOne(a.txs[i], a.blk.txHashes[i]);
        if r != Ok { return r, prevHeight; }
        var zeros := CountZeroOutputs(a.txs[i].base.vout);
        numRct := numRct + zeros;
        i := i + 1;
      }
      r := AppendBlock(a, numRct, crypto.blockHash(a.blk));
    }

    /** `pop_block`: gives back the top block and, last first, its ordinary transactions. */
    method Pop() returns (r: Status, blk: Option<Block>, txs: seq<Transaction>)
      modifies this
      ensures End(r, Popped(View(), blk, txs)) == PopBlock(crypto, old(View()))
    {
      hide RemoveTransaction, RemoveBlock, GetTx;
      txs := [];
      if |blocks| == 0 { return Threw(BlockDne), None, txs; }
      var top := blocks[|blocks| - 1];
      blk := Some(top);
      r := DropBlock();
      if r != Ok { return r, blk, txs; }
      ghost var start := Popping(LedgerView(), []);
      ghost var after := View();
      var i := |top.txHashes|;
      while i > 0
        invariant 0 <= i <= |top.txHashes|
        invariant ChainView() == after.chain && spinnerHeights == after.spinners
        invariant PopTransactions(start, top.txHashes, |top.txHashes|, 0)
               == PopTransactions(Popping(LedgerView(), txs), top.txHashes, i, 0)
      {
        i := i - 1;
        var tx := GetTx(TxView(), top.txHashes[i]);
        if tx.None? { return Threw(DbError), blk, txs; }
        txs := txs + [tx.value];
        r := RemoveOne(top.txHashes[i]);
        if r != Ok { return r, blk, txs; }
      }
      r := RemoveOne(crypto.txHash(top.spinnerTx));
    }
  }
}
