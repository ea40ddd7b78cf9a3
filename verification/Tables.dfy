/**
  The storage tables and the primitives that update them, as values.

  A table with integer keys that is only appended to at the end is still a table of (key, value)
  pairs: removal names a key, wherever it sits.  That removals always meet the last entry is
  proved, not built in.
 */
module Tables {
  import opened ChainData

  datatype OutTx = OutTx(outputId: nat, txHash: Hash, localIndex: nat)

  datatype OutKey = OutKey(amountIndex: nat, outputId: nat, pubkey: PublicKey, unlockTime: nat, height: nat,
                           commitment: Option<Key>)

  /** `output_txs` in order of output id, and `output_amounts`: for each amount its entries in order of amount index. */
  datatype Outputs = Outputs(txs: seq<OutTx>, amounts: map<nat, seq<OutKey>>)

  datatype TxIndex = TxIndex(txId: nat, unlockTime: nat, blockId: nat)

  datatype TxTables = TxTables(
    indices: map<Hash, TxIndex>, pruned: map<nat, TxBase>, prunable: map<nat, Blob>,
    prunableHash: map<nat, Hash>, outputIndices: map<nat, seq<nat>>)

  /** Everything a transaction touches. */
  datatype Ledger = Ledger(spent: set<KeyImage>, txs: TxTables, outs: Outputs)

  datatype BlockInfo = BlockInfo(
    height: nat, timestamp: nat, coins: nat, weight: nat, gyro: nat, hash: Hash,
    spinKey: PublicKey, spinPrevHeight: nat, cumRct: nat, longTermWeight: nat)

  datatype BlockTables = BlockTables(blocks: seq<Block>, infos: map<nat, BlockInfo>, heights: map<Hash, nat>)

  datatype Store = Store(ledger: Ledger, chain: BlockTables, spinners: map<PublicKey, nat>)

  const EMPTY_LEDGER := Ledger({}, TxTables(map[], map[], map[], map[], map[]), Outputs([], map[]))
  const EMPTY_STORE := Store(EMPTY_LEDGER, BlockTables([], map[], map[]), map[])

  /** Appending at key `k` is refused unless `k` is past every key of the table. */
  predicate CanAppend<T>(m: map<nat, T>, k: nat) {
    forall i | i in m.Keys :: i < k
  }

  // ----- Spent keys -----

  datatype InputsResult =
    | InputsDone(spent: set<KeyImage>, gen: bool)
    | InputsDuplicate(spent: set<KeyImage>)
    | InputsAborted(spent: set<KeyImage>)

  /** The loop over the inputs of a new transaction, from input `i` on. */
  function AddInputs(vin: seq<TxIn>, i: nat, spent: set<KeyImage>, gen: bool): InputsResult
    requires i <= |vin|
    decreases |vin| - i
  {
    if i == |vin| then InputsDone(spent, gen)
    else match vin[i]
      case ToKey(k) => if k in spent then InputsDuplicate(spent) else AddInputs(vin, i + 1, spent + {k}, gen)
      case Gen(_) => AddInputs(vin, i + 1, spent, true)
      case OtherIn => InputsAborted(RemoveInputs(vin, 0, spent))
  }

  /** The loop that removes the key images of the inputs, from input `i` on; an absent image is skipped. */
  function RemoveInputs(vin: seq<TxIn>, i: nat, spent: set<KeyImage>): set<KeyImage>
    requires i <= |vin|
    decreases |vin| - i
  {
    if i == |vin| then spent
    else RemoveInputs(vin, i + 1, if vin[i].ToKey? then spent - {vin[i].keyImage} else spent)
  }

  // ----- Outputs -----

  function Bucket(o: Outputs, amount: nat): seq<OutKey> {
    if amount in o.amounts then o.amounts[amount] else []
  }

  /** A table key without entries does not exist. */
  function SetBucket(m: map<nat, seq<OutKey>>, amount: nat, b: seq<OutKey>): map<nat, seq<OutKey>> {
    if b == [] then m - {amount} else m[amount := b]
  }

  /** One past the last output id. */
  function NextOutputId(o: Outputs): nat {
    if o.txs == [] then 0 else o.txs[|o.txs| - 1].outputId + 1
  }

  function AddOutput(o: Outputs, hash: Hash, out: TxOut, localIndex: nat, unlockTime: nat, height: nat,
                     commitment: Option<Key>): Outcome<Outputs>
  {
    if out.target.OtherTarget? then Thrown(o, WrongOutputType)
    else if out.amount == 0 && commitment.None? then Thrown(o, MissingCommitment)
    else
      var id := NextOutputId(o);
      var o1 := o.(txs := o.txs + [OutTx(id, hash, localIndex)]);
      var b := Bucket(o, out.amount);
      if b != [] && b[|b| - 1].amountIndex >= |b| then Thrown(o1, DbError)
      else
        var entry := OutKey(|b|, id, out.target.key, unlockTime, height, if out.amount == 0 then commitment else None);
        Done(o1.(amounts := o.amounts[out.amount := b + [entry]]))
  }

  function FindKey(b: seq<OutKey>, index: nat): (p: nat)
    ensures p <= |b|
    ensures p < |b| ==> b[p].amountIndex == index
  {
    if b == [] then 0 else if b[0].amountIndex == index then 0 else 1 + FindKey(b[1..], index)
  }

  function FindId(s: seq<OutTx>, id: nat): (p: nat)
    ensures p <= |s|
    ensures p < |s| ==> s[p].outputId == id
  {
    if s == [] then 0 else if s[0].outputId == id then 0 else 1 + FindId(s[1..], id)
  }

  function Without<T>(s: seq<T>, p: nat): seq<T>
    requires p < |s|
  {
    s[..p] + s[p + 1..]
  }

  function RemoveOutput(o: Outputs, amount: nat, index: nat): Outcome<Outputs> {
    var b := Bucket(o, amount);
    var p := FindKey(b, index);
    if p == |b| then Thrown(o, OutputDne)
    else
      var q := FindId(o.txs, b[p].outputId);
      if q == |o.txs| then Thrown(o, DbError)
      else Done(Outputs(Without(o.txs, q), SetBucket(o.amounts, amount, Without(b, p))))
  }

  /** How `add_transaction` treats a transaction: `gen` says whether one of its inputs is a gen input. */
  predicate StoredAsRct(tx: TxBase, gen: bool) {
    gen && tx.version == 2
  }

  /** How `remove_tx_outputs` decides the same question. */
  predicate PseudoRct(tx: TxBase) {
    tx.version >= 2 && |tx.vin| == 1 && tx.vin[0].Gen?
  }

  function StoredAmount(tx: TxBase, gen: bool, i: nat): nat
    requires i < |tx.vout|
  {
    if StoredAsRct(tx, gen) then 0 else tx.vout[i].amount
  }

  function RemovedAmount(tx: TxBase, i: nat): nat
    requires i < |tx.vout|
  {
    if PseudoRct(tx) then 0 else tx.vout[i].amount
  }

  /** The output as it is stored, and its commitment; no result where the mask lies outside `outPk`. */
  function StoredOutput(c: Crypto, tx: TxBase, gen: bool, i: nat): Option<(TxOut, Option<Key>)>
    requires i < |tx.vout|
  {
    if StoredAsRct(tx, gen) then Some((tx.vout[i].(amount := 0), Some(c.zeroCommit(tx.vout[i].amount))))
    else if tx.version <= 1 then Some((tx.vout[i], None))
    else if i < |tx.outPk| then Some((tx.vout[i], Some(tx.outPk[i])))
    else None
  }

  datatype Indexed = Indexed(outs: Outputs, indices: seq<nat>)

  function StoreOutput(c: Crypto, o: Outputs, hash: Hash, tx: TxBase, gen: bool, height: nat, i: nat): Outcome<Outputs>
    requires i < |tx.vout|
  {
    match StoredOutput(c, tx, gen, i)
    case None => Thrown(o, UndefinedAccess)
    case Some((out, commitment)) => AddOutput(o, hash, out, i, tx.unlockTime, height, commitment)
  }

  /** The loop over the outputs of a new transaction, from output `|s.indices|` on. */
  function AddOutputs(c: Crypto, s: Indexed, hash: Hash, tx: TxBase, gen: bool, height: nat): Outcome<Indexed>
    requires |s.indices| <= |tx.vout|
    decreases |tx.vout| - |s.indices|
  {
    var i := |s.indices|;
    if i == |tx.vout| then Done(s)
    else match StoreOutput(c, s.outs, hash, tx, gen, height, i)
      case Thrown(o, e) => Thrown(s.(outs := o), e)
      case Done(o) =>
        AddOutputs(c, Indexed(o, s.indices + [|Bucket(s.outs, StoredAmount(tx, gen, i))|]), hash, tx, gen, height)
  }

  /** The loop that removes outputs `i - 1` down to 0. */
  function RemoveOutputs(o: Outputs, tx: TxBase, indices: seq<nat>, i: nat): Outcome<Outputs>
    requires i <= |tx.vout|
    decreases i
  {
    if i == 0 then Done(o)
    else if i > |indices| then Thrown(o, UndefinedAccess)
    else match RemoveOutput(o, RemovedAmount(tx, i - 1), indices[i - 1])
      case Thrown(o', e) => Thrown(o', e)
      case Done(o') => RemoveOutputs(o', tx, indices, i - 1)
  }

  // ----- Transaction tables -----

  const CURRENT_TRANSACTION_VERSION := 2

  /** The versions that can be serialised. */
  predicate KnownVersion(tx: TxBase) {
    0 < tx.version <= CURRENT_TRANSACTION_VERSION
  }

  function AddTxData(c: Crypto, t: TxTables, height: nat, tx: Transaction, hash: Hash): Outcome<TxTables> {
    var id := |t.pruned|;
    if hash in t.indices then Thrown(t, TxExists)
    else
      var t1 := t.(indices := t.indices[hash := TxIndex(id, tx.base.unlockTime, height)]);
      if !KnownVersion(tx.base) || !CanAppend(t.pruned, id) then Thrown(t1, DbError)
      else
        var t2 := t1.(pruned := t.pruned[id := tx.base]);
        if !CanAppend(t.prunable, id) then Thrown(t2, DbError)
        else
          var t3 := t2.(prunable := t.prunable[id := tx.prunable]);
          if tx.base.version <= 1 then Done(t3)
          else if !CanAppend(t.prunableHash, id) then Thrown(t3, DbError)
          else Done(t3.(prunableHash := t.prunableHash[id := c.prunableHash(tx)]))
  }

  function AddOutputIndices(t: TxTables, id: nat, indices: seq<nat>): Outcome<TxTables> {
    if CanAppend(t.outputIndices, id) then Done(t.(outputIndices := t.outputIndices[id := indices]))
    else Thrown(t, DbError)
  }

  function GetPrunedTx(t: TxTables, hash: Hash): Option<TxBase> {
    if hash in t.indices && t.indices[hash].txId in t.pruned then Some(t.pruned[t.indices[hash].txId]) else None
  }

  /** `get_tx`, falling back on `get_pruned_tx`, whose result has no prunable part. */
  function GetTx(t: TxTables, hash: Hash): Option<Transaction> {
    match GetPrunedTx(t, hash)
    case None => None
    case Some(base) =>
      var id := t.indices[hash].txId;
      Some(Transaction(base, if id in t.prunable then t.prunable[id] else 0))
  }

  /** The four tables keyed by transaction id, cleared before the outputs are removed. */
  function DropTxRows(t: TxTables, id: nat, tx: TxBase): Outcome<TxTables> {
    if id !in t.pruned then Thrown(t, DbError)
    else
      var t1 := t.(pruned := t.pruned - {id}, prunable := t.prunable - {id});
      if tx.version <= 1 then Done(t1)
      else if id !in t.prunableHash then Thrown(t1, DbError)
      else Done(t1.(prunableHash := t.prunableHash - {id}))
  }

  function RemoveTxData(l: Ledger, hash: Hash, tx: TxBase): Outcome<Ledger> {
    if hash !in l.txs.indices then Thrown(l, TxDne)
    else
      var id := l.txs.indices[hash].txId;
      match DropTxRows(l.txs, id, tx)
      case Thrown(t, e) => Thrown(l.(txs := t), e)
      case Done(t) =>
        var l1 := l.(txs := t);
        if id !in t.outputIndices then Thrown(l1, UndefinedAccess)
        else if t.outputIndices[id] == [] && tx.vout != [] then Thrown(l1, DbError)
        else match RemoveOutputs(l.outs, tx, t.outputIndices[id], |tx.vout|)
          case Thrown(o, e) => Thrown(l1.(outs := o), e)
          case Done(o) =>
            Done(Ledger(l.spent, t.(outputIndices := t.outputIndices - {id}, indices := t.indices - {hash}), o))
  }

  // ----- Blocks -----

  function Height(t: BlockTables): nat { |t.blocks| }

  /** `get_spinner_height`: 0 for a spinner without an entry. */
  function SpinnerHeight(spinners: map<PublicKey, nat>, key: PublicKey): nat {
    if key in spinners then spinners[key] else 0
  }

  function NewInfo(a: BlockArgs, height: nat, hash: Hash, cumRct: nat): BlockInfo {
    BlockInfo(height, a.blk.timestamp, a.coins, a.weight, a.gyro, hash, a.spinKey, a.spinPrevHeight, cumRct,
              a.longTermWeight)
  }

  /** The low-level `add_block`. */
  function PutBlock(s: Store, a: BlockArgs, numRct: nat, hash: Hash): Outcome<Store> {
    var t := s.chain;
    var h := Height(t);
    if hash in t.heights then Thrown(s, BlockExists)
    else if h > 0 && a.blk.prevId !in t.heights then Thrown(s, DbError)
    else if h > 0 && t.heights[a.blk.prevId] + 1 != h then Thrown(s, ParentDne)
    else
      var s1 := s.(chain := t.(blocks := t.blocks + [a.blk]));
      if a.blk.majorVersion >= 4 && (h == 0 || h - 1 !in t.infos) then Thrown(s1, BlockDne)
      else
        var cum := numRct + if a.blk.majorVersion >= 4 then t.infos[h - 1].cumRct else 0;
        if !CanAppend(t.infos, h) then Thrown(s1, DbError)
        else Done(Store(s.ledger,
                        BlockTables(t.blocks + [a.blk], t.infos[h := NewInfo(a, h, hash, cum)], t.heights[hash := h]),
                        s.spinners[a.spinKey := h]))
  }

  /** `remove_block`: the spinner's entry goes back to the height recorded with the block. */
  function RemoveBlock(s: Store): Outcome<Store> {
    var t := s.chain;
    var h := Height(t);
    if h == 0 || h - 1 !in t.infos then Thrown(s, BlockDne)
    else
      var info := t.infos[h - 1];
      if info.hash !in t.heights then Thrown(s, DbError)
      else Done(Store(s.ledger,
                      BlockTables(t.blocks[..h - 1], t.infos - {h - 1}, t.heights - {info.hash}),
                      s.spinners[info.spinKey := info.spinPrevHeight]))
  }
}
