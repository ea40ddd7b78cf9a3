/** Adding and removing transactions and blocks, as functions on the tables. */
module BlockStore {
  import opened ChainData
  import opened Tables

  /** `add_transaction`.  An unsupported input ends the call quietly, with nothing stored. */
  function AddTransaction(c: Crypto, l: Ledger, height: nat, tx: Transaction, hash: Hash): Outcome<Ledger> {
    match AddInputs(tx.base.vin, 0, l.spent, false)
    case InputsDuplicate(spent) => Thrown(l.(spent := spent), KeyImageExists)
    case InputsAborted(spent) => Done(l.(spent := spent))
    case InputsDone(spent, gen) => StoreTransaction(c, l.(spent := spent), height, tx, hash, gen)
  }

  /** The part of `add_transaction` after its inputs. */
  function StoreTransaction(c: Crypto, l: Ledger, height: nat, tx: Transaction, hash: Hash, gen: bool): Outcome<Ledger>
  {
    match AddTxData(c, l.txs, height, tx, hash)
    case Thrown(t, e) => Thrown(l.(txs := t), e)
    case Done(t) =>
      match AddOutputs(c, Indexed(l.outs, []), hash, tx.base, gen, height)
      case Thrown(s, e) => Thrown(Ledger(l.spent, t, s.outs), e)
      case Done(s) =>
        match AddOutputIndices(t, |l.txs.pruned|, s.indices)
        case Thrown(t', e) => Thrown(Ledger(l.spent, t', s.outs), e)
        case Done(t') => Done(Ledger(l.spent, t', s.outs))
  }

  /** `remove_transaction`. */
  function RemoveTransaction(l: Ledger, hash: Hash): Outcome<Ledger> {
    match GetPrunedTx(l.txs, hash)
    case None => Thrown(l, TxDne)
    case Some(tx) => RemoveTxData(l.(spent := RemoveInputs(tx.vin, 0, l.spent)), hash, tx)
  }

  /** The loop of `add_block` over the ordinary transactions, from number `i` on. */
  function AddTransactions(c: Crypto, l: Ledger, height: nat, a: BlockArgs, i: nat): Outcome<Ledger>
    requires i <= |a.txs| == |a.blk.txHashes|
    decreases |a.txs| - i
  {
    if i == |a.txs| then Done(l)
    else match AddTransaction(c, l, height, a.txs[i], a.blk.txHashes[i])
      case Thrown(l', e) => Thrown(l', e)
      case Done(l') => AddTransactions(c, l', height, a, i + 1)
  }

  /** How many of `vout` have amount 0. */
  function ZeroOutputs(vout: seq<TxOut>): (n: nat)
    ensures n <= |vout|
  {
    if vout == [] then 0
    else ZeroOutputs(vout[..|vout| - 1]) + if vout[|vout| - 1].amount == 0 then 1 else 0
  }

  /** `num_rct_outs` once the first `i` ordinary transactions are in. */
  function NumRct(a: BlockArgs, i: nat): nat
    requires i <= |a.txs|
  {
    if i == 0 then if a.blk.spinnerTx.base.version == 2 then |a.blk.spinnerTx.base.vout| else 0
    else NumRct(a, i - 1) + ZeroOutputs(a.txs[i - 1].base.vout)
  }

  /** All the transactions of the block, spinner first. */
  function AddLedger(c: Crypto, l: Ledger, height: nat, a: BlockArgs): Outcome<Ledger>
    requires |a.txs| == |a.blk.txHashes|
  {
    match AddTransaction(c, l, height, a.blk.spinnerTx, c.txHash(a.blk.spinnerTx))
    case Thrown(l', e) => Thrown(l', e)
    case Done(l') => AddTransactions(c, l', height, a, 0)
  }

  /** The public `add_block`. */
  function AddBlock(c: Crypto, s: Store, a: BlockArgs): Outcome<Store> {
    if |a.txs| != |a.blk.txHashes| then Thrown(s, InconsistentSizes)
    else match AddLedger(c, s.ledger, Height(s.chain), a)
      case Thrown(l, e) => Thrown(s.(ledger := l), e)
      case Done(l) => PutBlock(s.(ledger := l), a, NumRct(a, |a.txs|), c.blockHash(a.blk))
  }

  /** A ledger and the transactions given back so far. */
  datatype Popping = Popping(ledger: Ledger, txs: seq<Transaction>)

  /** The loop of `pop_block`: removes transactions `i - 1` down to `j`. */
  function PopTransactions(p: Popping, hashes: seq<Hash>, i: nat, j: nat): Outcome<Popping>
    requires j <= i <= |hashes|
    decreases i
  {
    if i == j then Done(p)
    else match GetTx(p.ledger.txs, hashes[i - 1])
      case None => Thrown(p, DbError)
      case Some(tx) =>
        match RemoveTransaction(p.ledger, hashes[i - 1])
        case Thrown(l, e) => Thrown(Popping(l, p.txs + [tx]), e)
        case Done(l) => PopTransactions(Popping(l, p.txs + [tx]), hashes, i - 1, j)
  }

  /** What `pop_block` leaves behind, and its two results. */
  datatype Popped = Popped(store: Store, blk: Option<Block>, txs: seq<Transaction>)

  function PopBlock(c: Crypto, s: Store): Outcome<Popped> {
    if Height(s.chain) == 0 then Thrown(Popped(s, None, []), BlockDne)
    else
      var blk := s.chain.blocks[Height(s.chain) - 1];
      match RemoveBlock(s)
      case Thrown(s1, e) => Thrown(Popped(s1, Some(blk), []), e)
      case Done(s1) =>
        match PopTransactions(Popping(s1.ledger, []), blk.txHashes, |blk.txHashes|, 0)
        case Thrown(p, e) => Thrown(Popped(s1.(ledger := p.ledger), Some(blk), p.txs), e)
        case Done(p) =>
          match RemoveTransaction(p.ledger, c.txHash(blk.spinnerTx))
          case Thrown(l, e) => Thrown(Popped(s1.(ledger := l), Some(blk), p.txs), e)
          case Done(l) => Done(Popped(s1.(ledger := l), Some(blk), p.txs))
  }
}
