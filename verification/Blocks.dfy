/** One block: `pop_block` against `add_block`. */
module Blocks {
  import opened ChainData
  import opened Tables
  import opened BlockStore
  import opened OutputTables
  import opened Transactions

  /** Every transaction of the block can be taken back. */
  predicate ReversibleBlock(a: BlockArgs) {
    Reversible(a.blk.spinnerTx.base) && forall i | 0 <= i < |a.txs| :: Reversible(a.txs[i].base)
  }

  /** No transaction of the block has an unsupported input. */
  predicate SupportedBlock(a: BlockArgs) {
    Supported(a.blk.spinnerTx.base.vin) && forall i | 0 <= i < |a.txs| :: Supported(a.txs[i].base.vin)
  }

  function Reverse<T>(s: seq<T>): (r: seq<T>)
    ensures |r| == |s| && forall i | 0 <= i < |s| :: r[i] == s[|s| - 1 - i]
  {
    seq(|s|, i requires 0 <= i < |s| => s[|s| - 1 - i])
  }

  lemma ReverseTwice<T>(s: seq<T>)
    ensures Reverse(Reverse(s)) == s
  {
  }

  lemma ReverseSnoc<T>(out: seq<T>, s: seq<T>, j: nat, i: nat)
    requires j < i <= |s|
    ensures out + [s[i - 1]] + Reverse(s[j..i - 1]) == out + Reverse(s[j..i])
  {
  }

  /** The ledger once the spinner and the first `i` ordinary transactions are in. */
  function LedgerAfter(c: Crypto, l: Ledger, height: nat, a: BlockArgs, i: nat): Outcome<Ledger>
    requires i <= |a.txs| == |a.blk.txHashes|
  {
    if i == 0 then AddTransaction(c, l, height, a.blk.spinnerTx, c.txHash(a.blk.spinnerTx))
    else match LedgerAfter(c, l, height, a, i - 1)
      case Thrown(l', e) => Thrown(l', e)
      case Done(l') => AddTransaction(c, l', height, a.txs[i - 1], a.blk.txHashes[i - 1])
  }

  /** `LedgerAfter` describes the state of the loop of `add_block` at every iteration. */
  lemma {:induction false} LoopStates(c: Crypto, l: Ledger, height: nat, a: BlockArgs, i: nat)
    requires i <= |a.txs| == |a.blk.txHashes|
    ensures AddLedger(c, l, height, a) ==
            match LedgerAfter(c, l, height, a, i)
            case Thrown(l', e) => Thrown(l', e)
            case Done(l') => AddTransactions(c, l', height, a, i)
  {
    hide AddTransaction;
    if i > 0 { LoopStates(c, l, height, a, i - 1); }
  }

  lemma {:induction false} LoopStatesDone(c: Crypto, l: Ledger, height: nat, a: BlockArgs, i: nat)
    requires i <= |a.txs| == |a.blk.txHashes| && Ordered(l.outs) && LedgerAfter(c, l, height, a, i).Done?
    ensures Ordered(LedgerAfter(c, l, height, a, i).state.outs)
    ensures forall j | 0 <= j <= i :: LedgerAfter(c, l, height, a, j).Done?
  {
    hide AddTransaction;
    if i == 0 {
      AddTransactionKeepsOrder(c, l, height, a.blk.spinnerTx, c.txHash(a.blk.spinnerTx));
    } else {
      LoopStatesDone(c, l, height, a, i - 1);
      AddTransactionKeepsOrder(c, LedgerAfter(c, l, height, a, i - 1).state, height, a.txs[i - 1],
                               a.blk.txHashes[i - 1]);
    }
  }

  /** One round of the pop loop, on a transaction added last. */
  lemma PopLast(c: Crypto, l: Ledger, height: nat, tx: Transaction, p: Popping, hashes: seq<Hash>, i: nat, j: nat)
    requires j < i <= |hashes| && Ordered(l.outs) && Reversible(tx.base)
    requires AddTransaction(c, l, height, tx, hashes[i - 1]) == Done(p.ledger)
    ensures PopTransactions(p, hashes, i, j) == PopTransactions(Popping(l, p.txs + [tx]), hashes, i - 1, j)
  {
    StoredIsRead(c, l, height, tx, hashes[i - 1]);
    RemoveUndoesAddIff(c, l, height, tx, hashes[i - 1]);
  }

  /**
    The pop loop runs the states of the add loop backwards: with transactions `i - 1` down to `j` removed, the
    ledger is the one that had the first `j` in, and the transactions come out last first.
   */
  lemma {:induction false} PopRetracesAdd(c: Crypto, l: Ledger, height: nat, a: BlockArgs, i: nat, j: nat,
                                          out: seq<Transaction>)
    requires j <= i <= |a.txs| == |a.blk.txHashes| && Ordered(l.outs)
    requires LedgerAfter(c, l, height, a, i).Done?
    requires forall k | j <= k < i :: Reversible(a.txs[k].base)
    ensures LedgerAfter(c, l, height, a, j).Done?
    ensures PopTransactions(Popping(LedgerAfter(c, l, height, a, i).state, out), a.blk.txHashes, i, j)
         == Done(Popping(LedgerAfter(c, l, height, a, j).state, out + Reverse(a.txs[j..i])))
    decreases i
  {
    hide AddTransaction, RemoveTransaction;
    LoopStatesDone(c, l, height, a, i);
    if i == j {
      assert out + Reverse(a.txs[j..i]) == out;
    } else {
      LoopStatesDone(c, l, height, a, i - 1);
      var before := LedgerAfter(c, l, height, a, i - 1).state;
      var tx := a.txs[i - 1];
      PopLast(c, before, height, tx, Popping(LedgerAfter(c, l, height, a, i).state, out), a.blk.txHashes, i, j);
      PopRetracesAdd(c, l, height, a, i - 1, j, out + [tx]);
      ReverseSnoc(out, a.txs, j, i);
    }
  }

  /** The running RingCT count recorded with a block on top of the tables `t`. */
  function NewCum(t: BlockTables, a: BlockArgs): nat {
    NumRct(a, |a.txs|) +
    if a.blk.majorVersion >= 4 && Height(t) > 0 && Height(t) - 1 in t.infos then t.infos[Height(t) - 1].cumRct else 0
  }

  /** The block tables and the spinners after a successful `add_block`, whatever the ledger. */
  lemma AddBlockTables(c: Crypto, s: Store, a: BlockArgs)
    requires AddBlock(c, s, a).Done?
    ensures var s' := AddBlock(c, s, a).state;
            var h := Height(s.chain);
            && |a.txs| == |a.blk.txHashes|
            && c.blockHash(a.blk) !in s.chain.heights && h !in s.chain.infos
            && (h > 0 ==> a.blk.prevId in s.chain.heights && s.chain.heights[a.blk.prevId] == h - 1)
            && s'.spinners == s.spinners[a.spinKey := h]
            && s'.chain.blocks == s.chain.blocks + [a.blk]
            && s'.chain.infos == s.chain.infos[h := NewInfo(a, h, c.blockHash(a.blk), NewCum(s.chain, a))]
            && (a.blk.majorVersion >= 4 ==> h > 0 && h - 1 in s.chain.infos)
            && s'.chain.heights == s.chain.heights[c.blockHash(a.blk) := h]
  {
    hide AddLedger;
  }

  /** The ledger after a successful `add_block`. */
  lemma AddBlockShape(c: Crypto, s: Store, a: BlockArgs)
    requires Ordered(s.ledger.outs) && AddBlock(c, s, a).Done?
    ensures var s' := AddBlock(c, s, a).state;
            && |a.txs| == |a.blk.txHashes|
            && LedgerAfter(c, s.ledger, Height(s.chain), a, |a.txs|) == Done(s'.ledger)
            && Ordered(s'.ledger.outs)
  {
    hide AddTransaction;
    LoopStates(c, s.ledger, Height(s.chain), a, |a.txs|);
    LoopStatesDone(c, s.ledger, Height(s.chain), a, |a.txs|);
  }

  /** `remove_block` just after the low-level `add_block`. */
  lemma RemoveUndoesPut(s: Store, a: BlockArgs, numRct: nat, hash: Hash)
    requires PutBlock(s, a, numRct, hash).Done?
    ensures RemoveBlock(PutBlock(s, a, numRct, hash).state)
         == Done(s.(spinners := s.spinners[a.spinKey := a.spinPrevHeight]))
  {
    var s' := PutBlock(s, a, numRct, hash).state;
    var h := Height(s.chain);
    assert s'.chain.blocks[..h] == s.chain.blocks;
    assert s'.chain.infos - {h} == s.chain.infos;
    assert s'.chain.heights - {hash} == s.chain.heights;
    assert s'.spinners[a.spinKey := a.spinPrevHeight] == s.spinners[a.spinKey := a.spinPrevHeight];
  }

  /** `remove_block` just after `add_block`. */
  lemma RemoveBlockUndoesPut(c: Crypto, s: Store, a: BlockArgs)
    requires AddBlock(c, s, a).Done?
    ensures var s' := AddBlock(c, s, a).state;
            RemoveBlock(s') == Done(Store(s'.ledger, s.chain, s.spinners[a.spinKey := a.spinPrevHeight]))
  {
    var l := AddLedger(c, s.ledger, Height(s.chain), a).state;
    RemoveUndoesPut(s.(ledger := l), a, NumRct(a, |a.txs|), c.blockHash(a.blk));
  }

  /**
    `pop_block` right after `add_block` gives back the block and its transactions (last first), and every table
    as it was; only the spinner's height goes to the one recorded with the block.
   */
  lemma PopUndoesAdd(c: Crypto, s: Store, a: BlockArgs)
    requires Ordered(s.ledger.outs) && ReversibleBlock(a)
    requires AddBlock(c, s, a).Done?
    ensures PopBlock(c, AddBlock(c, s, a).state)
         == Done(Popped(s.(spinners := s.spinners[a.spinKey := a.spinPrevHeight]), Some(a.blk), Reverse(a.txs)))
  {
    hide AddTransaction, RemoveTransaction, PutBlock, RemoveBlock;
    AddBlockShape(c, s, a);
    AddBlockTables(c, s, a);
    RemoveBlockUndoesPut(c, s, a);
    var h, n := Height(s.chain), |a.txs|;
    assert a.txs[0..n] == a.txs;
    PopRetracesAdd(c, s.ledger, h, a, n, 0, []);
    assert [] + Reverse(a.txs) == Reverse(a.txs);
    RemoveUndoesAddIff(c, s.ledger, h, a.blk.spinnerTx, c.txHash(a.blk.spinnerTx));
  }

  /** After add and pop, all tables are equal to the original ones exactly when the spinner had that recorded entry. */
  lemma PopRestoresAllTablesIff(c: Crypto, s: Store, a: BlockArgs)
    requires Ordered(s.ledger.outs) && ReversibleBlock(a)
    requires AddBlock(c, s, a).Done?
    ensures PopBlock(c, AddBlock(c, s, a).state).state.store == s
       <==> a.spinKey in s.spinners && s.spinners[a.spinKey] == a.spinPrevHeight
  {
    hide AddBlock, PopBlock;
    PopUndoesAdd(c, s, a);
  }

  /** After add and pop, every spinner height reads as before exactly when the recorded height was the one to read. */
  lemma PopRestoresSpinnerHeightsIff(c: Crypto, s: Store, a: BlockArgs)
    requires Ordered(s.ledger.outs) && ReversibleBlock(a)
    requires AddBlock(c, s, a).Done?
    ensures var after := PopBlock(c, AddBlock(c, s, a).state).state.store.spinners;
            (forall key :: SpinnerHeight(after, key) == SpinnerHeight(s.spinners, key)) <==>
            a.spinPrevHeight == SpinnerHeight(s.spinners, a.spinKey)
  {
    hide AddBlock, PopBlock;
    PopUndoesAdd(c, s, a);
    var after := PopBlock(c, AddBlock(c, s, a).state).state.store.spinners;
    assert SpinnerHeight(after, a.spinKey) == a.spinPrevHeight;
  }

  // ----- The converse -----

  /** How many of the first `i` transactions, counting the spinner, were really stored. */
  function StoredCount(a: BlockArgs, i: nat): nat
    requires i <= |a.txs|
  {
    if i == 0 then if Supported(a.blk.spinnerTx.base.vin) then 1 else 0
    else StoredCount(a, i - 1) + if Supported(a.txs[i - 1].base.vin) then 1 else 0
  }

  lemma AddTransactionCounts(c: Crypto, l: Ledger, height: nat, tx: Transaction, hash: Hash)
    requires Ordered(l.outs) && AddTransaction(c, l, height, tx, hash).Done?
    ensures |AddTransaction(c, l, height, tx, hash).state.txs.pruned|
         == |l.txs.pruned| + if Supported(tx.base.vin) then 1 else 0
  {
    if Supported(tx.base.vin) {
      StoredShape(c, l, height, tx, hash);
    } else {
      UnsupportedShape(c, l, height, tx, hash);
    }
  }

  lemma {:induction false} LedgerAfterCounts(c: Crypto, l: Ledger, height: nat, a: BlockArgs, i: nat)
    requires i <= |a.txs| == |a.blk.txHashes| && Ordered(l.outs) && LedgerAfter(c, l, height, a, i).Done?
    ensures |LedgerAfter(c, l, height, a, i).state.txs.pruned| == |l.txs.pruned| + StoredCount(a, i)
  {
    hide AddTransaction;
    if i == 0 {
      AddTransactionCounts(c, l, height, a.blk.spinnerTx, c.txHash(a.blk.spinnerTx));
    } else {
      LoopStatesDone(c, l, height, a, i - 1);
      LedgerAfterCounts(c, l, height, a, i - 1);
      AddTransactionCounts(c, LedgerAfter(c, l, height, a, i - 1).state, height, a.txs[i - 1], a.blk.txHashes[i - 1]);
    }
  }

  lemma {:induction false} PopTransactionsCounts(p: Popping, hashes: seq<Hash>, i: nat, j: nat)
    requires j <= i <= |hashes| && PopTransactions(p, hashes, i, j).Done?
    ensures |PopTransactions(p, hashes, i, j).state.ledger.txs.pruned| + (i - j) == |p.ledger.txs.pruned|
    decreases i
  {
    hide RemoveTransaction;
    if i > j {
      RemoveTransactionCounts(p.ledger, hashes[i - 1]);
      var tx := GetTx(p.ledger.txs, hashes[i - 1]).value;
      PopTransactionsCounts(Popping(RemoveTransaction(p.ledger, hashes[i - 1]).state, p.txs + [tx]), hashes, i - 1, j);
    }
  }

  lemma {:induction false} StoredCountFull(a: BlockArgs, i: nat)
    requires i <= |a.txs|
    ensures StoredCount(a, i) <= i + 1
    ensures StoredCount(a, i) == i + 1 ==>
              Supported(a.blk.spinnerTx.base.vin) && forall k | 0 <= k < i :: Supported(a.txs[k].base.vin)
  {
    if i > 0 { StoredCountFull(a, i - 1); }
  }

  /** If popping brings back as many transaction rows as there were, no transaction had an unsupported input. */
  lemma RestoredMeansSupported(c: Crypto, s: Store, a: BlockArgs)
    requires Ordered(s.ledger.outs) && AddBlock(c, s, a).Done?
    requires var r := PopBlock(c, AddBlock(c, s, a).state);
             r.Done? && |r.state.store.ledger.txs.pruned| == |s.ledger.txs.pruned|
    ensures SupportedBlock(a)
  {
    hide AddTransaction, RemoveTransaction, PutBlock, RemoveBlock;
    AddBlockShape(c, s, a);
    AddBlockTables(c, s, a);
    RemoveBlockUndoesPut(c, s, a);
    var s' := AddBlock(c, s, a).state;
    var n := |a.txs|;
    LedgerAfterCounts(c, s.ledger, Height(s.chain), a, n);
    PopTransactionsCounts(Popping(s'.ledger, []), a.blk.txHashes, n, 0);
    var p := PopTransactions(Popping(s'.ledger, []), a.blk.txHashes, n, 0).state;
    RemoveTransactionCounts(p.ledger, c.txHash(a.blk.spinnerTx));
    StoredCountFull(a, n);
  }
}
