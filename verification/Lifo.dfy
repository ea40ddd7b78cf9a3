/** Last in, first out: what is removed always sits at the end of its tables. */
module Lifo {
  import opened ChainData
  import opened Tables
  import opened BlockStore
  import opened OutputTables
  import opened OutputNames
  import opened Transactions
  import opened Blocks
  import opened BlockAgreement
  import opened Runs
  import opened Agreement

  /** `o'` only has entries added at the ends of `o`. */
  ghost predicate Extends(o: Outputs, o': Outputs) {
    o.txs <= o'.txs && forall a :: Bucket(o, a) <= Bucket(o', a)
  }

  /** A stored transaction's outputs are exactly the tails of their amounts, at the indices recorded for it. */
  lemma TailsBelongToLast(c: Crypto, l: Ledger, height: nat, tx: Transaction, hash: Hash)
    requires Dense(l.outs) && Supported(tx.base.vin) && AddTransaction(c, l, height, tx, hash).Done?
    ensures var l', id := AddTransaction(c, l, height, tx, hash).state, |l.txs.pruned|;
            && Dense(l'.outs) && Extends(l.outs, l'.outs) && id in l'.txs.outputIndices
            && Named(c, Indexed(l.outs, []), Indexed(l'.outs, l'.txs.outputIndices[id]), hash, tx.base,
                     HasGen(tx.base.vin), height)
  {
    hide AddTransaction, Dense, OutputNamed, EntryOwned;
    DenseIsOrdered(l.outs);
    StoredShape(c, l, height, tx, hash);
    AddOutputsNames(c, Indexed(l.outs, []), hash, tx.base, HasGen(tx.base.vin), height);
    var l' := AddTransaction(c, l, height, tx, hash).state;
    forall a ensures Bucket(l.outs, a) <= Bucket(l'.outs, a) {
      assert Bucket(l'.outs, a)[..|Bucket(l.outs, a)|] == Bucket(l.outs, a);
    }
    assert l'.outs.txs[..|l.outs.txs|] == l.outs.txs;
  }

  lemma TransactionExtends(c: Crypto, l: Ledger, height: nat, tx: Transaction, hash: Hash)
    requires Dense(l.outs) && AddTransaction(c, l, height, tx, hash).Done?
    ensures var l' := AddTransaction(c, l, height, tx, hash).state; Dense(l'.outs) && Extends(l.outs, l'.outs)
  {
    hide AddTransaction, Named;
    if Supported(tx.base.vin) {
      TailsBelongToLast(c, l, height, tx, hash);
    } else {
      UnsupportedShape(c, l, height, tx, hash);
    }
  }

  lemma ExtendsTransitive(o: Outputs, o': Outputs, o'': Outputs)
    requires Extends(o, o') && Extends(o', o'')
    ensures Extends(o, o'')
  {
    forall a ensures Bucket(o, a) <= Bucket(o'', a) {
      assert Bucket(o, a) <= Bucket(o', a) && Bucket(o', a) <= Bucket(o'', a);
    }
  }

  lemma {:induction false} BlockExtends(c: Crypto, l: Ledger, height: nat, a: BlockArgs, i: nat)
    requires i <= |a.txs| == |a.blk.txHashes| && Dense(l.outs) && LedgerAfter(c, l, height, a, i).Done?
    ensures var l' := LedgerAfter(c, l, height, a, i).state; Dense(l'.outs) && Extends(l.outs, l'.outs)
  {
    hide AddTransaction, Extends;
    if i == 0 {
      TransactionExtends(c, l, height, a.blk.spinnerTx, c.txHash(a.blk.spinnerTx));
    } else {
      BlockExtends(c, l, height, a, i - 1);
      var l' := LedgerAfter(c, l, height, a, i - 1).state;
      TransactionExtends(c, l', height, a.txs[i - 1], a.blk.txHashes[i - 1]);
      ExtendsTransitive(l.outs, l'.outs, LedgerAfter(c, l, height, a, i).state.outs);
    }
  }

  /**
    The invariant of the pop loop: when transactions from `j` on are out, the ledger is the one that had the
    first `j` in, and the next one to go has exactly the tails of its amounts.
   */
  lemma PopLoopMeetsTails(c: Crypto, l: Ledger, height: nat, a: BlockArgs, j: nat)
    requires 0 < j <= |a.txs| == |a.blk.txHashes| && Dense(l.outs) && ReversibleBlock(a)
    requires LedgerAfter(c, l, height, a, |a.txs|).Done?
    ensures LedgerAfter(c, l, height, a, j - 1).Done?
    ensures var p := PopTransactions(Popping(LedgerAfter(c, l, height, a, |a.txs|).state, []), a.blk.txHashes,
                                     |a.txs|, j);
            p.Done? &&
            var now, rest, tx := p.state.ledger, LedgerAfter(c, l, height, a, j - 1).state, a.txs[j - 1];
            && Extends(rest.outs, now.outs) && |rest.txs.pruned| in now.txs.outputIndices
            && Named(c, Indexed(rest.outs, []), Indexed(now.outs, now.txs.outputIndices[|rest.txs.pruned|]),
                     a.blk.txHashes[j - 1], tx.base, HasGen(tx.base.vin), height)
            && RemoveTransaction(now, a.blk.txHashes[j - 1]) == Done(rest)
  {
    hide AddTransaction, RemoveTransaction, Named, Extends, PopTransactions, SameAmounts;
    DenseIsOrdered(l.outs);
    PopRetracesAdd(c, l, height, a, |a.txs|, j, []);
    LoopStatesDone(c, l, height, a, j);
    var rest := LedgerAfter(c, l, height, a, j - 1).state;
    BlockExtends(c, l, height, a, j - 1);
    TailsBelongToLast(c, rest, height, a.txs[j - 1], a.blk.txHashes[j - 1]);
    DenseIsOrdered(rest.outs);
    RemoveUndoesAddIff(c, rest, height, a.txs[j - 1], a.blk.txHashes[j - 1]);
  }

  /**
    The removal after the loop: with all ordinary transactions out, the spinner's outputs are exactly the tails of
    their amounts, and removing it gives the ledger from before the block.
   */
  lemma LastRemovalMeetsTails(c: Crypto, l: Ledger, height: nat, a: BlockArgs)
    requires |a.txs| == |a.blk.txHashes| && Dense(l.outs) && ReversibleBlock(a)
    requires LedgerAfter(c, l, height, a, |a.txs|).Done?
    ensures var p := PopTransactions(Popping(LedgerAfter(c, l, height, a, |a.txs|).state, []), a.blk.txHashes,
                                     |a.txs|, 0);
            var hash, spinner := c.txHash(a.blk.spinnerTx), a.blk.spinnerTx.base;
            && p.Done? && Extends(l.outs, p.state.ledger.outs)
            && |l.txs.pruned| in p.state.ledger.txs.outputIndices
            && Named(c, Indexed(l.outs, []),
                     Indexed(p.state.ledger.outs, p.state.ledger.txs.outputIndices[|l.txs.pruned|]),
                     hash, spinner, HasGen(spinner.vin), height)
            && RemoveTransaction(p.state.ledger, hash) == Done(l)
  {
    hide AddTransaction, RemoveTransaction, Named, Extends, PopTransactions, SameAmounts;
    DenseIsOrdered(l.outs);
    PopRetracesAdd(c, l, height, a, |a.txs|, 0, []);
    TailsBelongToLast(c, l, height, a.blk.spinnerTx, c.txHash(a.blk.spinnerTx));
    RemoveUndoesAddIff(c, l, height, a.blk.spinnerTx, c.txHash(a.blk.spinnerTx));
  }

  /**
    In every store a sound history leads to, popping a reversible top block shifts no surviving output: what stays is
    a prefix of what was.
   */
  lemma PopShiftsNothing(c: Crypto, ops: seq<Op>)
    requires SoundRun(c, ops) && SoundPop(c, Run(c, ops), Pop)
    ensures var n := Run(c, ops); Extends(Step(c, n, Pop).store.ledger.outs, n.store.ledger.outs)
  {
    hide Run, SoundRun, AddBlock, Ordered, TablesAgree, NoneForgotten, Agrees, BlocksAgree, Extends;
    hide PopBlock, ReversibleBlock;
    var n := Run(c, ops);
    PathIndependence(c, ops);
    if n.chain == [] || !PopBlock(c, n.store).Done? {
      NothingToExtend(n.store.ledger.outs);
      if n.chain == [] { NothingToPop(c, n); }
    } else {
      var pre, a := n.chain[..|n.chain| - 1], n.chain[|n.chain| - 1];
      var s := Build(c, pre).state;
      BuiltPop(c, n);
      BuildBasics(c, pre);
      BuiltAgrees(c, pre);
      TablesAreOrdered(c, s.ledger, Flat(c, pre));
      AddBlockShape(c, s, a);
      BlockExtends(c, s.ledger, Height(s.chain), a, |a.txs|);
    }
  }

  lemma NothingToExtend(o: Outputs)
    ensures Extends(o, o)
  {
  }
}
