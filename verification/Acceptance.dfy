/**
  Which transactions and blocks the store accepts, and what it throws at the others: read off the block and the list
  of transactions already stored, with no mention of the tables.
 */
module Acceptance {
  import opened ChainData
  import opened Tables
  import opened BlockStore
  import opened SpentKeys
  import opened OutputTables
  import opened OutputNames
  import opened Transactions
  import opened Blocks
  import opened BlockAgreement
  import opened Runs
  import opened Agreement

  // ----- The outputs of a transaction -----

  /** What keeps output `i` out: no mask for it, no key, or an amount 0 that has no commitment. */
  function OutputRefusal(tx: TxBase, i: nat): Option<Error>
    requires i < |tx.vout|
  {
    if tx.version > 1 && !HasGen(tx.vin) && |tx.outPk| <= i then Some(UndefinedAccess)
    else if !tx.vout[i].target.OutToKey? then Some(WrongOutputType)
    else if tx.version == 1 && tx.vout[i].amount == 0 then Some(MissingCommitment)
    else None
  }

  /** What is thrown at the first output from `i` on that is kept out. */
  function OutputsRefusal(tx: TxBase, i: nat): Option<Error>
    requires i <= |tx.vout|
    decreases |tx.vout| - i
  {
    if i == |tx.vout| then None
    else if OutputRefusal(tx, i).Some? then OutputRefusal(tx, i)
    else OutputsRefusal(tx, i + 1)
  }

  /** Every output is to a key, version 1 has no amount 0, and version 2 without a gen input has a mask per output. */
  predicate GoodOutputs(tx: TxBase) {
    && (forall i | 0 <= i < |tx.vout| :: tx.vout[i].target.OutToKey?)
    && (tx.version == 1 ==> forall i | 0 <= i < |tx.vout| :: tx.vout[i].amount != 0)
    && (tx.version == 2 && !HasGen(tx.vin) ==> |tx.vout| <= |tx.outPk|)
  }

  lemma {:induction false} OutputsRefusalMeaning(tx: TxBase, i: nat)
    requires i <= |tx.vout|
    ensures OutputsRefusal(tx, i).None? <==> forall j | i <= j < |tx.vout| :: OutputRefusal(tx, j).None?
    decreases |tx.vout| - i
  {
    if i < |tx.vout| { OutputsRefusalMeaning(tx, i + 1); }
  }

  lemma GoodOutputsIff(tx: TxBase)
    requires KnownVersion(tx)
    ensures GoodOutputs(tx) <==> OutputsRefusal(tx, 0).None?
  {
    OutputsRefusalMeaning(tx, 0);
    if OutputsRefusal(tx, 0).None? {
      forall i | 0 <= i < |tx.vout|
        ensures tx.vout[i].target.OutToKey? && (tx.version == 1 ==> tx.vout[i].amount != 0)
      {
        assert OutputRefusal(tx, i).None?;
      }
      if tx.vout != [] { assert OutputRefusal(tx, |tx.vout| - 1).None?; }
    }
  }

  lemma StoreOutputIff(c: Crypto, o: Outputs, hash: Hash, tx: TxBase, height: nat, i: nat)
    requires Dense(o) && KnownVersion(tx) && i < |tx.vout|
    ensures var r := StoreOutput(c, o, hash, tx, HasGen(tx.vin), height, i);
            && (r.Done? <==> OutputRefusal(tx, i).None?)
            && (r.Thrown? ==> OutputRefusal(tx, i) == Some(r.error))
  {
    var a := StoredAmount(tx, HasGen(tx.vin), i);
    var b := Bucket(o, a);
    if b != [] { assert b[|b| - 1].amountIndex == |b| - 1; }
  }

  lemma {:induction false} AddOutputsIff(c: Crypto, s: Indexed, hash: Hash, tx: TxBase, height: nat)
    requires |s.indices| <= |tx.vout| && Dense(s.outs) && KnownVersion(tx)
    ensures var r := AddOutputs(c, s, hash, tx, HasGen(tx.vin), height);
            && (r.Done? <==> OutputsRefusal(tx, |s.indices|).None?)
            && (r.Thrown? ==> OutputsRefusal(tx, |s.indices|) == Some(r.error))
    decreases |tx.vout| - |s.indices|
  {
    hide StoreOutput, Dense, OutputRefusal, HasGen;
    var i := |s.indices|;
    if i < |tx.vout| {
      StoreOutputIff(c, s.outs, hash, tx, height, i);
      if StoreOutput(c, s.outs, hash, tx, HasGen(tx.vin), height, i).Done? {
        var e := StoreOutputNames(c, s.outs, hash, tx, HasGen(tx.vin), height, i);
        AddOutputsIff(c, NextIndexed(c, s, hash, tx, HasGen(tx.vin), height), hash, tx, height);
      }
    }
  }

  // ----- One transaction -----

  predicate HashKnown(f: seq<Entry>, hash: Hash) {
    exists i | 0 <= i < |f| :: f[i].hash == hash
  }

  /** What is thrown at a transaction with supported inputs, on top of the stored transactions `f`. */
  function Refusal(spent: set<KeyImage>, f: seq<Entry>, tx: TxBase, hash: Hash): Option<Error> {
    if !Spendable(tx.vin, spent) then Some(KeyImageExists)
    else if HashKnown(f, hash) then Some(TxExists)
    else if !KnownVersion(tx) then Some(DbError)
    else OutputsRefusal(tx, 0)
  }

  lemma RowsHaveRoom(c: Crypto, t: TxTables, f: seq<Entry>, hash: Hash)
    requires RowsAgree(c, t, f)
    ensures hash in t.indices <==> HashKnown(f, hash)
    ensures var id := |t.pruned|;
            && CanAppend(t.pruned, id) && CanAppend(t.prunable, id)
            && CanAppend(t.prunableHash, id) && CanAppend(t.outputIndices, id)
  {
    SizeOfRange(t.pruned.Keys, |f|);
    if i :| 0 <= i < |f| && f[i].hash == hash { assert RowAgrees(c, t, f, i); }
  }

  lemma AddTxDataIff(c: Crypto, t: TxTables, f: seq<Entry>, height: nat, tx: Transaction, hash: Hash)
    requires RowsAgree(c, t, f)
    ensures var r := AddTxData(c, t, height, tx, hash);
            && (r.Done? <==> !HashKnown(f, hash) && KnownVersion(tx.base))
            && (r.Thrown? ==> r.error == if HashKnown(f, hash) then TxExists else DbError)
            && (r.Done? ==> AddOutputIndices(r.state, |t.pruned|, []).Done?)
            && (r.Done? ==> r.state.outputIndices == t.outputIndices)
  {
    hide RowsAgree, HashKnown;
    RowsHaveRoom(c, t, f, hash);
  }

  /** A transaction with supported inputs is accepted exactly when nothing is thrown at it, and this is thrown else. */
  lemma AddTransactionIff(c: Crypto, l: Ledger, f: seq<Entry>, height: nat, tx: Transaction, hash: Hash)
    requires TablesAgree(c, l, f) && Supported(tx.base.vin)
    ensures var r := AddTransaction(c, l, height, tx, hash);
            && (r.Done? <==> Refusal(l.spent, f, tx.base, hash).None?)
            && (r.Thrown? ==> Refusal(l.spent, f, tx.base, hash) == Some(r.error))
    ensures AddTransaction(c, l, height, tx, hash).Done? <==>
            && Spendable(tx.base.vin, l.spent) && KnownVersion(tx.base)
            && !HashKnown(f, hash) && GoodOutputs(tx.base)
  {
    hide AddTxData, AddOutputs, RowsAgree, Dense, OutputsRefusal, GoodOutputs, HashKnown, Spendable, KnownVersion;
    InputsIff(tx.base.vin, l.spent);
    AddTxDataIff(c, l.txs, f, height, tx, hash);
    TablesAreOrdered(c, l, f);
    if KnownVersion(tx.base) {
      AddOutputsIff(c, Indexed(l.outs, []), hash, tx.base, height);
      GoodOutputsIff(tx.base);
    }
  }

  /** The input loop on supported inputs. */
  lemma InputsIff(vin: seq<TxIn>, spent: set<KeyImage>)
    requires Supported(vin)
    ensures var r := AddInputs(vin, 0, spent, false);
            if Spendable(vin, spent) then r.InputsDone? && r.gen == HasGen(vin) else r.InputsDuplicate?
  {
    assert vin[0..] == vin;
    AddInputsMeaning(vin, 0, spent, false);
    AbortRestoresSpentSet(vin, spent);
  }

  /** A transaction with an unsupported input is skipped unless an image before that input is spent or repeated. */
  lemma SkippedIff(c: Crypto, l: Ledger, height: nat, tx: Transaction, hash: Hash)
    requires !Supported(tx.base.vin)
    ensures var r := AddTransaction(c, l, height, tx, hash);
            && (r.Done? <==> Spendable(tx.base.vin[..FirstOther(tx.base.vin, 0)], l.spent))
            && (r.Thrown? ==> r.error == KeyImageExists)
  {
    var vin := tx.base.vin;
    assert vin[0..] == vin;
    AddInputsMeaning(vin, 0, l.spent, false);
    AbortRestoresSpentSet(vin, l.spent);
  }

  // ----- The transactions of a block -----

  function EntryRefusal(spent: set<KeyImage>, f: seq<Entry>, e: Entry): Option<Error> {
    var vin := e.tx.base.vin;
    if Supported(vin) then Refusal(spent, f, e.tx.base, e.hash)
    else if Spendable(vin[..FirstOther(vin, 0)], spent) then None
    else Some(KeyImageExists)
  }

  /** The spent set after the transactions of `es`, stored or skipped. */
  function SpentAfter(spent: set<KeyImage>, es: seq<Entry>): set<KeyImage> {
    if es == [] then spent
    else
      var e, before := es[|es| - 1], SpentAfter(spent, es[..|es| - 1]);
      if Supported(e.tx.base.vin) then before + Images(e.tx.base.vin) else before - Images(e.tx.base.vin)
  }

  /** What is thrown at the first transaction of `es` that is refused, each judged on top of those before it. */
  function EntriesRefusal(spent: set<KeyImage>, f: seq<Entry>, es: seq<Entry>): Option<Error> {
    if es == [] then None
    else
      var pre := es[..|es| - 1];
      if EntriesRefusal(spent, f, pre).Some? then EntriesRefusal(spent, f, pre)
      else EntryRefusal(SpentAfter(spent, pre), f + StoredOf(pre), es[|es| - 1])
  }

  lemma EntryIff(c: Crypto, l: Ledger, f: seq<Entry>, e: Entry)
    requires TablesAgree(c, l, f)
    ensures var r := AddTransaction(c, l, e.height, e.tx, e.hash);
            && (r.Done? <==> EntryRefusal(l.spent, f, e).None?)
            && (r.Thrown? ==> EntryRefusal(l.spent, f, e) == Some(r.error))
            && (r.Done? ==> TablesAgree(c, r.state, f + StoredOf([e])) && r.state.spent == SpentAfter(l.spent, [e]))
  {
    hide AddTransaction, TablesAgree, Refusal, Spendable;
    assert [e][..0] == [];
    if Supported(e.tx.base.vin) {
      AddTransactionIff(c, l, f, e.height, e.tx, e.hash);
      if AddTransaction(c, l, e.height, e.tx, e.hash).Done? {
        assert StoredOf([e]) == [e];
        AgreesStep(c, l, f, e);
        TablesAreOrdered(c, l, f);
        StoredShape(c, l, e.height, e.tx, e.hash);
      }
    } else {
      SkippedIff(c, l, e.height, e.tx, e.hash);
      if AddTransaction(c, l, e.height, e.tx, e.hash).Done? {
        UnsupportedShape(c, l, e.height, e.tx, e.hash);
        OnlySpent(c, l, f, l.spent - Images(e.tx.base.vin));
        assert StoredOf([e]) == [] && f + StoredOf([e]) == f;
      }
    }
  }

  lemma EntriesSnoc(spent: set<KeyImage>, f: seq<Entry>, es: seq<Entry>, e: Entry)
    ensures SpentAfter(spent, es + [e]) == SpentAfter(SpentAfter(spent, es), [e])
    ensures f + StoredOf(es + [e]) == f + StoredOf(es) + StoredOf([e])
    ensures EntriesRefusal(spent, f, es + [e]) ==
            if EntriesRefusal(spent, f, es).Some? then EntriesRefusal(spent, f, es)
            else EntryRefusal(SpentAfter(spent, es), f + StoredOf(es), e)
  {
    hide EntryRefusal;
    assert (es + [e])[..|es|] == es && [e][..0] == [];
  }

  /** The loop of `add_block` goes through exactly when nothing is thrown at the transactions, one after the other. */
  lemma {:induction false} LedgerAfterIff(c: Crypto, l: Ledger, f: seq<Entry>, height: nat, a: BlockArgs, i: nat)
    requires i <= |a.txs| == |a.blk.txHashes| && TablesAgree(c, l, f)
    ensures var r, es := LedgerAfter(c, l, height, a, i), BlockEntries(c, a, height, i);
            && (r.Done? <==> EntriesRefusal(l.spent, f, es).None?)
            && (r.Thrown? ==> EntriesRefusal(l.spent, f, es) == Some(r.error))
            && (r.Done? ==> TablesAgree(c, r.state, f + StoredOf(es)) && r.state.spent == SpentAfter(l.spent, es))
  {
    hide AddTransaction, TablesAgree, EntryRefusal, EntriesRefusal, SpentAfter, StoredOf;
    if i == 0 {
      var e := Entry(c.txHash(a.blk.spinnerTx), a.blk.spinnerTx, height);
      EntryIff(c, l, f, e);
      NoEntries(l.spent, f, e);
    } else {
      var e, pre := Entry(a.blk.txHashes[i - 1], a.txs[i - 1], height), BlockEntries(c, a, height, i - 1);
      LedgerAfterIff(c, l, f, height, a, i - 1);
      EntriesSnoc(l.spent, f, pre, e);
      if LedgerAfter(c, l, height, a, i - 1).Done? {
        EntryIff(c, LedgerAfter(c, l, height, a, i - 1).state, f + StoredOf(pre), e);
      }
    }
  }

  lemma NoEntries(spent: set<KeyImage>, f: seq<Entry>, e: Entry)
    ensures EntriesRefusal(spent, f, [e]) == EntryRefusal(spent, f, e)
  {
    hide EntryRefusal;
    assert [e][..0] == [] && f + StoredOf([]) == f;
  }

  // ----- One block -----

  /** What is thrown at a block on top of the stored transactions `f` and the blocks `chain`. */
  function BlockRefusal(c: Crypto, spent: set<KeyImage>, f: seq<Entry>, chain: seq<BlockArgs>,
                        a: BlockArgs): Option<Error>
  {
    if |a.txs| != |a.blk.txHashes| then Some(InconsistentSizes)
    else
      var es := BlockEntries(c, a, |chain|, |a.txs|);
      if EntriesRefusal(spent, f, es).Some? then EntriesRefusal(spent, f, es)
      else ChainRefusal(c, chain, a, c.blockHash(a.blk))
  }

  /** `add_block` accepts a block exactly when nothing is thrown at it, and this is thrown else. */
  lemma AddBlockIff(c: Crypto, s: Store, f: seq<Entry>, chain: seq<BlockArgs>, a: BlockArgs)
    requires TablesAgree(c, s.ledger, f) && BlocksAgree(c, s.chain, chain)
    ensures var r, refusal := AddBlock(c, s, a), BlockRefusal(c, s.ledger.spent, f, chain, a);
            (r.Done? <==> refusal.None?) && (r.Thrown? ==> refusal == Some(r.error))
  {
    hide TablesAgree, BlocksAgree, LedgerAfter, PutBlock, EntriesRefusal, BlockEntries, HasHash, OnTop;
    if |a.txs| == |a.blk.txHashes| {
      TopCum(c, s.chain, chain);
      LoopStates(c, s.ledger, |chain|, a, |a.txs|);
      LedgerAfterIff(c, s.ledger, f, |chain|, a, |a.txs|);
      var r := AddLedger(c, s.ledger, |chain|, a);
      PutBlockIff(c, s.(ledger := r.state), chain, a, NumRct(a, |a.txs|), c.blockHash(a.blk));
    }
  }

  /** After every sound history, a block goes in exactly when nothing is thrown at it on top of the surviving chain. */
  lemma PushAcceptedIff(c: Crypto, ops: seq<Op>, a: BlockArgs)
    requires SoundRun(c, ops)
    ensures Sized(Run(c, ops).chain)
    ensures var n := Run(c, ops);
            Step(c, n, Push(a)).chain == n.chain + [a] <==>
            BlockRefusal(c, n.store.ledger.spent, Flat(c, n.chain), n.chain, a).None?
  {
    hide Run, SoundRun, AddBlock, BlockRefusal, TablesAgree, BlocksAgree, NoneForgotten, Agrees;
    var n := Run(c, ops);
    PathIndependence(c, ops);
    BuildBasics(c, n.chain);
    BuiltAgrees(c, n.chain);
    OnlySpent(c, Build(c, n.chain).state.ledger, Flat(c, n.chain), n.store.ledger.spent);
    AddBlockIff(c, n.store, Flat(c, n.chain), n.chain, a);
    assert |n.chain + [a]| != |n.chain|;
  }
}
