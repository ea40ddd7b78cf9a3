/** One transaction: `remove_transaction` against `add_transaction`. */
module Transactions {
  import opened ChainData
  import opened Tables
  import opened BlockStore
  import opened SpentKeys
  import opened OutputTables

  /** All inputs are supported, and removal will look for every output where it was put. */
  predicate Reversible(tx: TxBase) {
    Supported(tx.vin) && SameAmounts(tx, HasGen(tx.vin))
  }

  /**
    Where the two sides can differ: `add_transaction` asks for version 2 and some gen input, removal for version
    2 or more and a gen input alone.  Only outputs of amount 0 survive the difference.  Of the versions that can be
    stored this leaves version 2 with several inputs, one of them a gen input.
   */
  lemma ReversibleMeaning(tx: TxBase)
    ensures Reversible(tx) <==>
            Supported(tx.vin) &&
            ((HasGen(tx.vin) && tx.version == 2 && |tx.vin| > 1) || (PseudoRct(tx) && tx.version != 2)
             ==> forall i | 0 <= i < |tx.vout| :: tx.vout[i].amount == 0)
    ensures KnownVersion(tx) ==>
              (Reversible(tx) <==>
               Supported(tx.vin) &&
               (HasGen(tx.vin) && tx.version == 2 && |tx.vin| > 1 ==>
                forall i | 0 <= i < |tx.vout| :: tx.vout[i].amount == 0))
  {
    if PseudoRct(tx) { assert tx.vin[0].Gen?; }
    if HasGen(tx.vin) && |tx.vin| == 1 { assert tx.vin[0].Gen?; }
    if Reversible(tx) {
      forall i | 0 <= i < |tx.vout|
                 && ((HasGen(tx.vin) && tx.version == 2 && |tx.vin| > 1) || (PseudoRct(tx) && tx.version != 2))
        ensures tx.vout[i].amount == 0
      {
        assert StoredAmount(tx, HasGen(tx.vin), i) == RemovedAmount(tx, i);
      }
    }
  }

  /** The transaction tables with one more transaction in. */
  function WithTx(c: Crypto, t: TxTables, height: nat, tx: Transaction, hash: Hash, indices: seq<nat>): TxTables {
    var id := |t.pruned|;
    TxTables(t.indices[hash := TxIndex(id, tx.base.unlockTime, height)],
             t.pruned[id := tx.base],
             t.prunable[id := tx.prunable],
             if tx.base.version > 1 then t.prunableHash[id := c.prunableHash(tx)] else t.prunableHash,
             t.outputIndices[id := indices])
  }

  /** The new rows are new. */
  predicate FreshRows(t: TxTables, tx: TxBase, hash: Hash) {
    var id := |t.pruned|;
    && hash !in t.indices
    && CanAppend(t.pruned, id) && CanAppend(t.prunable, id) && CanAppend(t.outputIndices, id)
    && (tx.version > 1 ==> CanAppend(t.prunableHash, id))
  }

  /** The ledger after a transaction was really stored, table by table. */
  lemma StoredShape(c: Crypto, l: Ledger, height: nat, tx: Transaction, hash: Hash)
    requires Ordered(l.outs) && Supported(tx.base.vin)
    requires AddTransaction(c, l, height, tx, hash).Done?
    ensures var l' := AddTransaction(c, l, height, tx, hash).state;
            var s := AddOutputs(c, Indexed(l.outs, []), hash, tx.base, HasGen(tx.base.vin), height);
            && Spendable(tx.base.vin, l.spent) && KnownVersion(tx.base)
            && FreshRows(l.txs, tx.base, hash)
            && s.Done? && |s.state.indices| == |tx.base.vout| && Ordered(s.state.outs)
            && l' == Ledger(l.spent + Images(tx.base.vin), WithTx(c, l.txs, height, tx, hash, s.state.indices),
                            s.state.outs)
  {
    AbortRestoresSpentSet(tx.base.vin, l.spent);
    InputsRoundTrip(tx.base.vin, l.spent);
    AddOutputsShape(c, Indexed(l.outs, []), hash, tx.base, HasGen(tx.base.vin), height);
  }

  /** With an unsupported input nothing but the spent set can change. */
  lemma UnsupportedShape(c: Crypto, l: Ledger, height: nat, tx: Transaction, hash: Hash)
    requires !Supported(tx.base.vin)
    requires AddTransaction(c, l, height, tx, hash).Done?
    ensures AddTransaction(c, l, height, tx, hash) == Done(l.(spent := l.spent - Images(tx.base.vin)))
  {
    assert tx.base.vin[0..] == tx.base.vin;
    AddInputsMeaning(tx.base.vin, 0, l.spent, false);
    AbortRestoresSpentSet(tx.base.vin, l.spent);
  }

  /** Ordered tables stay ordered, whatever the transaction. */
  lemma AddTransactionKeepsOrder(c: Crypto, l: Ledger, height: nat, tx: Transaction, hash: Hash)
    requires Ordered(l.outs) && AddTransaction(c, l, height, tx, hash).Done?
    ensures Ordered(AddTransaction(c, l, height, tx, hash).state.outs)
  {
    if Supported(tx.base.vin) {
      StoredShape(c, l, height, tx, hash);
    } else {
      UnsupportedShape(c, l, height, tx, hash);
    }
  }

  /** A stored transaction is read back whole. */
  lemma StoredIsRead(c: Crypto, l: Ledger, height: nat, tx: Transaction, hash: Hash)
    requires Ordered(l.outs) && Supported(tx.base.vin)
    requires AddTransaction(c, l, height, tx, hash).Done?
    ensures GetTx(AddTransaction(c, l, height, tx, hash).state.txs, hash) == Some(tx)
  {
    StoredShape(c, l, height, tx, hash);
  }

  lemma WithTxFields(c: Crypto, t: TxTables, height: nat, tx: Transaction, hash: Hash, indices: seq<nat>)
    ensures var id, t' := |t.pruned|, WithTx(c, t, height, tx, hash, indices);
            && hash in t'.indices && t'.indices[hash].txId == id
            && id in t'.outputIndices && t'.outputIndices[id] == indices
  {
  }

  lemma DropUndoesPut<K, V>(m: map<K, V>, k: K, v: V)
    requires k !in m
    ensures m[k := v] - {k} == m
  {
  }

  lemma DropStoredRows(c: Crypto, t: TxTables, height: nat, tx: Transaction, hash: Hash, indices: seq<nat>)
    requires FreshRows(t, tx.base, hash)
    ensures var id, t' := |t.pruned|, WithTx(c, t, height, tx, hash, indices);
            && GetPrunedTx(t', hash) == Some(tx.base)
            && DropTxRows(t', id, tx.base) == Done(t.(indices := t'.indices, outputIndices := t'.outputIndices))
            && t'.indices - {hash} == t.indices && t'.outputIndices - {id} == t.outputIndices
  {
    var id := |t.pruned|;
    DropUndoesPut(t.pruned, id, tx.base);
    DropUndoesPut(t.prunable, id, tx.prunable);
    DropUndoesPut(t.indices, hash, TxIndex(id, tx.base.unlockTime, height));
    DropUndoesPut(t.outputIndices, id, indices);
    if tx.base.version > 1 { DropUndoesPut(t.prunableHash, id, c.prunableHash(tx)); }
  }

  /**
    What removal does to a stored transaction, whatever happened to the output tables since: it comes down to
    removing the outputs from them.
   */
  lemma RemoveStored(c: Crypto, l: Ledger, height: nat, tx: Transaction, hash: Hash, outs: Outputs)
    requires Ordered(l.outs) && Supported(tx.base.vin)
    requires AddTransaction(c, l, height, tx, hash).Done?
    ensures var l' := AddTransaction(c, l, height, tx, hash).state.(outs := outs);
            var s := AddOutputs(c, Indexed(l.outs, []), hash, tx.base, HasGen(tx.base.vin), height);
            s.Done? &&
            var r := RemoveOutputs(outs, tx.base, s.state.indices, |tx.base.vout|);
            && RemoveTransaction(l', hash).Done? == r.Done?
            && (r.Done? ==> RemoveTransaction(l', hash) == Done(l.(outs := r.state)))
  {
    hide AddTransaction, AddOutputs, RemoveOutputs, WithTx, DropTxRows;
    StoredShape(c, l, height, tx, hash);
    InputsRoundTrip(tx.base.vin, l.spent);
    var indices := AddOutputs(c, Indexed(l.outs, []), hash, tx.base, HasGen(tx.base.vin), height).state.indices;
    DropStoredRows(c, l.txs, height, tx, hash, indices);
    WithTxFields(c, l.txs, height, tx, hash, indices);
  }

  /** A successful removal takes one row out of `txs_pruned`. */
  lemma RemoveTransactionCounts(l: Ledger, hash: Hash)
    requires RemoveTransaction(l, hash).Done?
    ensures |RemoveTransaction(l, hash).state.txs.pruned| + 1 == |l.txs.pruned|
  {
    var id := l.txs.indices[hash].txId;
    var m := l.txs.pruned - {id};
    assert m.Keys == l.txs.pruned.Keys - {id};
    assert |m.Keys| == |m| && |l.txs.pruned.Keys| == |l.txs.pruned|;
  }

  /**
    `remove_transaction` restores the ledger exactly for the reversible transactions, among all that
    `add_transaction` accepts.
   */
  lemma RemoveUndoesAddIff(c: Crypto, l: Ledger, height: nat, tx: Transaction, hash: Hash)
    requires Ordered(l.outs)
    requires AddTransaction(c, l, height, tx, hash).Done?
    ensures RemoveTransaction(AddTransaction(c, l, height, tx, hash).state, hash) == Done(l) <==> Reversible(tx.base)
  {
    var l' := AddTransaction(c, l, height, tx, hash).state;
    if Supported(tx.base.vin) {
      StoredShape(c, l, height, tx, hash);
      RemoveStored(c, l, height, tx, hash, l'.outs);
      OutputsRestoredIff(c, l.outs, hash, tx.base, HasGen(tx.base.vin), height);
    } else {
      UnsupportedShape(c, l, height, tx, hash);
      if RemoveTransaction(l', hash).Done? {
        RemoveTransactionCounts(l', hash);
      }
    }
  }

  /** Two gen inputs and one output of amount 5: stored under amount 0, looked for under amount 5. */
  const TWO_GENS := Transaction(TxBase(2, 0, [Gen(0), Gen(0)], [TxOut(5, OutToKey(7))], []), 0)

  lemma TwoGensIsIrreversible()
    ensures HasGen(TWO_GENS.base.vin) && Supported(TWO_GENS.base.vin) && !Reversible(TWO_GENS.base)
    ensures StoredAmount(TWO_GENS.base, true, 0) == 0 && RemovedAmount(TWO_GENS.base, 0) == 5
  {
    assert TWO_GENS.base.vin[0].Gen? && TWO_GENS.base.vout[0].amount == 5;
    ReversibleMeaning(TWO_GENS.base);
  }

  /** A concrete loss: on an empty store that transaction is accepted and cannot be removed. */
  lemma TwoGensCannotBeRemoved(c: Crypto)
    ensures AddTransaction(c, EMPTY_LEDGER, 0, TWO_GENS, 1).Done?
    ensures RemoveTransaction(AddTransaction(c, EMPTY_LEDGER, 0, TWO_GENS, 1).state, 1).Thrown?
  {
    var base := TWO_GENS.base;
    var out := AddOutput(EMPTY_LEDGER.outs, 1, base.vout[0].(amount := 0), 0, 0, 0, Some(c.zeroCommit(5)));
    assert StoreOutput(c, EMPTY_LEDGER.outs, 1, base, true, 0, 0) == out && out.Done?;
    assert AddOutputs(c, Indexed(out.state, [0]), 1, base, true, 0) == Done(Indexed(out.state, [0]));
    assert NextIndexed(c, Indexed(EMPTY_LEDGER.outs, []), 1, base, true, 0) == Indexed(out.state, [0]);
    assert AddOutputs(c, Indexed(EMPTY_LEDGER.outs, []), 1, base, true, 0) == Done(Indexed(out.state, [0]));
    assert AddInputs(base.vin, 2, {}, true) == InputsDone({}, true);
    assert AddInputs(base.vin, 1, {}, true) == InputsDone({}, true);
    assert AddInputs(base.vin, 0, {}, false) == InputsDone({}, true);
    var l' := AddTransaction(c, EMPTY_LEDGER, 0, TWO_GENS, 1).state;
    assert l'.txs.outputIndices[0] == [0] && l'.outs == out.state;
    assert RemoveOutput(out.state, 5, 0) == Thrown(out.state, OutputDne);
  }
}
