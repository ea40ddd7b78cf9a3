/**
  What an exception leaves behind.  A call that throws keeps whatever it had written; here is what that is, for
  additions, removals and pops, on any tables and on tables that agree with a list of transactions.
 */
module Failures {
  import opened ChainData
  import opened Tables
  import opened BlockStore
  import opened SpentKeys
  import opened OutputTables
  import opened OutputNames
  import opened Transactions
  import opened Blocks
  import opened Agreement
  import opened Acceptance

  // ----- Inputs -----

  /** The input loop stops at the first image that is spent, or listed before, with the images before it added. */
  lemma {:induction false} DuplicateMeaning(vin: seq<TxIn>, i: nat, spent: set<KeyImage>, gen: bool) returns (n: nat)
    requires i <= |vin| && AddInputs(vin, i, spent, gen).InputsDuplicate?
    ensures i <= n < |vin| && vin[n].ToKey? && Supported(vin[i..n])
    ensures vin[n].keyImage in spent + Images(vin[i..n])
    ensures AddInputs(vin, i, spent, gen) == InputsDuplicate(spent + Images(vin[i..n]))
    decreases |vin| - i
  {
    if vin[i].ToKey? && vin[i].keyImage in spent {
      n := i;
      assert vin[i..n] == [] && spent + {} == spent;
    } else {
      var next := if vin[i].ToKey? then spent + {vin[i].keyImage} else spent;
      n := DuplicateMeaning(vin, i + 1, next, gen || vin[i].Gen?);
      ImagesFrom(vin, i, n);
      assert next + Images(vin[i + 1..n]) == spent + Images(vin[i..n]);
      assert vin[i..n] == [vin[i]] + vin[i + 1..n];
    }
  }

  lemma ImagesFrom(vin: seq<TxIn>, i: nat, n: nat)
    requires i < n <= |vin|
    ensures Images(vin[i..n]) == (if vin[i].ToKey? then {vin[i].keyImage} else {}) + Images(vin[i + 1..n])
  {
    var long, short := vin[i..n], vin[i + 1..n];
    assert long == [vin[i]] + short;
    forall k ensures k in Images(long) <==> (vin[i].ToKey? && k == vin[i].keyImage) || k in Images(short) {
      if k in Images(short) {
        var j :| 0 <= j < |short| && short[j].ToKey? && short[j].keyImage == k;
        assert long[j + 1].keyImage == k;
      }
      if vin[i].ToKey? { assert long[0].keyImage in Images(long); }
      if k in Images(long) {
        var j :| 0 <= j < |long| && long[j].ToKey? && long[j].keyImage == k;
        if j > 0 { assert short[j - 1].keyImage == k; }
      }
    }
  }

  // ----- Rows -----

  /** The rows of a transaction go in one after the other; each stays if a later one is refused. */
  lemma AddTxDataLeaves(c: Crypto, t: TxTables, height: nat, tx: Transaction, hash: Hash)
    requires AddTxData(c, t, height, tx, hash).Thrown?
    ensures var r, id := AddTxData(c, t, height, tx, hash), |t.pruned|;
            var base := hash !in t.indices && KnownVersion(tx.base) && CanAppend(t.pruned, id);
            && r.error == (if hash in t.indices then TxExists else DbError)
            && r.state.indices
               == (if hash in t.indices then t.indices else t.indices[hash := TxIndex(id, tx.base.unlockTime, height)])
            && r.state.pruned == (if base then t.pruned[id := tx.base] else t.pruned)
            && r.state.prunable
               == (if base && CanAppend(t.prunable, id) then t.prunable[id := tx.prunable] else t.prunable)
            && r.state.prunableHash == t.prunableHash && r.state.outputIndices == t.outputIndices
  {
  }

  // ----- Outputs -----

  /** The first output from `i` on that is refused. */
  function FirstRefused(tx: TxBase, i: nat): (n: nat)
    requires i <= |tx.vout|
    ensures i <= n <= |tx.vout|
    decreases |tx.vout| - i
  {
    if i == |tx.vout| || OutputRefusal(tx, i).Some? then i else FirstRefused(tx, i + 1)
  }

  /** The transaction with its first `n` outputs only. */
  function Cut(tx: TxBase, n: nat): TxBase
    requires n <= |tx.vout|
  {
    tx.(vout := tx.vout[..n])
  }

  lemma StoreOutputCut(c: Crypto, o: Outputs, hash: Hash, tx: TxBase, gen: bool, height: nat, i: nat, n: nat)
    requires i < n <= |tx.vout|
    ensures StoreOutput(c, o, hash, Cut(tx, n), gen, height, i) == StoreOutput(c, o, hash, tx, gen, height, i)
    ensures StoredAmount(Cut(tx, n), gen, i) == StoredAmount(tx, gen, i)
  {
  }

  lemma StoreOutputLeaves(c: Crypto, o: Outputs, hash: Hash, tx: TxBase, height: nat, i: nat)
    requires Dense(o) && KnownVersion(tx) && i < |tx.vout| && OutputRefusal(tx, i).Some?
    ensures StoreOutput(c, o, hash, tx, HasGen(tx.vin), height, i) == Thrown(o, OutputRefusal(tx, i).value)
  {
    StoreOutputIff(c, o, hash, tx, height, i);
    var b := Bucket(o, StoredAmount(tx, HasGen(tx.vin), i));
    if b != [] { assert b[|b| - 1].amountIndex == |b| - 1; }
  }

  /** An output loop that stops leaves what it would have written for the outputs before the refused one alone. */
  lemma {:induction false} AddOutputsLeaves(c: Crypto, s: Indexed, hash: Hash, tx: TxBase, height: nat)
    requires |s.indices| <= |tx.vout| && Dense(s.outs) && KnownVersion(tx)
    requires AddOutputs(c, s, hash, tx, HasGen(tx.vin), height).Thrown?
    ensures var n := FirstRefused(tx, |s.indices|);
            && n < |tx.vout|
            && AddOutputs(c, s, hash, Cut(tx, n), HasGen(tx.vin), height)
            == Done(AddOutputs(c, s, hash, tx, HasGen(tx.vin), height).state)
    decreases |tx.vout| - |s.indices|
  {
    hide StoreOutput, Dense, OutputRefusal, HasGen, KnownVersion;
    var i, gen := |s.indices|, HasGen(tx.vin);
    var n := FirstRefused(tx, i);
    StoreOutputIff(c, s.outs, hash, tx, height, i);
    if OutputRefusal(tx, i).Some? {
      StoreOutputLeaves(c, s.outs, hash, tx, height, i);
    } else {
      var e := StoreOutputNames(c, s.outs, hash, tx, gen, height, i);
      AddOutputsLeaves(c, NextIndexed(c, s, hash, tx, gen, height), hash, tx, height);
      StoreOutputCut(c, s.outs, hash, tx, gen, height, i, n);
    }
  }

  /** An amount with an entry past its end, which no history leads to: the row of the output stays without its entry. */
  lemma OutputWithoutEntry(c: Crypto, s: Indexed, hash: Hash, tx: TxBase, height: nat)
    requires |s.indices| < |tx.vout| && KnownVersion(tx) && OutputRefusal(tx, |s.indices|).None?
    requires var b := Bucket(s.outs, StoredAmount(tx, HasGen(tx.vin), |s.indices|));
             b != [] && b[|b| - 1].amountIndex >= |b|
    ensures var row := OutTx(NextOutputId(s.outs), hash, |s.indices|);
            AddOutputs(c, s, hash, tx, HasGen(tx.vin), height)
            == Thrown(s.(outs := s.outs.(txs := s.outs.txs + [row])), DbError)
  {
  }

  // ----- Adding a transaction -----

  /**
    A transaction that is refused for more than its images: its images are spent, and for its hash that is all; for
    its version the hash index has it too; for an output all rows but the recorded indices are there, and the outputs
    before the refused one.
   */
  lemma AddTransactionLeaves(c: Crypto, l: Ledger, f: seq<Entry>, height: nat, tx: Transaction, hash: Hash)
    requires TablesAgree(c, l, f) && Spendable(tx.base.vin, l.spent) && AddTransaction(c, l, height, tx, hash).Thrown?
    ensures var l', id := AddTransaction(c, l, height, tx, hash).state, |l.txs.pruned|;
            var spent := l.spent + Images(tx.base.vin);
            var row := TxIndex(id, tx.base.unlockTime, height);
            if HashKnown(f, hash) then l' == l.(spent := spent)
            else if !KnownVersion(tx.base) then
              l' == l.(spent := spent, txs := l.txs.(indices := l.txs.indices[hash := row]))
            else
              var n := FirstRefused(tx.base, 0);
              var o := AddOutputs(c, Indexed(l.outs, []), hash, Cut(tx.base, n), HasGen(tx.base.vin), height);
              && n < |tx.base.vout| && o.Done?
              && l' == Ledger(spent, WithTx(c, l.txs, height, tx, hash, []).(outputIndices := l.txs.outputIndices),
                              o.state.outs)
  {
    hide AddOutputs, RowsAgree, Dense, HashKnown, OutputRefusal;
    InputsRoundTrip(tx.base.vin, l.spent);
    InputsIff(tx.base.vin, l.spent);
    RowsHaveRoom(c, l.txs, f, hash);
    AddTxDataIff(c, l.txs, f, height, tx, hash);
    TablesAreOrdered(c, l, f);
    if !HashKnown(f, hash) && KnownVersion(tx.base) {
      AddOutputsLeaves(c, Indexed(l.outs, []), hash, tx.base, height);
    }
  }

  /** If only the recorded indices are refused, which no history leads to, everything else stays. */
  lemma IndicesRefused(c: Crypto, l: Ledger, height: nat, tx: Transaction, hash: Hash)
    requires Spendable(tx.base.vin, l.spent) && AddTxData(c, l.txs, height, tx, hash).Done?
    requires AddOutputs(c, Indexed(l.outs, []), hash, tx.base, HasGen(tx.base.vin), height).Done?
    requires !CanAppend(l.txs.outputIndices, |l.txs.pruned|)
    ensures var o := AddOutputs(c, Indexed(l.outs, []), hash, tx.base, HasGen(tx.base.vin), height).state.outs;
            AddTransaction(c, l, height, tx, hash)
            == Thrown(Ledger(l.spent + Images(tx.base.vin), AddTxData(c, l.txs, height, tx, hash).state, o), DbError)
  {
    hide AddOutputs;
    InputsRoundTrip(tx.base.vin, l.spent);
    InputsIff(tx.base.vin, l.spent);
  }

  /** A transaction that is refused for an image leaves nothing but images. */
  lemma ClashLeaves(c: Crypto, l: Ledger, height: nat, tx: Transaction, hash: Hash) returns (n: nat)
    requires AddInputs(tx.base.vin, 0, l.spent, false).InputsDuplicate?
    ensures n < |tx.base.vin| && tx.base.vin[n].ToKey?
    ensures tx.base.vin[n].keyImage in l.spent + Images(tx.base.vin[..n])
    ensures AddTransaction(c, l, height, tx, hash)
         == Thrown(l.(spent := l.spent + Images(tx.base.vin[..n])), KeyImageExists)
  {
    n := DuplicateMeaning(tx.base.vin, 0, l.spent, false);
    assert tx.base.vin[0..n] == tx.base.vin[..n];
  }

  // ----- Adding a block -----

  /** The low-level `add_block` that throws has touched nothing, or has appended the block and nothing else. */
  lemma PutBlockLeaves(s: Store, a: BlockArgs, numRct: nat, hash: Hash)
    requires PutBlock(s, a, numRct, hash).Thrown?
    ensures var t, h := s.chain, Height(s.chain);
            var checked := hash !in t.heights
                           && (h > 0 ==> a.blk.prevId in t.heights && t.heights[a.blk.prevId] + 1 == h);
            PutBlock(s, a, numRct, hash).state == if checked then s.(chain := t.(blocks := t.blocks + [a.blk])) else s
  {
  }

  /** A block whose transactions are refused leaves the ledger they left, and no block. */
  lemma AddBlockLeaves(c: Crypto, s: Store, a: BlockArgs)
    requires AddBlock(c, s, a).Thrown?
    ensures |a.txs| != |a.blk.txHashes| ==> AddBlock(c, s, a).state == s
    ensures |a.txs| == |a.blk.txHashes| ==>
              var r := LedgerAfter(c, s.ledger, Height(s.chain), a, |a.txs|);
              AddBlock(c, s, a).state ==
              if r.Thrown? then s.(ledger := r.state)
              else PutBlock(s.(ledger := r.state), a, NumRct(a, |a.txs|), c.blockHash(a.blk)).state
  {
    hide AddTransaction, PutBlock, NumRct;
    if |a.txs| == |a.blk.txHashes| { LoopStates(c, s.ledger, Height(s.chain), a, |a.txs|); }
  }

  // ----- Removing -----

  /**
    What a removal needs, on any ledger: the hash indexed, its base row, from version 2 on its prunable hash, recorded
    indices unless it has no outputs, and outputs that can be removed; and what it throws and leaves if one is missing.
   */
  lemma RemoveTransactionIff(l: Ledger, hash: Hash)
    requires GetPrunedTx(l.txs, hash).Some?
    ensures var tx, id := GetPrunedTx(l.txs, hash).value, l.txs.indices[hash].txId;
            var r := RemoveTransaction(l, hash);
            var l1 := l.(spent := l.spent - Images(tx.vin),
                         txs := l.txs.(pruned := l.txs.pruned - {id}, prunable := l.txs.prunable - {id}));
            var l2 := if tx.version > 1 then l1.(txs := l1.txs.(prunableHash := l.txs.prunableHash - {id})) else l1;
            if tx.version > 1 && id !in l.txs.prunableHash then r == Thrown(l1, DbError)
            else if id !in l.txs.outputIndices then r == Thrown(l2, UndefinedAccess)
            else if l.txs.outputIndices[id] == [] && tx.vout != [] then r == Thrown(l2, DbError)
            else
              var o := RemoveOutputs(l.outs, tx, l.txs.outputIndices[id], |tx.vout|);
              if o.Thrown? then r == Thrown(l2.(outs := o.state), o.error)
              else r == Done(Ledger(l2.spent, l2.txs.(outputIndices := l.txs.outputIndices - {id},
                                                      indices := l.txs.indices - {hash}), o.state))
  {
    hide RemoveOutputs;
    var tx := GetPrunedTx(l.txs, hash).value;
    assert tx.vin[0..] == tx.vin;
    RemoveInputsMeaning(tx.vin, 0, l.spent);
  }

  lemma RemoveUnknown(l: Ledger, hash: Hash)
    requires GetPrunedTx(l.txs, hash).None?
    ensures RemoveTransaction(l, hash) == Thrown(l, TxDne)
  {
  }

  /** The low-level removal makes the same two checks again, for callers that have not. */
  lemma RemoveDataUnknown(l: Ledger, hash: Hash, tx: TxBase)
    requires GetPrunedTx(l.txs, hash).None?
    ensures RemoveTxData(l, hash, tx) == Thrown(l, if hash in l.txs.indices then DbError else TxDne)
  {
  }

  /** Fewer recorded indices than outputs are read past their end, before anything is removed. */
  lemma MissingIndices(o: Outputs, tx: TxBase, indices: seq<nat>)
    requires |indices| < |tx.vout|
    ensures RemoveOutputs(o, tx, indices, |tx.vout|) == Thrown(o, UndefinedAccess)
  {
  }

  /** A pruned transaction is read back without its prunable part. */
  lemma PrunedIsRead(t: TxTables, hash: Hash)
    requires GetPrunedTx(t, hash).Some?
    ensures var id := t.indices[hash].txId;
            GetTx(t, hash) == Some(Transaction(t.pruned[id], if id in t.prunable then t.prunable[id] else 0))
  {
  }

  /** What `remove_block` needs, on any store; without it nothing is touched. */
  lemma RemoveBlockIff(s: Store)
    ensures var t, h := s.chain, Height(s.chain);
            && (RemoveBlock(s).Done? <==> h > 0 && h - 1 in t.infos && t.infos[h - 1].hash in t.heights)
            && (RemoveBlock(s).Thrown? ==>
                  RemoveBlock(s) == Thrown(s, if h > 0 && h - 1 in t.infos then DbError else BlockDne))
  {
  }

  // ----- Popping -----

  /** The pop loop stops at a transaction it cannot read or remove; those before it are out, it is given back too. */
  lemma {:induction false} PopTransactionsStops(p: Popping, hashes: seq<Hash>, i: nat, j: nat) returns (k: nat)
    requires j <= i <= |hashes| && PopTransactions(p, hashes, i, j).Thrown?
    ensures j <= k < i && PopTransactions(p, hashes, i, k + 1).Done?
    ensures var q := PopTransactions(p, hashes, i, k + 1).state;
            var tx := GetTx(q.ledger.txs, hashes[k]);
            if tx.None? then PopTransactions(p, hashes, i, j) == Thrown(q, DbError)
            else
              var r := RemoveTransaction(q.ledger, hashes[k]);
              r.Thrown? && PopTransactions(p, hashes, i, j) == Thrown(Popping(r.state, q.txs + [tx.value]), r.error)
    decreases i
  {
    hide RemoveTransaction, GetTx;
    var tx := GetTx(p.ledger.txs, hashes[i - 1]);
    if tx.None? || RemoveTransaction(p.ledger, hashes[i - 1]).Thrown? {
      k := i - 1;
    } else {
      var next := Popping(RemoveTransaction(p.ledger, hashes[i - 1]).state, p.txs + [tx.value]);
      k := PopTransactionsStops(next, hashes, i - 1, j);
    }
  }

  /** A pop that throws: nothing popped, or the block gone and its transactions as far as the loop came. */
  lemma PopBlockLeaves(c: Crypto, s: Store)
    requires PopBlock(c, s).Thrown?
    ensures Height(s.chain) == 0 ==> PopBlock(c, s) == Thrown(Popped(s, None, []), BlockDne)
    ensures Height(s.chain) > 0 ==>
              var blk := s.chain.blocks[Height(s.chain) - 1];
              var s1, out := RemoveBlock(s), PopBlock(c, s);
              && out.state.blk == Some(blk)
              && if s1.Thrown? then out.state.store == s && out.state.txs == [] && out.error == s1.error
                 else
                   var p := PopTransactions(Popping(s.ledger, []), blk.txHashes, |blk.txHashes|, 0);
                   var r := RemoveTransaction(p.state.ledger, c.txHash(blk.spinnerTx));
                   && out.state.txs == p.state.txs && out.error == (if p.Thrown? then p.error else r.error)
                   && out.state.store
                      == s1.state.(ledger := if p.Thrown? then p.state.ledger else r.state)
                   && (p.Thrown? || r.Thrown?)
  {
    hide PopTransactions, RemoveTransaction;
    RemoveBlockIff(s);
  }
}
