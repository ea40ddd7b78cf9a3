/** Which output every entry of the output tables belongs to. */
module OutputNames {
  import opened ChainData
  import opened Tables
  import opened OutputTables

  /** Both tables have no gaps: a row's key is its position, and the entries of an amount come in order of output id. */
  ghost predicate Dense(o: Outputs) {
    && (forall i | 0 <= i < |o.txs| :: o.txs[i].outputId == i)
    && (forall a | a in o.amounts :: o.amounts[a] != [])
    && (forall a, k | 0 <= k < |Bucket(o, a)| :: Bucket(o, a)[k].amountIndex == k && Bucket(o, a)[k].outputId < |o.txs|)
    && (forall a, k, k' | 0 <= k < k' < |Bucket(o, a)| :: Bucket(o, a)[k].outputId < Bucket(o, a)[k'].outputId)
  }

  lemma DenseIsOrdered(o: Outputs)
    requires Dense(o)
    ensures Ordered(o) && NextOutputId(o) == |o.txs|
  {
    forall a | a in o.amounts ensures OrderedKeys(o.amounts[a]) {
      assert o.amounts[a] == Bucket(o, a);
    }
  }

  /** The commitment an output's entry has to carry: only amount-0 entries have one. */
  function EntryCommitment(c: Crypto, tx: TxBase, gen: bool, i: nat): Option<Key>
    requires i < |tx.vout|
  {
    if StoredAmount(tx, gen, i) != 0 then None
    else if StoredAsRct(tx, gen) then Some(c.zeroCommit(tx.vout[i].amount))
    else if i < |tx.outPk| then Some(tx.outPk[i])
    else None
  }

  /** The entry of output `i` of `tx`, as number `k` of its amount. */
  predicate IsEntry(c: Crypto, e: OutKey, k: nat, id: nat, tx: TxBase, gen: bool, i: nat, height: nat) {
    && i < |tx.vout| && tx.vout[i].target.OutToKey?
    && e == OutKey(k, id, tx.vout[i].target.key, tx.unlockTime, height, EntryCommitment(c, tx, gen, i))
  }

  /** One more row in `output_txs` and one more entry under `amount`, at its end. */
  ghost predicate OneMore(o: Outputs, o': Outputs, amount: nat, row: OutTx, e: OutKey) {
    && o'.txs == o.txs + [row]
    && Bucket(o', amount) == Bucket(o, amount) + [e]
    && forall a | a != amount :: Bucket(o', a) == Bucket(o, a)
  }

  /** Storing one output. */
  lemma StoreOutputNames(c: Crypto, o: Outputs, hash: Hash, tx: TxBase, gen: bool, height: nat, i: nat)
    returns (e: OutKey)
    requires Dense(o) && i < |tx.vout|
    requires StoreOutput(c, o, hash, tx, gen, height, i).Done?
    ensures Dense(StoreOutput(c, o, hash, tx, gen, height, i).state)
    ensures IsEntry(c, e, |Bucket(o, StoredAmount(tx, gen, i))|, |o.txs|, tx, gen, i, height)
    ensures OneMore(o, StoreOutput(c, o, hash, tx, gen, height, i).state, StoredAmount(tx, gen, i),
                    OutTx(|o.txs|, hash, i), e)
  {
    DenseIsOrdered(o);
    var Some((out, commitment)) := StoredOutput(c, tx, gen, i);
    AddOutputAppends(o, hash, out, i, tx.unlockTime, height, commitment);
    var o' := StoreOutput(c, o, hash, tx, gen, height, i).state;
    var a := StoredAmount(tx, gen, i);
    e := Bucket(o', a)[|Bucket(o, a)|];
    OneMoreIsDense(o, o', a, OutTx(|o.txs|, hash, i), e);
  }

  lemma OneMoreIsDense(o: Outputs, o': Outputs, a: nat, row: OutTx, e: OutKey)
    requires Dense(o) && OneMore(o, o', a, row, e)
    requires row.outputId == e.outputId == |o.txs| && e.amountIndex == |Bucket(o, a)|
    requires forall x | x in o'.amounts :: o'.amounts[x] != []
    ensures Dense(o')
  {
  }

  /** The stretch of tables written for outputs `|s.indices|` and up of `tx`, from loop state `s` to loop state `s'`. */
  ghost predicate Named(c: Crypto, s: Indexed, s': Indexed, hash: Hash, tx: TxBase, gen: bool, height: nat) {
    var i0, base := |s.indices|, |s.outs.txs|;
    && i0 <= |s'.indices| <= |tx.vout|
    && s.indices == s'.indices[..i0]
    && |s'.outs.txs| == base + |s'.indices| - i0
    && s.outs.txs == s'.outs.txs[..base]
    && (forall a ::
          |Bucket(s.outs, a)| <= |Bucket(s'.outs, a)| && Bucket(s'.outs, a)[..|Bucket(s.outs, a)|] == Bucket(s.outs, a))
    && (forall i | i0 <= i < |s'.indices| :: OutputNamed(c, s, s', hash, tx, gen, height, i))
    && (forall a, k | |Bucket(s.outs, a)| <= k < |Bucket(s'.outs, a)| :: EntryOwned(s, s', tx, gen, a, k))
  }

  /** Output `i` has its row and, at its recorded index, its entry. */
  ghost predicate OutputNamed(c: Crypto, s: Indexed, s': Indexed, hash: Hash, tx: TxBase, gen: bool, height: nat,
                              i: nat)
    requires |s.indices| <= i < |s'.indices| <= |tx.vout| && |s'.outs.txs| == |s.outs.txs| + |s'.indices| - |s.indices|
  {
    var id, k, b := |s.outs.txs| + i - |s.indices|, s'.indices[i], Bucket(s'.outs, StoredAmount(tx, gen, i));
    && s'.outs.txs[id] == OutTx(id, hash, i)
    && |Bucket(s.outs, StoredAmount(tx, gen, i))| <= k < |b|
    && IsEntry(c, b[k], k, id, tx, gen, i, height)
  }

  /** New entry `k` of amount `a` is the one some output recorded. */
  ghost predicate EntryOwned(s: Indexed, s': Indexed, tx: TxBase, gen: bool, a: nat, k: nat)
    requires |s'.indices| <= |tx.vout| && k < |Bucket(s'.outs, a)|
  {
    var i := Bucket(s'.outs, a)[k].outputId - |s.outs.txs| + |s.indices|;
    |s.indices| <= i < |s'.indices| && StoredAmount(tx, gen, i) == a && s'.indices[i] == k
  }

  /** The output loop names everything it writes, for all outputs it goes through. */
  lemma {:induction false} AddOutputsNames(c: Crypto, s: Indexed, hash: Hash, tx: TxBase, gen: bool, height: nat)
    requires |s.indices| <= |tx.vout| && Dense(s.outs)
    requires AddOutputs(c, s, hash, tx, gen, height).Done?
    ensures var s' := AddOutputs(c, s, hash, tx, gen, height).state;
            Dense(s'.outs) && |s'.indices| == |tx.vout| && Named(c, s, s', hash, tx, gen, height)
    decreases |tx.vout| - |s.indices|
  {
    hide StoreOutput, OutputNamed, EntryOwned, Dense, IsEntry;
    var i := |s.indices|;
    if i < |tx.vout| {
      var next := NextIndexed(c, s, hash, tx, gen, height);
      var e := StoreOutputNames(c, s.outs, hash, tx, gen, height, i);
      AddOutputsNames(c, next, hash, tx, gen, height);
      NamedStep(c, s, next, AddOutputs(c, s, hash, tx, gen, height).state, hash, tx, gen, height, e);
    } else {
      forall a ensures Bucket(s.outs, a)[..|Bucket(s.outs, a)|] == Bucket(s.outs, a) {}
    }
  }

  /** One output more in front of a named stretch. */
  lemma NamedStep(c: Crypto, s: Indexed, next: Indexed, s': Indexed, hash: Hash, tx: TxBase, gen: bool, height: nat,
                  e: OutKey)
    requires |s.indices| < |tx.vout|
    requires var a := StoredAmount(tx, gen, |s.indices|);
             && next.indices == s.indices + [|Bucket(s.outs, a)|]
             && OneMore(s.outs, next.outs, a, OutTx(|s.outs.txs|, hash, |s.indices|), e)
             && IsEntry(c, e, |Bucket(s.outs, a)|, |s.outs.txs|, tx, gen, |s.indices|, height)
    requires Named(c, next, s', hash, tx, gen, height)
    ensures Named(c, s, s', hash, tx, gen, height)
  {
    hide IsEntry;
    var i0 := |s.indices|;
    var a0 := StoredAmount(tx, gen, i0);
    var k0 := |Bucket(s.outs, a0)|;
    assert s'.indices[i0] == next.indices[i0] == k0;
    assert s'.outs.txs[|s.outs.txs|] == next.outs.txs[|s.outs.txs|];
    assert Bucket(s'.outs, a0)[k0] == Bucket(next.outs, a0)[k0] == e;
    forall a
      ensures |Bucket(s.outs, a)| <= |Bucket(s'.outs, a)|
      ensures Bucket(s'.outs, a)[..|Bucket(s.outs, a)|] == Bucket(s.outs, a)
    {
      assert Bucket(s'.outs, a)[..|Bucket(next.outs, a)|][..|Bucket(s.outs, a)|]
          == Bucket(next.outs, a)[..|Bucket(s.outs, a)|];
    }
    forall i | i0 <= i < |s'.indices| ensures OutputNamed(c, s, s', hash, tx, gen, height, i) {
      if i > i0 { assert OutputNamed(c, next, s', hash, tx, gen, height, i); }
    }
    forall a, k | |Bucket(s.outs, a)| <= k < |Bucket(s'.outs, a)| ensures EntryOwned(s, s', tx, gen, a, k) {
      if a == a0 && k == k0 {
        OwnFirst(c, s, s', e, hash, tx, gen, height);
      } else {
        assert EntryOwned(next, s', tx, gen, a, k);
      }
    }
  }

  lemma OwnFirst(c: Crypto, s: Indexed, s': Indexed, e: OutKey, hash: Hash, tx: TxBase, gen: bool, height: nat)
    requires |s.indices| < |s'.indices| <= |tx.vout|
    requires var a := StoredAmount(tx, gen, |s.indices|);
             && IsEntry(c, e, |Bucket(s.outs, a)|, |s.outs.txs|, tx, gen, |s.indices|, height)
             && |Bucket(s.outs, a)| < |Bucket(s'.outs, a)| && Bucket(s'.outs, a)[|Bucket(s.outs, a)|] == e
             && s'.indices[|s.indices|] == |Bucket(s.outs, a)|
    ensures EntryOwned(s, s', tx, gen, StoredAmount(tx, gen, |s.indices|),
                       |Bucket(s.outs, StoredAmount(tx, gen, |s.indices|))|)
  {
  }
}
