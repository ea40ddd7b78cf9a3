/** The output tables: removing outputs last to first undoes adding them first to last. */
module OutputTables {
  import opened ChainData
  import opened Tables

  /** Both tables are kept in strictly increasing key order, and no amount has an empty entry list. */
  ghost predicate Ordered(o: Outputs) {
    && (forall i, j | 0 <= i < j < |o.txs| :: o.txs[i].outputId < o.txs[j].outputId)
    && (forall a | a in o.amounts :: o.amounts[a] != [] && OrderedKeys(o.amounts[a]))
  }

  ghost predicate OrderedKeys(b: seq<OutKey>) {
    forall i, j | 0 <= i < j < |b| :: b[i].amountIndex < b[j].amountIndex
  }

  lemma {:induction false} FindLastKey(b: seq<OutKey>)
    requires b != [] && OrderedKeys(b)
    ensures FindKey(b, b[|b| - 1].amountIndex) == |b| - 1
  {
    if |b| > 1 {
      assert b[1..][|b| - 2] == b[|b| - 1];
      FindLastKey(b[1..]);
    }
  }

  lemma {:induction false} FindLastId(s: seq<OutTx>)
    requires s != [] && forall i, j | 0 <= i < j < |s| :: s[i].outputId < s[j].outputId
    ensures FindId(s, s[|s| - 1].outputId) == |s| - 1
  {
    if |s| > 1 {
      assert s[1..][|s| - 2] == s[|s| - 1];
      FindLastId(s[1..]);
    }
  }

  /** A successful `add_output` appends one entry to each table and touches one amount only. */
  lemma AddOutputAppends(o: Outputs, hash: Hash, out: TxOut, i: nat, unlockTime: nat, height: nat,
                         commitment: Option<Key>)
    requires Ordered(o)
    requires AddOutput(o, hash, out, i, unlockTime, height, commitment).Done?
    ensures var o' := AddOutput(o, hash, out, i, unlockTime, height, commitment).state;
            && Ordered(o')
            && o'.txs == o.txs + [OutTx(NextOutputId(o), hash, i)]
            && (exists k :: Bucket(o', out.amount) == Bucket(o, out.amount) + [k]
                            && k.amountIndex == |Bucket(o, out.amount)| && k.outputId == NextOutputId(o))
            && (forall a | a != out.amount :: Bucket(o', a) == Bucket(o, a))
  {
    var o' := AddOutput(o, hash, out, i, unlockTime, height, commitment).state;
    var b := Bucket(o, out.amount);
    var k := o'.amounts[out.amount][|b|];
    assert Bucket(o', out.amount) == b + [k];
    forall x, y | 0 <= x < y < |b + [k]| ensures (b + [k])[x].amountIndex < (b + [k])[y].amountIndex {
      if y == |b| && x < |b| - 1 { assert b[x].amountIndex < b[|b| - 1].amountIndex; }
    }
    forall x, y | 0 <= x < y < |o'.txs| ensures o'.txs[x].outputId < o'.txs[y].outputId {
      if y == |o.txs| && x < |o.txs| - 1 { assert o.txs[x].outputId < o.txs[|o.txs| - 1].outputId; }
    }
  }

  lemma WithoutLast<T>(s: seq<T>, x: T)
    ensures Without(s + [x], |s|) == s
  {
  }

  lemma BucketRoundTrip(o: Outputs, amount: nat, b: seq<OutKey>)
    requires amount in o.amounts ==> o.amounts[amount] != []
    ensures SetBucket(o.amounts[amount := b], amount, Bucket(o, amount)) == o.amounts
  {
  }

  /** `remove_output` at the index `add_output` returned takes the entry back. */
  lemma RemoveOutputUndoes(o: Outputs, hash: Hash, out: TxOut, i: nat, unlockTime: nat, height: nat,
                           commitment: Option<Key>)
    requires Ordered(o)
    requires AddOutput(o, hash, out, i, unlockTime, height, commitment).Done?
    ensures var o' := AddOutput(o, hash, out, i, unlockTime, height, commitment).state;
            RemoveOutput(o', out.amount, |Bucket(o, out.amount)|) == Done(o)
  {
    AddOutputAppends(o, hash, out, i, unlockTime, height, commitment);
    var o' := AddOutput(o, hash, out, i, unlockTime, height, commitment).state;
    var b, b' := Bucket(o, out.amount), Bucket(o', out.amount);
    FindLastKey(b');
    FindLastId(o'.txs);
    WithoutLast(o.txs, o'.txs[|o.txs|]);
    WithoutLast(b, b'[|b|]);
    BucketRoundTrip(o, out.amount, b');
  }

  /** Output `i` is looked for under the amount it was stored under. */
  predicate SameAmounts(tx: TxBase, gen: bool) {
    forall i | 0 <= i < |tx.vout| :: StoredAmount(tx, gen, i) == RemovedAmount(tx, i)
  }

  /** The loop keeps the tables ordered, extends the list of indices, and records one index per output. */
  lemma {:induction false} AddOutputsShape(c: Crypto, s: Indexed, hash: Hash, tx: TxBase, gen: bool, height: nat)
    requires |s.indices| <= |tx.vout| && Ordered(s.outs)
    requires AddOutputs(c, s, hash, tx, gen, height).Done?
    ensures var s' := AddOutputs(c, s, hash, tx, gen, height).state;
            Ordered(s'.outs) && |s'.indices| == |tx.vout| && s.indices <= s'.indices
    decreases |tx.vout| - |s.indices|
  {
    var i := |s.indices|;
    if i < |tx.vout| {
      var Some((out, commitment)) := StoredOutput(c, tx, gen, i);
      AddOutputAppends(s.outs, hash, out, i, tx.unlockTime, height, commitment);
      AddOutputsShape(c, NextIndexed(c, s, hash, tx, gen, height), hash, tx, gen, height);
    }
  }

  /** The loop state after one more output. */
  function NextIndexed(c: Crypto, s: Indexed, hash: Hash, tx: TxBase, gen: bool, height: nat): Indexed
    requires |s.indices| < |tx.vout|
  {
    Indexed(StoreOutput(c, s.outs, hash, tx, gen, height, |s.indices|).state,
            s.indices + [|Bucket(s.outs, StoredAmount(tx, gen, |s.indices|))|])
  }

  /**
    Removing every output of the finished loop comes down to removing the outputs already there at loop state
    `s`: each removal meets the entry its own addition appended.
   */
  lemma {:induction false} RemoveOutputsUnwinds(c: Crypto, s: Indexed, hash: Hash, tx: TxBase, gen: bool, height: nat)
    requires |s.indices| <= |tx.vout| && Ordered(s.outs) && SameAmounts(tx, gen)
    requires AddOutputs(c, s, hash, tx, gen, height).Done?
    ensures var s' := AddOutputs(c, s, hash, tx, gen, height).state;
            && |s'.indices| == |tx.vout|
            && RemoveOutputs(s'.outs, tx, s'.indices, |tx.vout|) == RemoveOutputs(s.outs, tx, s'.indices, |s.indices|)
    decreases |tx.vout| - |s.indices|
  {
    var i := |s.indices|;
    if i < |tx.vout| {
      var Some((out, commitment)) := StoredOutput(c, tx, gen, i);
      AddOutputAppends(s.outs, hash, out, i, tx.unlockTime, height, commitment);
      RemoveOutputUndoes(s.outs, hash, out, i, tx.unlockTime, height, commitment);
      var next := NextIndexed(c, s, hash, tx, gen, height);
      RemoveOutputsUnwinds(c, next, hash, tx, gen, height);
      AddOutputsShape(c, next, hash, tx, gen, height);
    }
  }

  /** Adding all outputs, then removing them last to first, changes nothing. */
  lemma OutputsRoundTrip(c: Crypto, o: Outputs, hash: Hash, tx: TxBase, gen: bool, height: nat)
    requires Ordered(o) && SameAmounts(tx, gen)
    requires AddOutputs(c, Indexed(o, []), hash, tx, gen, height).Done?
    ensures var s' := AddOutputs(c, Indexed(o, []), hash, tx, gen, height).state;
            RemoveOutputs(s'.outs, tx, s'.indices, |tx.vout|) == Done(o)
  {
    RemoveOutputsUnwinds(c, Indexed(o, []), hash, tx, gen, height);
  }

  // ----- When the two amounts differ -----

  /** How many outputs from `i` on are stored under amount 0. */
  function StoredZeros(tx: TxBase, gen: bool, i: nat): nat
    requires i <= |tx.vout|
    decreases |tx.vout| - i
  {
    if i == |tx.vout| then 0 else StoredZeros(tx, gen, i + 1) + if StoredAmount(tx, gen, i) == 0 then 1 else 0
  }

  /** How many of the first `i` outputs are removed from amount 0. */
  function RemovedZeros(tx: TxBase, i: nat): nat
    requires i <= |tx.vout|
  {
    if i == 0 then 0 else RemovedZeros(tx, i - 1) + if RemovedAmount(tx, i - 1) == 0 then 1 else 0
  }

  /** The loop grows the amount-0 entries by the outputs stored under 0. */
  lemma {:induction false} AddOutputsGrowZero(c: Crypto, s: Indexed, hash: Hash, tx: TxBase, gen: bool, height: nat)
    requires |s.indices| <= |tx.vout| && Ordered(s.outs)
    requires AddOutputs(c, s, hash, tx, gen, height).Done?
    ensures |Bucket(AddOutputs(c, s, hash, tx, gen, height).state.outs, 0)|
         == |Bucket(s.outs, 0)| + StoredZeros(tx, gen, |s.indices|)
    decreases |tx.vout| - |s.indices|
  {
    var i := |s.indices|;
    if i < |tx.vout| {
      var Some((out, commitment)) := StoredOutput(c, tx, gen, i);
      AddOutputAppends(s.outs, hash, out, i, tx.unlockTime, height, commitment);
      AddOutputsGrowZero(c, NextIndexed(c, s, hash, tx, gen, height), hash, tx, gen, height);
    }
  }

  lemma {:induction false} RemoveOutputsShrinkZero(o: Outputs, tx: TxBase, indices: seq<nat>, i: nat)
    requires i <= |tx.vout| && RemoveOutputs(o, tx, indices, i).Done?
    ensures |Bucket(RemoveOutputs(o, tx, indices, i).state, 0)| + RemovedZeros(tx, i) == |Bucket(o, 0)|
    decreases i
  {
    if i > 0 {
      var o' := RemoveOutput(o, RemovedAmount(tx, i - 1), indices[i - 1]).state;
      RemoveOutputsShrinkZero(o', tx, indices, i - 1);
    }
  }

  lemma {:induction false} ZerosOfPlain(tx: TxBase, gen: bool, i: nat)
    requires i <= |tx.vout|
    ensures StoredZeros(tx, gen, i) <= |tx.vout| - i
    ensures StoredAsRct(tx, gen) ==> StoredZeros(tx, gen, i) == |tx.vout| - i
    ensures StoredZeros(tx, gen, i) == |tx.vout| - i ==>
              forall j | i <= j < |tx.vout| :: StoredAmount(tx, gen, j) == 0
    decreases |tx.vout| - i
  {
    if i < |tx.vout| { ZerosOfPlain(tx, gen, i + 1); }
  }

  lemma {:induction false} RemovedZerosOfPlain(tx: TxBase, i: nat)
    requires i <= |tx.vout|
    ensures RemovedZeros(tx, i) <= i
    ensures PseudoRct(tx) ==> RemovedZeros(tx, i) == i
    ensures RemovedZeros(tx, i) == i ==> forall j | 0 <= j < i :: RemovedAmount(tx, j) == 0
  {
    if i > 0 { RemovedZerosOfPlain(tx, i - 1); }
  }

  /**
    Adding and then removing the outputs gives the tables back exactly when each output is looked for under
    the amount it was stored under.
   */
  lemma OutputsRestoredIff(c: Crypto, o: Outputs, hash: Hash, tx: TxBase, gen: bool, height: nat)
    requires Ordered(o)
    requires AddOutputs(c, Indexed(o, []), hash, tx, gen, height).Done?
    ensures var s' := AddOutputs(c, Indexed(o, []), hash, tx, gen, height).state;
            RemoveOutputs(s'.outs, tx, s'.indices, |tx.vout|) == Done(o) <==> SameAmounts(tx, gen)
  {
    var s' := AddOutputs(c, Indexed(o, []), hash, tx, gen, height).state;
    if SameAmounts(tx, gen) {
      OutputsRoundTrip(c, o, hash, tx, gen, height);
    }
    if RemoveOutputs(s'.outs, tx, s'.indices, |tx.vout|) == Done(o) {
      AddOutputsGrowZero(c, Indexed(o, []), hash, tx, gen, height);
      RemoveOutputsShrinkZero(s'.outs, tx, s'.indices, |tx.vout|);
      ZerosOfPlain(tx, gen, 0);
      RemovedZerosOfPlain(tx, |tx.vout|);
    }
  }
}
