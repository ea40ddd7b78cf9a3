/** The description of the tables leaves nothing open: it fits one ledger and one set of block tables only. */
module Completeness {
  import opened ChainData
  import opened Tables
  import opened OutputNames
  import opened BlockAgreement
  import opened Agreement

  ghost predicate Increasing(s: seq<nat>) {
    forall i, j | 0 <= i < j < |s| :: s[i] < s[j]
  }

  lemma HasMember(s: seq<nat>)
    requires s != []
    ensures exists x :: x in s
  {
    assert s[0] in s;
  }

  /** Two increasing lists with the same members are equal. */
  lemma {:induction false} SameIncreasing(s: seq<nat>, t: seq<nat>)
    requires Increasing(s) && Increasing(t) && forall x :: x in s <==> x in t
    ensures s == t
  {
    if s == [] {
      if t != [] {
        HasMember(t);
        assert false;
      }
    } else {
      assert s[|s| - 1] in t && t != [];
      assert t[|t| - 1] in s;
      var s', t' := s[..|s| - 1], t[..|t| - 1];
      SameLast(s, t);
      forall x ensures x in s' <==> x in t' { DropLast(s, x); DropLast(t, x); }
      SameIncreasing(s', t');
      assert s == s' + [s[|s| - 1]] && t == t' + [t[|t| - 1]];
    }
  }

  lemma SameLast(s: seq<nat>, t: seq<nat>)
    requires s != [] && t != [] && Increasing(s) && Increasing(t)
    requires s[|s| - 1] in t && t[|t| - 1] in s
    ensures s[|s| - 1] == t[|t| - 1]
  {
    var i :| 0 <= i < |t| && t[i] == s[|s| - 1];
    var j :| 0 <= j < |s| && s[j] == t[|t| - 1];
  }

  lemma DropLast(s: seq<nat>, x: nat)
    requires s != [] && Increasing(s)
    ensures x in s[..|s| - 1] <==> x in s && x != s[|s| - 1]
  {
  }

  function Ids(b: seq<OutKey>): seq<nat> {
    seq(|b|, k requires 0 <= k < |b| => b[k].outputId)
  }

  /** The ids under amount `a` are those of the outputs stored under `a`. */
  lemma IdsMembers(c: Crypto, idx: map<nat, seq<nat>>, o: Outputs, f: seq<Entry>, a: nat, x: nat)
    requires OutputsAgree(c, idx, o, f)
    ensures x in Ids(Bucket(o, a))
       <==> exists i: nat, j: nat :: IsOutput(f, i, j) && AmountOf(f, i, j) == a && OutputId(f, i, j) == x
  {
    hide Dense;
    var ids := Ids(Bucket(o, a));
    if x in ids {
      var k :| 0 <= k < |ids| && ids[k] == x;
      assert Owned(idx, o, f, a, k);
      var i: nat, j: nat :| Names(idx, o, f, i, j, a, k);
      assert IsOutput(f, i, j) && AmountOf(f, i, j) == a && OutputId(f, i, j) == x;
    }
    if i: nat, j: nat :| IsOutput(f, i, j) && AmountOf(f, i, j) == a && OutputId(f, i, j) == x {
      assert OutputFound(c, idx, o, f, i, j);
      assert ids[idx[i][j]] == x;
    }
  }

  lemma IdsIncreasing(o: Outputs, a: nat)
    requires Dense(o)
    ensures Increasing(Ids(Bucket(o, a)))
  {
  }

  lemma SameIds(c: Crypto, l: Ledger, l': Ledger, f: seq<Entry>, a: nat)
    requires OutputsAgree(c, l.txs.outputIndices, l.outs, f) && OutputsAgree(c, l'.txs.outputIndices, l'.outs, f)
    ensures Ids(Bucket(l.outs, a)) == Ids(Bucket(l'.outs, a))
  {
    hide Dense, Increasing, Ids, OutputFound;
    IdsIncreasing(l.outs, a);
    IdsIncreasing(l'.outs, a);
    forall x: nat ensures x in Ids(Bucket(l.outs, a)) <==> x in Ids(Bucket(l'.outs, a)) {
      IdsMembers(c, l.txs.outputIndices, l.outs, f, a, x);
      IdsMembers(c, l'.txs.outputIndices, l'.outs, f, a, x);
    }
    SameIncreasing(Ids(Bucket(l.outs, a)), Ids(Bucket(l'.outs, a)));
  }

  /** An entry is fixed by its amount and its place. */
  lemma SameEntry(c: Crypto, l: Ledger, l': Ledger, f: seq<Entry>, a: nat, k: nat)
    requires OutputsAgree(c, l.txs.outputIndices, l.outs, f) && OutputsAgree(c, l'.txs.outputIndices, l'.outs, f)
    requires k < |Bucket(l.outs, a)| == |Bucket(l'.outs, a)|
    requires Bucket(l.outs, a)[k].outputId == Bucket(l'.outs, a)[k].outputId
    ensures Bucket(l.outs, a)[k] == Bucket(l'.outs, a)[k]
  {
    hide Dense, OutputId, TotalOutputs;
    assert Owned(l.txs.outputIndices, l.outs, f, a, k);
    var i: nat, j: nat :| Names(l.txs.outputIndices, l.outs, f, i, j, a, k);
    assert Owned(l'.txs.outputIndices, l'.outs, f, a, k);
    var i': nat, j': nat :| Names(l'.txs.outputIndices, l'.outs, f, i', j', a, k);
    OutputIdInjective(f, i, j, i', j');
    assert OutputFound(c, l.txs.outputIndices, l.outs, f, i, j);
    assert OutputFound(c, l'.txs.outputIndices, l'.outs, f, i, j);
  }

  lemma SameBucket(c: Crypto, l: Ledger, l': Ledger, f: seq<Entry>, a: nat)
    requires OutputsAgree(c, l.txs.outputIndices, l.outs, f) && OutputsAgree(c, l'.txs.outputIndices, l'.outs, f)
    ensures Bucket(l.outs, a) == Bucket(l'.outs, a)
  {
    hide OutputsAgree;
    SameIds(c, l, l', f, a);
    var b, b' := Bucket(l.outs, a), Bucket(l'.outs, a);
    assert |b| == |Ids(b)| == |Ids(b')| == |b'|;
    forall k | 0 <= k < |b| ensures b[k] == b'[k] {
      assert Ids(b)[k] == Ids(b')[k];
      SameEntry(c, l, l', f, a, k);
    }
  }

  /** Every output id belongs to some output. */
  lemma {:induction false} IdHasOutput(f: seq<Entry>, id: nat) returns (i: nat, j: nat)
    requires id < TotalOutputs(f)
    ensures IsOutput(f, i, j) && OutputId(f, i, j) == id
  {
    var n := |f| - 1;
    var pre := f[..n];
    if id < TotalOutputs(pre) {
      i, j := IdHasOutput(pre, id);
      assert pre[..i] == f[..i];
    } else {
      i, j := n, id - TotalOutputs(pre);
    }
  }

  lemma SameOutputs(c: Crypto, l: Ledger, l': Ledger, f: seq<Entry>)
    requires OutputsAgree(c, l.txs.outputIndices, l.outs, f) && OutputsAgree(c, l'.txs.outputIndices, l'.outs, f)
    ensures l.outs == l'.outs
  {
    forall a ensures (a in l.outs.amounts <==> a in l'.outs.amounts) && Bucket(l.outs, a) == Bucket(l'.outs, a) {
      SameBucket(c, l, l', f, a);
    }
    assert l.outs.amounts == l'.outs.amounts;
    forall id | 0 <= id < TotalOutputs(f) ensures l.outs.txs[id] == l'.outs.txs[id] {
      var i, j := IdHasOutput(f, id);
      assert OutputFound(c, l.txs.outputIndices, l.outs, f, i, j);
      assert OutputFound(c, l'.txs.outputIndices, l'.outs, f, i, j);
    }
  }

  /** With the same output tables, the recorded indices are the same. */
  lemma SameIndices(c: Crypto, l: Ledger, l': Ledger, f: seq<Entry>, i: nat)
    requires OutputsAgree(c, l.txs.outputIndices, l.outs, f) && OutputsAgree(c, l'.txs.outputIndices, l'.outs, f)
    requires l.outs == l'.outs && i < |f|
    ensures i in l.txs.outputIndices && i in l'.txs.outputIndices && l.txs.outputIndices[i] == l'.txs.outputIndices[i]
  {
    hide OutputId;
    var x, y := l.txs.outputIndices[i], l'.txs.outputIndices[i];
    forall j | 0 <= j < |x| ensures x[j] == y[j] {
      assert OutputFound(c, l.txs.outputIndices, l.outs, f, i, j);
      assert OutputFound(c, l'.txs.outputIndices, l'.outs, f, i, j);
      var b := Bucket(l.outs, AmountOf(f, i, j));
      assert b[x[j]].outputId == b[y[j]].outputId;
    }
  }

  lemma SameRows(c: Crypto, t: TxTables, t': TxTables, f: seq<Entry>)
    requires RowsAgree(c, t, f) && RowsAgree(c, t', f)
    requires forall i | 0 <= i < |f| ::
               i in t.outputIndices && i in t'.outputIndices && t.outputIndices[i] == t'.outputIndices[i]
    ensures t == t'
  {
    hide RowAgrees, KeysBelow;
    forall i | 0 <= i < |f|
      ensures i in t.pruned && i in t'.pruned && t.pruned[i] == t'.pruned[i]
      ensures i in t.prunable && i in t'.prunable && t.prunable[i] == t'.prunable[i]
      ensures i in t.prunableHash && i in t'.prunableHash ==> t.prunableHash[i] == t'.prunableHash[i]
    {
      SameRow(c, t, t', f, i);
    }
    SameMap(t.pruned, t'.pruned, |f|);
    SameMap(t.prunable, t'.prunable, |f|);
    SameMap(t.outputIndices, t'.outputIndices, |f|);
    assert t.prunableHash == t'.prunableHash;
    SameHashIndex(c, t, t', f);
  }

  lemma SameMap<T>(m: map<nat, T>, m': map<nat, T>, n: nat)
    requires KeysBelow(m, n) && KeysBelow(m', n) && forall i | 0 <= i < n :: i in m && i in m' && m[i] == m'[i]
    ensures m == m'
  {
  }

  lemma SameRow(c: Crypto, t: TxTables, t': TxTables, f: seq<Entry>, i: nat)
    requires RowsAgree(c, t, f) && RowsAgree(c, t', f) && i < |f|
    ensures i in t.pruned && i in t'.pruned && t.pruned[i] == t'.pruned[i]
    ensures i in t.prunable && i in t'.prunable && t.prunable[i] == t'.prunable[i]
    ensures i in t.prunableHash && i in t'.prunableHash ==> t.prunableHash[i] == t'.prunableHash[i]
  {
    assert RowAgrees(c, t, f, i) && RowAgrees(c, t', f, i);
  }

  lemma SameHashIndex(c: Crypto, t: TxTables, t': TxTables, f: seq<Entry>)
    requires RowsAgree(c, t, f) && RowsAgree(c, t', f)
    ensures t.indices == t'.indices
  {
    forall h | h in t.indices ensures h in t'.indices && t'.indices[h] == t.indices[h] {
      assert RowAgrees(c, t, f, t.indices[h].txId) && RowAgrees(c, t', f, t.indices[h].txId);
    }
    forall h | h in t'.indices ensures h in t.indices {
      assert RowAgrees(c, t, f, t'.indices[h].txId);
    }
  }

  /** Ledgers whose tables agree with the same list of transactions differ in the spent set at most. */
  lemma TablesAreComplete(c: Crypto, l: Ledger, l': Ledger, f: seq<Entry>)
    requires TablesAgree(c, l, f) && TablesAgree(c, l', f)
    ensures l.txs == l'.txs && l.outs == l'.outs
  {
    hide RowAgrees, OutputFound, Owned, Dense;
    SameOutputs(c, l, l', f);
    forall i | 0 <= i < |f| ensures l.txs.outputIndices[i] == l'.txs.outputIndices[i] { SameIndices(c, l, l', f, i); }
    SameRows(c, l.txs, l'.txs, f);
  }

  /** Two ledgers that agree with the same list of transactions are equal, table by table. */
  lemma AgreementIsComplete(c: Crypto, l: Ledger, l': Ledger, f: seq<Entry>)
    requires Agrees(c, l, f) && Agrees(c, l', f)
    ensures l == l'
  {
    hide TablesAgree, ImageOf;
    TablesAreComplete(c, l, l', f);
    assert l.spent == l'.spent;
  }

  /** Two sets of block tables that agree with the same chain are equal. */
  lemma BlockAgreementIsComplete(c: Crypto, t: BlockTables, t': BlockTables, chain: seq<BlockArgs>)
    requires BlocksAgree(c, t, chain) && BlocksAgree(c, t', chain)
    ensures t == t'
  {
    hide CumOf;
    assert t.blocks == t'.blocks;
    forall i | 0 <= i < |chain|
      ensures t.infos[i] == t'.infos[i] && HeightOf(c, t, chain, i) && HeightOf(c, t', chain, i)
    {
      assert InfoOf(c, t.infos[i], chain[i], i, CumOf(chain[..i + 1]));
      assert InfoOf(c, t'.infos[i], chain[i], i, CumOf(chain[..i + 1]));
    }
    assert t.infos == t'.infos;
    forall h | h in t.heights ensures h in t'.heights && t'.heights[h] == t.heights[h] {
      assert HeightOf(c, t', chain, t.heights[h]);
    }
    forall h | h in t'.heights ensures h in t.heights { assert HeightOf(c, t, chain, t'.heights[h]); }
    assert t.heights == t'.heights;
  }
}
