/**
  The ledger against the plain chain.  A chain is read as the list of its transactions, spinner first in each
  block; each table is then described from the stored ones among them alone, with no mention of how it is updated.
 */
module Agreement {
  import opened ChainData
  import opened Tables
  import opened BlockStore
  import opened SpentKeys
  import opened OutputTables
  import opened OutputNames
  import opened Transactions
  import opened Blocks
  import opened BlockAgreement
  import opened Runs

  /** A transaction with its hash and the height of its block. */
  datatype Entry = Entry(hash: Hash, tx: Transaction, height: nat)

  /** The spinner and the first `i` ordinary transactions of a block. */
  function BlockEntries(c: Crypto, a: BlockArgs, height: nat, i: nat): seq<Entry>
    requires i <= |a.txs| == |a.blk.txHashes|
  {
    if i == 0 then [Entry(c.txHash(a.blk.spinnerTx), a.blk.spinnerTx, height)]
    else BlockEntries(c, a, height, i - 1) + [Entry(a.blk.txHashes[i - 1], a.txs[i - 1], height)]
  }

  predicate Sized(chain: seq<BlockArgs>) {
    forall i | 0 <= i < |chain| :: |chain[i].txs| == |chain[i].blk.txHashes|
  }

  /** All transactions of the chain, in order. */
  function All(c: Crypto, chain: seq<BlockArgs>): seq<Entry>
    requires Sized(chain)
  {
    if chain == [] then []
    else
      var n := |chain| - 1;
      All(c, chain[..n]) + BlockEntries(c, chain[n], n, |chain[n].txs|)
  }

  /** The transactions that are really stored: those without an unsupported input. */
  function StoredOf(f: seq<Entry>): seq<Entry> {
    if f == [] then []
    else StoredOf(f[..|f| - 1]) + if Supported(f[|f| - 1].tx.base.vin) then [f[|f| - 1]] else []
  }

  function Flat(c: Crypto, chain: seq<BlockArgs>): seq<Entry>
    requires Sized(chain)
  {
    StoredOf(All(c, chain))
  }

  // ----- The reference description of each table -----

  ghost predicate KeysBelow<T>(m: map<nat, T>, n: nat) {
    forall i :: i in m <==> 0 <= i < n
  }

  /** Transaction number `i` is row `i` of the tables keyed by id; the hash index leads there, and nowhere else. */
  ghost predicate RowsAgree(c: Crypto, t: TxTables, f: seq<Entry>) {
    && KeysBelow(t.pruned, |f|) && KeysBelow(t.prunable, |f|) && KeysBelow(t.outputIndices, |f|)
    && (forall i :: i in t.prunableHash <==> 0 <= i < |f| && f[i].tx.base.version > 1)
    && (forall i | 0 <= i < |f| :: RowAgrees(c, t, f, i))
    && (forall h | h in t.indices :: t.indices[h].txId < |f| && f[t.indices[h].txId].hash == h)
  }

  ghost predicate RowAgrees(c: Crypto, t: TxTables, f: seq<Entry>, i: nat)
    requires i < |f| && i in t.pruned && i in t.prunable
  {
    && t.pruned[i] == f[i].tx.base && t.prunable[i] == f[i].tx.prunable
    && (f[i].tx.base.version > 1 && i in t.prunableHash ==> t.prunableHash[i] == c.prunableHash(f[i].tx))
    && f[i].hash in t.indices && t.indices[f[i].hash] == TxIndex(i, f[i].tx.base.unlockTime, f[i].height)
  }

  /** How many inputs of `vin` spend a key. */
  function KeyInputs(vin: seq<TxIn>): nat {
    if vin == [] then 0 else KeyInputs(vin[..|vin| - 1]) + if vin[|vin| - 1].ToKey? then 1 else 0
  }

  function TotalKeyInputs(f: seq<Entry>): nat {
    if f == [] then 0 else TotalKeyInputs(f[..|f| - 1]) + KeyInputs(f[|f| - 1].tx.base.vin)
  }

  /** `k` is the image of some input of `f`. */
  ghost predicate ImageOf(f: seq<Entry>, k: KeyImage) {
    exists i | 0 <= i < |f| :: k in Images(f[i].tx.base.vin)
  }

  /** The spent set is the disjoint union of the images of all inputs: no image twice, none missing, none extra. */
  ghost predicate SpentAgrees(spent: set<KeyImage>, f: seq<Entry>) {
    && (forall k :: k in spent <==> ImageOf(f, k))
    && |spent| == TotalKeyInputs(f)
  }

  /** How many outputs the transactions of `f` have. */
  function TotalOutputs(f: seq<Entry>): nat {
    if f == [] then 0 else TotalOutputs(f[..|f| - 1]) + |f[|f| - 1].tx.base.vout|
  }

  predicate IsOutput(f: seq<Entry>, i: nat, j: nat) {
    i < |f| && j < |f[i].tx.base.vout|
  }

  /** The amount output `j` of transaction `i` is stored under. */
  function AmountOf(f: seq<Entry>, i: nat, j: nat): nat
    requires IsOutput(f, i, j)
  {
    StoredAmount(f[i].tx.base, HasGen(f[i].tx.base.vin), j)
  }

  /** The position of output `j` of transaction `i` among all outputs. */
  function OutputId(f: seq<Entry>, i: nat, j: nat): nat
    requires IsOutput(f, i, j)
  {
    TotalOutputs(f[..i]) + j
  }

  /** Output `j` of transaction `i` has its row, and the recorded index leads to its entry. */
  ghost predicate OutputFound(c: Crypto, idx: map<nat, seq<nat>>, o: Outputs, f: seq<Entry>, i: nat, j: nat)
    requires IsOutput(f, i, j)
  {
    var id, b := OutputId(f, i, j), Bucket(o, AmountOf(f, i, j));
    && id < |o.txs| && o.txs[id] == OutTx(id, f[i].hash, j)
    && i in idx && j < |idx[i]| && idx[i][j] < |b|
    && IsEntry(c, b[idx[i][j]], idx[i][j], id, f[i].tx.base, HasGen(f[i].tx.base.vin), j, f[i].height)
  }

  /** Output `j` of transaction `i` is the one entry `k` of amount `a` stands for. */
  ghost predicate Names(idx: map<nat, seq<nat>>, o: Outputs, f: seq<Entry>, i: nat, j: nat, a: nat, k: nat)
    requires k < |Bucket(o, a)|
  {
    && IsOutput(f, i, j) && AmountOf(f, i, j) == a && Bucket(o, a)[k].outputId == OutputId(f, i, j)
    && i in idx && j < |idx[i]| && idx[i][j] == k
  }

  ghost predicate Owned(idx: map<nat, seq<nat>>, o: Outputs, f: seq<Entry>, a: nat, k: nat)
    requires k < |Bucket(o, a)|
  {
    exists i: nat, j: nat :: Names(idx, o, f, i, j, a, k)
  }

  ghost predicate OutputsAgree(c: Crypto, idx: map<nat, seq<nat>>, o: Outputs, f: seq<Entry>) {
    && Dense(o) && |o.txs| == TotalOutputs(f)
    && (forall i | 0 <= i < |f| :: i in idx && |idx[i]| == |f[i].tx.base.vout|)
    && (forall i: nat, j: nat | IsOutput(f, i, j) :: OutputFound(c, idx, o, f, i, j))
    && (forall a, k | 0 <= k < |Bucket(o, a)| :: Owned(idx, o, f, a, k))
  }

  /** All but the spent set. */
  ghost predicate TablesAgree(c: Crypto, l: Ledger, f: seq<Entry>) {
    RowsAgree(c, l.txs, f) && OutputsAgree(c, l.txs.outputIndices, l.outs, f)
  }

  ghost predicate Agrees(c: Crypto, l: Ledger, f: seq<Entry>) {
    TablesAgree(c, l, f) && SpentAgrees(l.spent, f)
  }

  // ----- One more transaction -----

  lemma {:induction false} SizeOfRange(m: set<nat>, n: nat)
    requires forall i :: i in m <==> 0 <= i < n
    ensures |m| == n
  {
    if n == 0 {
      assert m == {};
    } else {
      SizeOfRange(m - {n - 1}, n - 1);
    }
  }

  lemma RowStep(c: Crypto, t: TxTables, f: seq<Entry>, e: Entry, indices: seq<nat>, i: nat)
    requires RowsAgree(c, t, f) && e.hash !in t.indices && |t.pruned| == |f| && i <= |f|
    ensures var t' := WithTx(c, t, e.height, e.tx, e.hash, indices);
            i in t'.pruned && i in t'.prunable && RowAgrees(c, t', f + [e], i)
  {
    if i < |f| { assert RowAgrees(c, t, f, i) && (f + [e])[i] == f[i]; }
  }

  lemma IndexStep(c: Crypto, t: TxTables, f: seq<Entry>, e: Entry, indices: seq<nat>, h: Hash)
    requires RowsAgree(c, t, f) && e.hash !in t.indices && |t.pruned| == |f|
    requires h in WithTx(c, t, e.height, e.tx, e.hash, indices).indices
    ensures var t' := WithTx(c, t, e.height, e.tx, e.hash, indices);
            t'.indices[h].txId <= |f| && (f + [e])[t'.indices[h].txId].hash == h
  {
  }

  lemma DomainStep<T>(m: map<nat, T>, n: nat, v: T)
    requires KeysBelow(m, n)
    ensures KeysBelow(m[n := v], n + 1)
  {
  }

  lemma DomainsStep(c: Crypto, t: TxTables, f: seq<Entry>, e: Entry, indices: seq<nat>)
    requires RowsAgree(c, t, f) && |t.pruned| == |f|
    ensures var t', f' := WithTx(c, t, e.height, e.tx, e.hash, indices), f + [e];
            && KeysBelow(t'.pruned, |f'|) && KeysBelow(t'.prunable, |f'|) && KeysBelow(t'.outputIndices, |f'|)
            && forall i :: i in t'.prunableHash <==> 0 <= i < |f'| && f'[i].tx.base.version > 1
  {
    hide RowAgrees, KeysBelow;
    DomainStep(t.pruned, |f|, e.tx.base);
    DomainStep(t.prunable, |f|, e.tx.prunable);
    DomainStep(t.outputIndices, |f|, indices);
  }

  lemma RowsStep(c: Crypto, t: TxTables, f: seq<Entry>, e: Entry, indices: seq<nat>)
    requires RowsAgree(c, t, f) && e.hash !in t.indices
    ensures |t.pruned| == |f|
    ensures RowsAgree(c, WithTx(c, t, e.height, e.tx, e.hash, indices), f + [e])
  {
    hide RowAgrees, WithTx;
    SizeOfRange(t.pruned.Keys, |f|);
    var t', f' := WithTx(c, t, e.height, e.tx, e.hash, indices), f + [e];
    DomainsStep(c, t, f, e, indices);
    forall i | 0 <= i < |f'| ensures RowAgrees(c, t', f', i) { RowStep(c, t, f, e, indices, i); }
    forall h | h in t'.indices ensures t'.indices[h].txId < |f'| && f'[t'.indices[h].txId].hash == h {
      IndexStep(c, t, f, e, indices, h);
    }
  }

  lemma {:induction false} CountImages(vin: seq<TxIn>)
    requires DistinctImages(vin)
    ensures |Images(vin)| == KeyInputs(vin)
  {
    if vin == [] {
      assert Images(vin) == {};
    } else {
      var n := |vin| - 1;
      var pre := vin[..n];
      forall i, j | 0 <= i < j < n && pre[i].ToKey? && pre[j].ToKey? ensures pre[i].keyImage != pre[j].keyImage {
        assert vin[i].keyImage != vin[j].keyImage;
      }
      CountImages(pre);
      PrefixImages(vin, n);
      assert vin[n..] == [vin[n]];
      if vin[n].ToKey? {
        var k := vin[n].keyImage;
        forall i | 0 <= i < n && pre[i].ToKey? ensures pre[i].keyImage != k {
          assert vin[i].keyImage != vin[n].keyImage;
        }
        assert [vin[n]][0].keyImage in Images([vin[n]]);
        assert Images([vin[n]]) == {k};
        assert Images(vin) == Images(pre) + {k};
      } else {
        assert Images([vin[n]]) == {};
      }
    }
  }

  lemma ImageOfStep(f: seq<Entry>, e: Entry, k: KeyImage)
    ensures ImageOf(f + [e], k) <==> ImageOf(f, k) || k in Images(e.tx.base.vin)
  {
    hide Images;
    var f' := f + [e];
    if ImageOf(f, k) {
      var i :| 0 <= i < |f| && k in Images(f[i].tx.base.vin);
      assert k in Images(f'[i].tx.base.vin);
    }
    if k in Images(e.tx.base.vin) { assert k in Images(f'[|f|].tx.base.vin); }
    if ImageOf(f', k) {
      var i :| 0 <= i < |f'| && k in Images(f'[i].tx.base.vin);
      if i < |f| { assert k in Images(f[i].tx.base.vin); }
    }
  }

  lemma OutputIdKept(f: seq<Entry>, e: Entry, i: nat, j: nat)
    requires IsOutput(f, i, j)
    ensures IsOutput(f + [e], i, j) && OutputId(f + [e], i, j) == OutputId(f, i, j)
    ensures AmountOf(f + [e], i, j) == AmountOf(f, i, j)
  {
    assert (f + [e])[..i] == f[..i];
  }

  lemma OutputsStep(c: Crypto, idx: map<nat, seq<nat>>, o: Outputs, f: seq<Entry>, e: Entry, s: Indexed)
    requires OutputsAgree(c, idx, o, f) && |f| !in idx
    requires Dense(s.outs) && |s.indices| == |e.tx.base.vout|
    requires Named(c, Indexed(o, []), s, e.hash, e.tx.base, HasGen(e.tx.base.vin), e.height)
    ensures OutputsAgree(c, idx[|f| := s.indices], s.outs, f + [e])
  {
    hide Dense, IsEntry, Owned, EntryOwned;
    var idx', f' := idx[|f| := s.indices], f + [e];
    assert f'[..|f|] == f;
    forall i: nat, j: nat | IsOutput(f', i, j) ensures OutputFound(c, idx', s.outs, f', i, j) {
      if i < |f| {
        OldOutputFound(c, idx, o, f, e, s, i, j);
      } else {
        assert OutputNamed(c, Indexed(o, []), s, e.hash, e.tx.base, HasGen(e.tx.base.vin), e.height, j);
      }
    }
    forall a, k | 0 <= k < |Bucket(s.outs, a)| ensures Owned(idx', s.outs, f', a, k) {
      EntryStep(c, idx, o, f, e, s, a, k);
    }
  }

  lemma EntryStep(c: Crypto, idx: map<nat, seq<nat>>, o: Outputs, f: seq<Entry>, e: Entry, s: Indexed, a: nat, k: nat)
    requires OutputsAgree(c, idx, o, f) && |f| !in idx
    requires |s.indices| == |e.tx.base.vout| && k < |Bucket(s.outs, a)|
    requires Named(c, Indexed(o, []), s, e.hash, e.tx.base, HasGen(e.tx.base.vin), e.height)
    ensures Owned(idx[|f| := s.indices], s.outs, f + [e], a, k)
  {
    hide Dense, IsEntry, OutputFound, OutputNamed;
    var idx', f' := idx[|f| := s.indices], f + [e];
    assert f'[..|f|] == f;
    if k < |Bucket(o, a)| {
      assert Owned(idx, o, f, a, k);
      var i: nat, j: nat :| Names(idx, o, f, i, j, a, k);
      OutputIdKept(f, e, i, j);
      assert Bucket(s.outs, a)[k] == Bucket(s.outs, a)[..|Bucket(o, a)|][k];
      assert Names(idx', s.outs, f', i, j, a, k);
    } else {
      assert EntryOwned(Indexed(o, []), s, e.tx.base, HasGen(e.tx.base.vin), a, k);
      var j := Bucket(s.outs, a)[k].outputId - |o.txs|;
      assert Names(idx', s.outs, f', |f|, j, a, k);
    }
  }

  lemma OldOutputFound(c: Crypto, idx: map<nat, seq<nat>>, o: Outputs, f: seq<Entry>, e: Entry, s: Indexed, i: nat,
                       j: nat)
    requires OutputsAgree(c, idx, o, f) && |f| !in idx && IsOutput(f, i, j)
    requires Named(c, Indexed(o, []), s, e.hash, e.tx.base, HasGen(e.tx.base.vin), e.height)
    ensures OutputFound(c, idx[|f| := s.indices], s.outs, f + [e], i, j)
  {
    hide Dense, IsEntry;
    assert OutputFound(c, idx, o, f, i, j);
    OutputIdKept(f, e, i, j);
    var id, a := OutputId(f, i, j), AmountOf(f, i, j);
    assert s.outs.txs[id] == s.outs.txs[..|o.txs|][id];
    assert Bucket(s.outs, a)[idx[i][j]] == Bucket(s.outs, a)[..|Bucket(o, a)|][idx[i][j]];
  }

  /** A stored transaction extends the list the tables agree with. */
  lemma AgreesStep(c: Crypto, l: Ledger, f: seq<Entry>, e: Entry)
    requires TablesAgree(c, l, f) && Supported(e.tx.base.vin)
    requires AddTransaction(c, l, e.height, e.tx, e.hash).Done?
    ensures TablesAgree(c, AddTransaction(c, l, e.height, e.tx, e.hash).state, f + [e])
  {
    hide AddTransaction, AddOutputs, RowsAgree, Dense, Named, OutputFound;
    DenseIsOrdered(l.outs);
    StoredShape(c, l, e.height, e.tx, e.hash);
    var s := AddOutputs(c, Indexed(l.outs, []), e.hash, e.tx.base, HasGen(e.tx.base.vin), e.height).state;
    RowsStep(c, l.txs, f, e, s.indices);
    AddOutputsNames(c, Indexed(l.outs, []), e.hash, e.tx.base, HasGen(e.tx.base.vin), e.height);
    OutputsStep(c, l.txs.outputIndices, l.outs, f, e, s);
  }

  lemma TablesAreOrdered(c: Crypto, l: Ledger, f: seq<Entry>)
    requires TablesAgree(c, l, f)
    ensures Dense(l.outs) && Ordered(l.outs)
  {
    hide Dense, Ordered;
    DenseIsOrdered(l.outs);
  }

  // ----- The spent set -----

  /** What holds of the spent set in any case: no image of anything but a stored input, and none twice. */
  ghost predicate SpentBounded(spent: set<KeyImage>, f: seq<Entry>) {
    && (forall k | k in spent :: ImageOf(f, k))
    && |spent| <= TotalKeyInputs(f)
    && (|spent| == TotalKeyInputs(f) ==> forall k | ImageOf(f, k) :: k in spent)
  }

  lemma SpentStep(spent: set<KeyImage>, f: seq<Entry>, e: Entry)
    requires SpentBounded(spent, f) && Spendable(e.tx.base.vin, spent)
    ensures SpentBounded(spent + Images(e.tx.base.vin), f + [e])
    ensures SpentAgrees(spent + Images(e.tx.base.vin), f + [e]) <==> SpentAgrees(spent, f)
  {
    hide Images, ImageOf, DistinctImages, Supported;
    CountImages(e.tx.base.vin);
    assert (f + [e])[..|f|] == f;
    var spent' := spent + Images(e.tx.base.vin);
    assert |spent'| == |spent| + |Images(e.tx.base.vin)|;
    forall k ensures ImageOf(f + [e], k) <==> ImageOf(f, k) || k in Images(e.tx.base.vin) { ImageOfStep(f, e, k); }
  }

  /** Quietly skipped, a transaction takes its images out of the spent set. */
  lemma SpentForgets(spent: set<KeyImage>, f: seq<Entry>, gone: set<KeyImage>)
    requires SpentBounded(spent, f)
    ensures SpentBounded(spent - gone, f)
    ensures SpentAgrees(spent - gone, f) <==> SpentAgrees(spent, f) && forall k | k in gone :: !ImageOf(f, k)
  {
    hide ImageOf;
    if gone * spent == {} {
      assert spent - gone == spent;
    } else {
      assert spent == (spent - gone) + (spent * gone);
      assert |spent| == |spent - gone| + |spent * gone|;
      var k :| k in gone * spent;
      assert k in spent && ImageOf(f, k);
    }
  }

  /** No skipped transaction lists an image that a stored one before it had spent. */
  ghost predicate NoneForgotten(f: seq<Entry>) {
    forall i, k | 0 <= i < |f| && !Supported(f[i].tx.base.vin) && k in Images(f[i].tx.base.vin) ::
      !ImageOf(StoredOf(f[..i]), k)
  }

  lemma NoneForgottenStep(f: seq<Entry>, e: Entry)
    ensures NoneForgotten(f + [e]) <==>
            NoneForgotten(f) &&
            (!Supported(e.tx.base.vin) ==> forall k | k in Images(e.tx.base.vin) :: !ImageOf(StoredOf(f), k))
  {
    hide Images, ImageOf, Supported, StoredOf;
    var f' := f + [e];
    assert f'[..|f|] == f && f'[|f|] == e;
    forall i | 0 <= i < |f| ensures f'[..i] == f[..i] && f'[i] == f[i] {}
  }

  // ----- Blocks and chains -----

  /** What the tables of a ledger have to do with a list of transactions, stored or skipped. */
  ghost predicate Follows(c: Crypto, l: Ledger, f: seq<Entry>) {
    && TablesAgree(c, l, StoredOf(f)) && SpentBounded(l.spent, StoredOf(f))
    && (SpentAgrees(l.spent, StoredOf(f)) <==> NoneForgotten(f))
  }

  lemma FollowsStep(c: Crypto, l: Ledger, f: seq<Entry>, e: Entry)
    requires Follows(c, l, f) && AddTransaction(c, l, e.height, e.tx, e.hash).Done?
    ensures Follows(c, AddTransaction(c, l, e.height, e.tx, e.hash).state, f + [e])
  {
    hide AddTransaction, TablesAgree, SpentBounded, SpentAgrees, NoneForgotten, Images, ImageOf;
    var vin := e.tx.base.vin;
    assert (f + [e])[..|f|] == f;
    NoneForgottenStep(f, e);
    TablesAreOrdered(c, l, StoredOf(f));
    if Supported(vin) {
      AgreesStep(c, l, StoredOf(f), e);
      StoredShape(c, l, e.height, e.tx, e.hash);
      SpentStep(l.spent, StoredOf(f), e);
    } else {
      UnsupportedShape(c, l, e.height, e.tx, e.hash);
      SpentForgets(l.spent, StoredOf(f), Images(vin));
      assert StoredOf(f + [e]) == StoredOf(f);
      OnlySpent(c, l, StoredOf(f), l.spent - Images(vin));
    }
  }

  lemma OnlySpent(c: Crypto, l: Ledger, f: seq<Entry>, spent: set<KeyImage>)
    requires TablesAgree(c, l, f)
    ensures TablesAgree(c, l.(spent := spent), f)
  {
  }

  lemma {:induction false} BlockFollows(c: Crypto, l: Ledger, f: seq<Entry>, height: nat, a: BlockArgs, i: nat)
    requires i <= |a.txs| == |a.blk.txHashes|
    requires Follows(c, l, f) && LedgerAfter(c, l, height, a, i).Done?
    ensures Follows(c, LedgerAfter(c, l, height, a, i).state, f + BlockEntries(c, a, height, i))
  {
    hide AddTransaction, Follows;
    if i == 0 {
      FollowsStep(c, l, f, Entry(c.txHash(a.blk.spinnerTx), a.blk.spinnerTx, height));
    } else {
      var e := Entry(a.blk.txHashes[i - 1], a.txs[i - 1], height);
      var pre := BlockEntries(c, a, height, i - 1);
      BlockFollows(c, l, f, height, a, i - 1);
      FollowsStep(c, LedgerAfter(c, l, height, a, i - 1).state, f + pre, e);
      assert f + pre + [e] == f + (pre + [e]);
    }
  }

  lemma NothingFollows(c: Crypto, chain: seq<BlockArgs>)
    requires chain == []
    ensures Follows(c, EMPTY_LEDGER, All(c, chain))
  {
    assert forall k :: !ImageOf([], k);
  }

  /**
    Every ledger a chain builds is the one described from the chain: the tables from its stored transactions, and
    the spent set too exactly when no skipped transaction lists an image spent before it.
   */
  lemma BuiltAgrees(c: Crypto, chain: seq<BlockArgs>)
    requires Build(c, chain).Done?
    ensures Sized(chain)
    ensures TablesAgree(c, Build(c, chain).state.ledger, Flat(c, chain))
    ensures Agrees(c, Build(c, chain).state.ledger, Flat(c, chain)) <==> NoneForgotten(All(c, chain))
  {
    hide Build, TablesAgree, SpentAgrees, NoneForgotten, SpentBounded;
    BuiltFollows(c, chain);
  }

  lemma {:induction false} BuiltFollows(c: Crypto, chain: seq<BlockArgs>)
    requires Build(c, chain).Done?
    ensures Sized(chain) && Follows(c, Build(c, chain).state.ledger, All(c, chain))
  {
    hide AddBlock, LedgerAfter, Follows, Ordered, BlockEntries, BlocksAgree;
    if chain == [] {
      NothingFollows(c, chain);
    } else {
      var n := |chain| - 1;
      var pre, a := chain[..n], chain[n];
      BuiltFollows(c, pre);
      BuildBasics(c, pre);
      var s := Build(c, pre).state;
      AddBlockShape(c, s, a);
      BlockFollows(c, s.ledger, All(c, pre), n, a, |a.txs|);
      assert chain == pre + [a];
    }
  }

  // ----- What agreement means for a lookup -----

  lemma {:induction false} TotalOutputsSplit(f: seq<Entry>, i: nat)
    requires i < |f|
    ensures TotalOutputs(f[..i]) + |f[i].tx.base.vout| <= TotalOutputs(f)
  {
    assert f[..|f|] == f;
    if i < |f| - 1 {
      assert f[..|f| - 1][..i] == f[..i];
      TotalOutputsSplit(f[..|f| - 1], i);
    }
  }

  lemma OutputIdInjective(f: seq<Entry>, i: nat, j: nat, i': nat, j': nat)
    requires IsOutput(f, i, j) && IsOutput(f, i', j') && OutputId(f, i, j) == OutputId(f, i', j')
    ensures i == i' && j == j'
  {
    if i < i' {
      assert f[..i'][..i] == f[..i] && f[..i'][i] == f[i];
      TotalOutputsSplit(f[..i'], i);
    } else if i' < i {
      assert f[..i][..i'] == f[..i'] && f[..i][i'] == f[i'];
      TotalOutputsSplit(f[..i], i');
    }
  }
}
