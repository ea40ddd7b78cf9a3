/** Exactly which blocks `pop_block` takes back, among all that `add_block` accepts. */
module BlockConverse {
  import opened ChainData
  import opened Tables
  import opened BlockStore
  import opened OutputTables
  import opened Transactions
  import opened Blocks
  import opened TableContents

  // ----- The outputs of one transaction -----

  /** The amounts the outputs are stored under. */
  function Stored(tx: TxBase): seq<nat> {
    seq(|tx.vout|, i requires 0 <= i < |tx.vout| => StoredAmount(tx, HasGen(tx.vin), i))
  }

  /** The amounts removal looks for them under. */
  function Sought(tx: TxBase): seq<nat> {
    seq(|tx.vout|, i requires 0 <= i < |tx.vout| => RemovedAmount(tx, i))
  }

  /** The index an output gets: what was there under its amount before, and since. */
  function IndexOf(o: Outputs, stored: seq<nat>, m: nat): nat
    requires m < |stored|
  {
    |Bucket(o, stored[m])| + multiset(stored[..m])[stored[m]]
  }

  /** The slots of outputs stored under the amounts `stored` on top of `o`, when looked for under `amounts`. */
  function SlotsOf(o: Outputs, stored: seq<nat>, amounts: seq<nat>): seq<Slot>
    requires |amounts| == |stored|
  {
    seq(|stored|, m requires 0 <= m < |stored| => Slot(amounts[m], IndexOf(o, stored, m)))
  }

  /** `o'` has that many entries more under each amount. */
  ghost predicate Counted(o: Outputs, o': Outputs, stored: seq<nat>) {
    forall a :: |Bucket(o', a)| == |Bucket(o, a)| + multiset(stored)[a]
  }

  lemma IndexConcat(o: Outputs, o': Outputs, s: seq<nat>, s': seq<nat>, m: nat)
    requires m < |s + s'| && Counted(o, o', s)
    ensures IndexOf(o, s + s', m) == if m < |s| then IndexOf(o, s, m) else IndexOf(o', s', m - |s|)
  {
    var all := s + s';
    if m < |s| {
      assert all[..m] == s[..m];
    } else {
      assert all[..m] == s + s'[..m - |s|];
      assert multiset(s + s'[..m - |s|]) == multiset(s) + multiset(s'[..m - |s|]);
    }
  }

  lemma SlotsConcat(o: Outputs, o': Outputs, s: seq<nat>, s': seq<nat>, b: seq<nat>, b': seq<nat>)
    requires |b| == |s| && |b'| == |s'| && Counted(o, o', s)
    ensures SlotsOf(o, s + s', b + b') == SlotsOf(o, s, b) + SlotsOf(o', s', b')
  {
    hide IndexOf, Counted;
    forall m: nat | m < |s + s'|
      ensures SlotsOf(o, s + s', b + b')[m] == (SlotsOf(o, s, b) + SlotsOf(o', s', b'))[m]
    {
      IndexConcat(o, o', s, s', m);
    }
  }

  lemma CountedConcat(o: Outputs, o': Outputs, o'': Outputs, s: seq<nat>, s': seq<nat>)
    requires Counted(o, o', s) && Counted(o', o'', s')
    ensures Counted(o, o'', s + s')
  {
    assert multiset(s + s') == multiset(s) + multiset(s');
  }

  /** The loop of `add_transaction` over the outputs, on tables that had `o` and then these outputs. */
  ghost predicate Placed(o: Outputs, s: Indexed, stored: seq<nat>) {
    && |s.indices| <= |stored|
    && (forall m | 0 <= m < |s.indices| :: s.indices[m] == IndexOf(o, stored, m))
    && Counted(o, s.outs, stored[..|s.indices|])
  }

  /** One more output: one more entry under its amount, which removal from there takes back. */
  lemma StoredNext(c: Crypto, s: Indexed, hash: Hash, tx: TxBase, height: nat)
    requires Ordered(s.outs) && |s.indices| < |tx.vout|
    requires StoreOutput(c, s.outs, hash, tx, HasGen(tx.vin), height, |s.indices|).Done?
    ensures var next := NextIndexed(c, s, hash, tx, HasGen(tx.vin), height);
            var amount := Stored(tx)[|s.indices|];
            && Ordered(next.outs) && Counted(s.outs, next.outs, [amount])
            && next.indices == s.indices + [|Bucket(s.outs, amount)|]
            && RemoveOutput(next.outs, amount, |Bucket(s.outs, amount)|) == Done(s.outs)
  {
    hide RemoveOutput, AddOutput;
    var i := |s.indices|;
    var Some((out, commitment)) := StoredOutput(c, tx, HasGen(tx.vin), i);
    AddOutputAppends(s.outs, hash, out, i, tx.unlockTime, height, commitment);
    RemoveOutputUndoes(s.outs, hash, out, i, tx.unlockTime, height, commitment);
  }

  /** The index an output gets is the number of entries it finds under its amount. */
  lemma NextIndex(o: Outputs, s: Indexed, stored: seq<nat>)
    requires |s.indices| < |stored| && Placed(o, s, stored)
    ensures IndexOf(o, stored, |s.indices|) == |Bucket(s.outs, stored[|s.indices|])|
  {
  }

  lemma PlacedNext(c: Crypto, o: Outputs, s: Indexed, hash: Hash, tx: TxBase, height: nat)
    requires Ordered(s.outs) && |s.indices| < |tx.vout| && Placed(o, s, Stored(tx))
    requires StoreOutput(c, s.outs, hash, tx, HasGen(tx.vin), height, |s.indices|).Done?
    ensures Placed(o, NextIndexed(c, s, hash, tx, HasGen(tx.vin), height), Stored(tx))
  {
    hide Ordered, StoreOutput, NextIndexed, IndexOf, Counted;
    var i, stored := |s.indices|, Stored(tx);
    var next := NextIndexed(c, s, hash, tx, HasGen(tx.vin), height);
    StoredNext(c, s, hash, tx, height);
    NextIndex(o, s, stored);
    CountedConcat(o, s.outs, next.outs, stored[..i], [stored[i]]);
    assert stored[..i + 1] == stored[..i] + [stored[i]];
  }

  /** Every recorded index is as foretold, and removal from where the outputs were stored would undo the loop. */
  lemma {:induction false} AddOutputsPlaces(c: Crypto, o: Outputs, s: Indexed, hash: Hash, tx: TxBase, height: nat)
    requires Ordered(s.outs) && |s.indices| <= |tx.vout| && Placed(o, s, Stored(tx))
    requires AddOutputs(c, s, hash, tx, HasGen(tx.vin), height).Done?
    ensures var s' := AddOutputs(c, s, hash, tx, HasGen(tx.vin), height).state;
            var slots := SlotsOf(o, Stored(tx), Stored(tx));
            && Placed(o, s', Stored(tx)) && |s'.indices| == |tx.vout|
            && RemoveSlots(s'.outs, slots) == RemoveSlots(s.outs, slots[..|s.indices|])
    decreases |tx.vout| - |s.indices|
  {
    hide StoreOutput, RemoveOutput, Ordered, Placed, Counted, IndexOf;
    var i, slots := |s.indices|, SlotsOf(o, Stored(tx), Stored(tx));
    if i == |tx.vout| {
      assert slots[..i] == slots;
    } else {
      var next := NextIndexed(c, s, hash, tx, HasGen(tx.vin), height);
      StoredNext(c, s, hash, tx, height);
      PlacedNext(c, o, s, hash, tx, height);
      AddOutputsPlaces(c, o, next, hash, tx, height);
      assert slots[..i + 1][..i] == slots[..i];
      PlacedIndex(o, next, Stored(tx), i);
    }
  }

  lemma PlacedIndex(o: Outputs, s: Indexed, stored: seq<nat>, m: nat)
    requires Placed(o, s, stored) && m < |s.indices|
    ensures m < |stored| && s.indices[m] == IndexOf(o, stored, m)
  {
  }

  /** `remove_tx_outputs` removes the slots it seeks. */
  lemma {:induction false} RemoveOutputsIsRemoveSlots(o: Outputs, base: Outputs, tx: TxBase, indices: seq<nat>, i: nat)
    requires i <= |tx.vout| == |indices|
    requires forall m | 0 <= m < |indices| :: indices[m] == IndexOf(base, Stored(tx), m)
    ensures RemoveOutputs(o, tx, indices, i) == RemoveSlots(o, SlotsOf(base, Stored(tx), Sought(tx))[..i])
    decreases i
  {
    hide RemoveOutput, IndexOf;
    var slots := SlotsOf(base, Stored(tx), Sought(tx));
    if i > 0 {
      assert slots[..i][..i - 1] == slots[..i - 1];
      match RemoveOutput(o, RemovedAmount(tx, i - 1), indices[i - 1])
      case Thrown(_, _) =>
      case Done(o') => RemoveOutputsIsRemoveSlots(o', base, tx, indices, i - 1);
    }
  }

  // ----- One transaction -----

  lemma TransactionPlaces(c: Crypto, l: Ledger, height: nat, tx: Transaction, hash: Hash)
    requires Ordered(l.outs) && Supported(tx.base.vin) && AddTransaction(c, l, height, tx, hash).Done?
    ensures var l' := AddTransaction(c, l, height, tx, hash).state;
            && Ordered(l'.outs) && Counted(l.outs, l'.outs, Stored(tx.base))
            && RemoveSlots(l'.outs, SlotsOf(l.outs, Stored(tx.base), Stored(tx.base))) == Done(l.outs)
  {
    hide AddTransaction, AddOutputs, Ordered;
    StoredShape(c, l, height, tx, hash);
    PlacedFirst(l.outs, Stored(tx.base));
    AddOutputsPlaces(c, l.outs, Indexed(l.outs, []), hash, tx.base, height);
    var s := AddOutputs(c, Indexed(l.outs, []), hash, tx.base, HasGen(tx.base.vin), height).state;
    assert Stored(tx.base)[..|s.indices|] == Stored(tx.base);
    assert SlotsOf(l.outs, Stored(tx.base), Stored(tx.base))[..0] == [];
  }

  lemma PlacedFirst(o: Outputs, stored: seq<nat>)
    ensures Placed(o, Indexed(o, []), stored)
  {
    assert stored[..0] == [];
  }

  /** Removal of a stored transaction, whatever happened to the output tables since, removes the slots it seeks. */
  lemma RemoveSeeks(c: Crypto, l: Ledger, height: nat, tx: Transaction, hash: Hash, outs: Outputs)
    requires Ordered(l.outs) && Supported(tx.base.vin) && AddTransaction(c, l, height, tx, hash).Done?
    ensures var l' := AddTransaction(c, l, height, tx, hash).state.(outs := outs);
            var r := RemoveSlots(outs, SlotsOf(l.outs, Stored(tx.base), Sought(tx.base)));
            && GetTx(l'.txs, hash) == Some(tx)
            && RemoveTransaction(l', hash).Done? == r.Done?
            && (r.Done? ==> RemoveTransaction(l', hash) == Done(l.(outs := r.state)))
  {
    hide AddTransaction, RemoveTransaction, AddOutputs, GetTx, Ordered;
    StoredShape(c, l, height, tx, hash);
    StoredIsRead(c, l, height, tx, hash);
    PlacedFirst(l.outs, Stored(tx.base));
    AddOutputsPlaces(c, l.outs, Indexed(l.outs, []), hash, tx.base, height);
    var s := AddOutputs(c, Indexed(l.outs, []), hash, tx.base, HasGen(tx.base.vin), height).state;
    RemoveStored(c, l, height, tx, hash, outs);
    RemoveOutputsIsRemoveSlots(outs, l.outs, tx.base, s.indices, |tx.base.vout|);
    var slots := SlotsOf(l.outs, Stored(tx.base), Sought(tx.base));
    assert slots[..|tx.base.vout|] == slots;
  }

  // ----- One block -----

  /** The amounts the outputs of the spinner and the first `i` ordinary transactions are stored under. */
  function BlockStored(a: BlockArgs, i: nat): seq<nat>
    requires i <= |a.txs|
  {
    if i == 0 then Stored(a.blk.spinnerTx.base) else BlockStored(a, i - 1) + Stored(a.txs[i - 1].base)
  }

  /** The amounts removal looks for them under. */
  function BlockSought(a: BlockArgs, i: nat): (r: seq<nat>)
    requires i <= |a.txs|
    ensures |r| == |BlockStored(a, i)|
  {
    if i == 0 then Sought(a.blk.spinnerTx.base) else BlockSought(a, i - 1) + Sought(a.txs[i - 1].base)
  }

  /** Where the outputs are stored, and where they are looked for. */
  function StoredSlots(o: Outputs, a: BlockArgs, i: nat): seq<Slot>
    requires i <= |a.txs|
  {
    SlotsOf(o, BlockStored(a, i), BlockStored(a, i))
  }

  function SoughtSlots(o: Outputs, a: BlockArgs, i: nat): seq<Slot>
    requires i <= |a.txs|
  {
    SlotsOf(o, BlockStored(a, i), BlockSought(a, i))
  }

  /** Removal from where the outputs were stored would undo the whole loop of `add_block`. */
  lemma {:induction false} BlockPlaces(c: Crypto, l: Ledger, height: nat, a: BlockArgs, i: nat)
    requires i <= |a.txs| == |a.blk.txHashes| && Ordered(l.outs) && SupportedBlock(a)
    requires LedgerAfter(c, l, height, a, i).Done?
    ensures var o := LedgerAfter(c, l, height, a, i).state.outs;
            && Ordered(o) && Counted(l.outs, o, BlockStored(a, i))
            && RemoveSlots(o, StoredSlots(l.outs, a, i)) == Done(l.outs)
  {
    hide AddTransaction, Ordered, Counted, RemoveSlots, SlotsOf, Supported;
    if i == 0 {
      TransactionPlaces(c, l, height, a.blk.spinnerTx, c.txHash(a.blk.spinnerTx));
    } else {
      LoopStatesDone(c, l, height, a, i);
      BlockPlaces(c, l, height, a, i - 1);
      var before := LedgerAfter(c, l, height, a, i - 1).state;
      var s, s' := BlockStored(a, i - 1), Stored(a.txs[i - 1].base);
      TransactionPlaces(c, before, height, a.txs[i - 1], a.blk.txHashes[i - 1]);
      var o := LedgerAfter(c, l, height, a, i).state.outs;
      CountedConcat(l.outs, before.outs, o, s, s');
      SlotsConcat(l.outs, before.outs, s, s', s, s');
      RemoveSlotsConcat(o, SlotsOf(l.outs, s, s), SlotsOf(before.outs, s', s'));
    }
  }

  /** The rest of `pop_block`, from transaction `i - 1` down to the spinner. */
  function TakeBack(c: Crypto, p: Popping, a: BlockArgs, i: nat): Outcome<Popping>
    requires i <= |a.blk.txHashes|
  {
    match PopTransactions(p, a.blk.txHashes, i, 0)
    case Thrown(p', e) => Thrown(p', e)
    case Done(p') =>
      match RemoveTransaction(p'.ledger, c.txHash(a.blk.spinnerTx))
      case Thrown(l, e) => Thrown(p'.(ledger := l), e)
      case Done(l) => Done(p'.(ledger := l))
  }

  /** Popping, whatever happened to the output tables since, removes the slots it seeks. */
  lemma {:induction false} TakeBackSeeks(c: Crypto, l: Ledger, height: nat, a: BlockArgs, i: nat, outs: Outputs,
                                         out: seq<Transaction>)
    requires i <= |a.txs| == |a.blk.txHashes| && Ordered(l.outs) && SupportedBlock(a)
    requires LedgerAfter(c, l, height, a, i).Done?
    ensures var r := RemoveSlots(outs, SoughtSlots(l.outs, a, i));
            var t := TakeBack(c, Popping(LedgerAfter(c, l, height, a, i).state.(outs := outs), out), a, i);
            && t.Done? == r.Done?
            && (r.Done? ==> t == Done(Popping(l.(outs := r.state), out + Reverse(a.txs[..i]))))
    decreases i
  {
    hide AddTransaction, RemoveTransaction, Ordered, Counted, RemoveSlots, SlotsOf, Supported, Reverse;
    if i == 0 {
      RemoveSeeks(c, l, height, a.blk.spinnerTx, c.txHash(a.blk.spinnerTx), outs);
      NoneReversed(out, a.txs);
    } else {
      LoopStatesDone(c, l, height, a, i);
      LoopStatesDone(c, l, height, a, i - 1);
      BlockPlaces(c, l, height, a, i - 1);
      var before, tx := LedgerAfter(c, l, height, a, i - 1).state, a.txs[i - 1];
      var s, b := BlockStored(a, i - 1), BlockSought(a, i - 1);
      RemoveSeeks(c, before, height, tx, a.blk.txHashes[i - 1], outs);
      SlotsConcat(l.outs, before.outs, s, Stored(tx.base), b, Sought(tx.base));
      var last := SlotsOf(before.outs, Stored(tx.base), Sought(tx.base));
      RemoveSlotsConcat(outs, SlotsOf(l.outs, s, b), last);
      if RemoveSlots(outs, last).Done? {
        TakeBackSeeks(c, l, height, a, i - 1, RemoveSlots(outs, last).state, out + [tx]);
        OneMoreReversed(out, a.txs, i);
      }
    }
  }

  lemma NoneReversed<T>(out: seq<T>, s: seq<T>)
    ensures out + Reverse(s[..0]) == out
  {
  }

  lemma OneMoreReversed<T>(out: seq<T>, s: seq<T>, i: nat)
    requires 0 < i <= |s|
    ensures out + [s[i - 1]] + Reverse(s[..i - 1]) == out + Reverse(s[..i])
  {
    ReverseSnoc(out, s, 0, i);
    assert s[0..i] == s[..i] && s[0..i - 1] == s[..i - 1];
  }

  /**
    What popping does to any block all of whose transactions were stored: it succeeds exactly if there is an entry
    with a row of its own in each of the sought slots, no slot being sought twice.  It restores everything but the
    output tables, and these are left without what was in the sought slots.
   */
  lemma PopSeeks(c: Crypto, s: Store, a: BlockArgs)
    requires Ordered(s.ledger.outs) && AddBlock(c, s, a).Done? && SupportedBlock(a)
    ensures var s', slots := AddBlock(c, s, a).state, SoughtSlots(s.ledger.outs, a, |a.txs|);
            var r := RemoveSlots(s'.ledger.outs, slots);
            var back := Store(s.ledger.(outs := r.state), s.chain, s.spinners[a.spinKey := a.spinPrevHeight]);
            && (PopBlock(c, s').Done? <==> Distinct(slots) && Linked(s'.ledger.outs, slots))
            && PopBlock(c, s').Done? == r.Done?
            && (r.Done? ==> Lacks(r.state, s'.ledger.outs, slots))
            && (r.Done? ==> PopBlock(c, s') == Done(Popped(back, Some(a.blk), Reverse(a.txs))))
  {
    hide AddTransaction, RemoveTransaction, PutBlock, RemoveBlock, NewInfo;
    hide Ordered, SoughtSlots, RemoveSlots, Reverse, SupportedBlock, Distinct, Linked, Lacks;
    AddBlockShape(c, s, a);
    AddBlockTables(c, s, a);
    RemoveBlockUndoesPut(c, s, a);
    var l' := AddBlock(c, s, a).state.ledger;
    TakeBackSeeks(c, s.ledger, Height(s.chain), a, |a.txs|, l'.outs, []);
    RemoveSlotsMeaning(l'.outs, SoughtSlots(s.ledger.outs, a, |a.txs|));
    assert a.txs[..|a.txs|] == a.txs && [] + Reverse(a.txs) == Reverse(a.txs);
    assert l'.(outs := l'.outs) == l';
  }

  // ----- The converse -----

  /** Each output is sought where it was stored, or was stored under amount 0. */
  predicate Behind(stored: seq<nat>, sought: seq<nat>) {
    |stored| == |sought| && forall m | 0 <= m < |stored| :: sought[m] == stored[m] || stored[m] == 0
  }

  lemma KnownVersionBehind(tx: TxBase)
    requires KnownVersion(tx)
    ensures Behind(Stored(tx), Sought(tx))
  {
    if PseudoRct(tx) { assert tx.vin[0].Gen?; }
  }

  lemma BehindConcat(s: seq<nat>, s': seq<nat>, b: seq<nat>, b': seq<nat>)
    requires Behind(s, b) && Behind(s', b')
    ensures Behind(s + s', b + b')
  {
  }

  /** Accepted transactions have a known version, so what is not sought where it was stored is stored under amount 0. */
  lemma {:induction false} BlockBehind(c: Crypto, l: Ledger, height: nat, a: BlockArgs, i: nat)
    requires i <= |a.txs| == |a.blk.txHashes| && Ordered(l.outs) && SupportedBlock(a)
    requires LedgerAfter(c, l, height, a, i).Done?
    ensures Behind(BlockStored(a, i), BlockSought(a, i))
  {
    hide AddTransaction, Behind, Ordered, Stored, Sought, Supported;
    if i == 0 {
      StoredShape(c, l, height, a.blk.spinnerTx, c.txHash(a.blk.spinnerTx));
      KnownVersionBehind(a.blk.spinnerTx.base);
    } else {
      LoopStatesDone(c, l, height, a, i - 1);
      BlockBehind(c, l, height, a, i - 1);
      StoredShape(c, LedgerAfter(c, l, height, a, i - 1).state, height, a.txs[i - 1], a.blk.txHashes[i - 1]);
      KnownVersionBehind(a.txs[i - 1].base);
      BehindConcat(BlockStored(a, i - 1), Stored(a.txs[i - 1].base), BlockSought(a, i - 1), Sought(a.txs[i - 1].base));
    }
  }

  /** As many entries of amount 0 sought as stored means that every output is sought where it was stored. */
  lemma SameZerosSameAmounts(o: Outputs, stored: seq<nat>, sought: seq<nat>)
    requires Behind(stored, sought)
    requires ZeroSlots(SlotsOf(o, stored, stored)) == ZeroSlots(SlotsOf(o, stored, sought))
    ensures stored == sought
  {
    hide IndexOf;
    var slots, others := SlotsOf(o, stored, stored), SlotsOf(o, stored, sought);
    ZeroSlotsAgree(slots, others);
    forall m | 0 <= m < |stored| ensures stored[m] == sought[m] {
      assert slots[m].amount == stored[m] && others[m].amount == sought[m];
    }
  }

  lemma SameAmountsIff(tx: TxBase)
    ensures Stored(tx) == Sought(tx) <==> SameAmounts(tx, HasGen(tx.vin))
  {
    if Stored(tx) == Sought(tx) {
      forall i | 0 <= i < |tx.vout| ensures StoredAmount(tx, HasGen(tx.vin), i) == RemovedAmount(tx, i) {
        assert Stored(tx)[i] == Sought(tx)[i];
      }
    }
  }

  lemma {:induction false} SameBlockAmounts(a: BlockArgs, i: nat)
    requires i <= |a.txs| && BlockStored(a, i) == BlockSought(a, i)
    ensures Stored(a.blk.spinnerTx.base) == Sought(a.blk.spinnerTx.base)
    ensures forall k | 0 <= k < i :: Stored(a.txs[k].base) == Sought(a.txs[k].base)
  {
    hide Stored, Sought;
    if i > 0 {
      var s, b := BlockStored(a, i - 1), BlockSought(a, i - 1);
      assert BlockStored(a, i)[..|s|] == s && BlockSought(a, i)[..|b|] == b;
      assert BlockStored(a, i)[|s|..] == Stored(a.txs[i - 1].base);
      assert BlockSought(a, i)[|b|..] == Sought(a.txs[i - 1].base);
      SameBlockAmounts(a, i - 1);
    }
  }

  /** Popping that gives the output tables back has sought every output where it was stored. */
  lemma RestoredMeansReversible(c: Crypto, s: Store, a: BlockArgs)
    requires Ordered(s.ledger.outs) && AddBlock(c, s, a).Done? && SupportedBlock(a)
    requires var r := PopBlock(c, AddBlock(c, s, a).state); r.Done? && r.state.store.ledger.outs == s.ledger.outs
    ensures ReversibleBlock(a)
  {
    hide AddBlock, PopBlock, Ordered, RemoveSlots, SlotsOf, BlockStored, BlockSought, Lacks, Linked, Distinct;
    var n, o, l := |a.txs|, s.ledger.outs, s.ledger;
    var o' := AddBlock(c, s, a).state.ledger.outs;
    AddBlockShape(c, s, a);
    PopSeeks(c, s, a);
    BlockPlaces(c, l, Height(s.chain), a, n);
    BlockBehind(c, l, Height(s.chain), a, n);
    RemoveSlotsShrinkZero(o', StoredSlots(o, a, n));
    RemoveSlotsShrinkZero(o', SoughtSlots(o, a, n));
    SameZerosSameAmounts(o, BlockStored(a, n), BlockSought(a, n));
    SameBlockAmounts(a, n);
    SameAmountsIff(a.blk.spinnerTx.base);
    forall i | 0 <= i < n ensures Reversible(a.txs[i].base) { SameAmountsIff(a.txs[i].base); }
  }

  /**
    Among all blocks `add_block` accepts, `pop_block` brings the ledger back exactly for the reversible ones.  Then
    the whole block comes back, and every table but the spinner's entry.
   */
  lemma PopRestoresLedgerIff(c: Crypto, s: Store, a: BlockArgs)
    requires Ordered(s.ledger.outs) && AddBlock(c, s, a).Done?
    ensures var r := PopBlock(c, AddBlock(c, s, a).state);
            var restored := r.Done? && r.state.store.ledger == s.ledger;
            && (restored <==> ReversibleBlock(a))
            && (restored ==>
                  var back := s.(spinners := s.spinners[a.spinKey := a.spinPrevHeight]);
                  r.state == Popped(back, Some(a.blk), Reverse(a.txs)))
  {
    hide AddBlock, PopBlock, Ordered, ReversibleBlock, SupportedBlock;
    var r := PopBlock(c, AddBlock(c, s, a).state);
    if ReversibleBlock(a) {
      PopUndoesAdd(c, s, a);
    }
    if r.Done? && r.state.store.ledger == s.ledger {
      RestoredMeansSupported(c, s, a);
      RestoredMeansReversible(c, s, a);
    }
  }
}
