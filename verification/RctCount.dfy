/** The count of RingCT outputs that `add_block` computes, against the amount-0 entries really stored. */
module RctCount {
  import opened ChainData
  import opened Tables
  import opened BlockStore
  import opened OutputTables
  import opened Transactions
  import opened Blocks
  import opened BlockAgreement
  import opened Runs

  function ZeroEntries(l: Ledger): nat { |Bucket(l.outs, 0)| }

  lemma {:induction false} StoredZerosMeaning(tx: TxBase, gen: bool, i: nat)
    requires i <= |tx.vout|
    ensures StoredZeros(tx, gen, i) ==
            if StoredAsRct(tx, gen) then |tx.vout| - i else ZeroOutputs(tx.vout) - ZeroOutputs(tx.vout[..i])
    decreases |tx.vout| - i
  {
    if i == |tx.vout| {
      assert tx.vout[..i] == tx.vout;
    } else {
      StoredZerosMeaning(tx, gen, i + 1);
      assert tx.vout[..i + 1][..i] == tx.vout[..i];
    }
  }

  /** What `add_block` counts for the spinner beyond what is stored for it. */
  function SpinnerExcess(tx: TxBase): int {
    var zeros := ZeroOutputs(tx.vout);
    if !Supported(tx.vin) then if tx.version == 2 then |tx.vout| else 0
    else if tx.version != 2 then 0 - zeros
    else if HasGen(tx.vin) then 0
    else |tx.vout| - zeros
  }

  /** What `add_block` counts for an ordinary transaction beyond what is stored for it. */
  function OrdinaryExcess(tx: TxBase): int {
    var zeros := ZeroOutputs(tx.vout);
    if !Supported(tx.vin) then zeros
    else if tx.version == 2 && HasGen(tx.vin) then zeros - |tx.vout|
    else 0
  }

  function Excess(a: BlockArgs, i: nat): int
    requires i <= |a.txs|
  {
    if i == 0 then SpinnerExcess(a.blk.spinnerTx.base) else Excess(a, i - 1) + OrdinaryExcess(a.txs[i - 1].base)
  }

  /** The growth of the amount-0 entries by one transaction. */
  lemma TransactionGrowth(c: Crypto, l: Ledger, height: nat, tx: Transaction, hash: Hash)
    requires Ordered(l.outs) && AddTransaction(c, l, height, tx, hash).Done?
    ensures ZeroEntries(AddTransaction(c, l, height, tx, hash).state) ==
            ZeroEntries(l) +
            if !Supported(tx.base.vin) then 0
            else if StoredAsRct(tx.base, HasGen(tx.base.vin)) then |tx.base.vout|
            else ZeroOutputs(tx.base.vout)
  {
    if Supported(tx.base.vin) {
      StoredShape(c, l, height, tx, hash);
      AddOutputsGrowZero(c, Indexed(l.outs, []), hash, tx.base, HasGen(tx.base.vin), height);
      StoredZerosMeaning(tx.base, HasGen(tx.base.vin), 0);
      assert tx.base.vout[..0] == [];
    } else {
      UnsupportedShape(c, l, height, tx, hash);
    }
  }

  lemma {:induction false} CountAgainstGrowth(c: Crypto, l: Ledger, height: nat, a: BlockArgs, i: nat)
    requires i <= |a.txs| == |a.blk.txHashes| && Ordered(l.outs) && LedgerAfter(c, l, height, a, i).Done?
    ensures NumRct(a, i) == ZeroEntries(LedgerAfter(c, l, height, a, i).state) - ZeroEntries(l) + Excess(a, i)
  {
    hide AddTransaction;
    if i == 0 {
      TransactionGrowth(c, l, height, a.blk.spinnerTx, c.txHash(a.blk.spinnerTx));
    } else {
      LoopStatesDone(c, l, height, a, i - 1);
      CountAgainstGrowth(c, l, height, a, i - 1);
      TransactionGrowth(c, LedgerAfter(c, l, height, a, i - 1).state, height, a.txs[i - 1], a.blk.txHashes[i - 1]);
    }
  }

  /** Nothing is counted that is not stored, or the other way round. */
  predicate CountsRight(a: BlockArgs) {
    Excess(a, |a.txs|) == 0
  }

  /** The count of any accepted block equals the growth of the amount-0 entries exactly when its excesses cancel. */
  lemma CountIsGrowthIff(c: Crypto, s: Store, a: BlockArgs)
    requires Ordered(s.ledger.outs) && AddBlock(c, s, a).Done?
    ensures NumRct(a, |a.txs|) + ZeroEntries(s.ledger) == ZeroEntries(AddBlock(c, s, a).state.ledger)
       <==> CountsRight(a)
  {
    hide AddBlock;
    AddBlockShape(c, s, a);
    CountAgainstGrowth(c, s.ledger, Height(s.chain), a, |a.txs|);
  }

  /**
    Blocks as the protocol makes them: a version-2 spinner generates, an older one has no zero outputs, the rest do
    not generate.
   */
  predicate ProtocolBlock(a: BlockArgs) {
    var spinner := a.blk.spinnerTx.base;
    && Supported(spinner.vin)
    && (spinner.version == 2 ==> HasGen(spinner.vin))
    && (spinner.version != 2 ==> forall i | 0 <= i < |spinner.vout| :: spinner.vout[i].amount != 0)
    && forall i | 0 <= i < |a.txs| :: Supported(a.txs[i].base.vin) && !HasGen(a.txs[i].base.vin)
  }

  lemma {:induction false} NoZeroOutputs(vout: seq<TxOut>)
    requires forall i | 0 <= i < |vout| :: vout[i].amount != 0
    ensures ZeroOutputs(vout) == 0
  {
    if vout != [] { NoZeroOutputs(vout[..|vout| - 1]); }
  }

  lemma {:induction false} ProtocolExcess(a: BlockArgs, i: nat)
    requires ProtocolBlock(a) && i <= |a.txs|
    ensures Excess(a, i) == 0
  {
    if i > 0 {
      ProtocolExcess(a, i - 1);
    } else if a.blk.spinnerTx.base.version != 2 {
      NoZeroOutputs(a.blk.spinnerTx.base.vout);
    }
  }

  /** The count is right for every block the protocol makes. */
  lemma ProtocolBlocksCountRight(a: BlockArgs)
    requires ProtocolBlock(a)
    ensures CountsRight(a)
  {
    ProtocolExcess(a, |a.txs|);
  }

  // ----- Over a chain -----

  function TotalRct(chain: seq<BlockArgs>): nat {
    if chain == [] then 0
    else TotalRct(chain[..|chain| - 1]) + NumRct(chain[|chain| - 1], |chain[|chain| - 1].txs|)
  }

  predicate ChainCountsRight(chain: seq<BlockArgs>) {
    forall i | 0 <= i < |chain| :: CountsRight(chain[i])
  }

  /** Summed over a chain, the counts are the number of amount-0 entries. */
  lemma {:induction false} TotalIsStored(c: Crypto, chain: seq<BlockArgs>)
    requires Build(c, chain).Done? && ChainCountsRight(chain)
    ensures TotalRct(chain) == ZeroEntries(Build(c, chain).state.ledger)
  {
    hide AddBlock, CountsRight;
    if chain != [] {
      var pre := chain[..|chain| - 1];
      TotalIsStored(c, pre);
      BuildBasics(c, pre);
      CountIsGrowthIff(c, Build(c, pre).state, chain[|chain| - 1]);
    }
  }

  /** In every store a sound history leads to the amount-0 entries are as many as the surviving blocks counted. */
  lemma ReachableTotalIsStored(c: Crypto, ops: seq<Op>)
    requires SoundRun(c, ops) && ChainCountsRight(Run(c, ops).chain)
    ensures TotalRct(Run(c, ops).chain) == ZeroEntries(Run(c, ops).store.ledger)
  {
    hide Run, Build, CountsRight, SoundRun;
    PathIndependence(c, ops);
    TotalIsStored(c, Run(c, ops).chain);
  }

  /** The running count recorded with the top block is the number of amount-0 entries. */
  predicate CumulativeRight(s: Store) {
    var h := Height(s.chain);
    if h == 0 then ZeroEntries(s.ledger) == 0
    else h - 1 in s.chain.infos && s.chain.infos[h - 1].cumRct == ZeroEntries(s.ledger)
  }

  /**
    A right running count stays right exactly when the new block is of version 4 or later or there was nothing
    to carry over: older blocks record their own outputs only.
   */
  lemma CumulativeStaysRightIff(c: Crypto, s: Store, a: BlockArgs)
    requires Ordered(s.ledger.outs) && AddBlock(c, s, a).Done? && CumulativeRight(s) && CountsRight(a)
    ensures CumulativeRight(AddBlock(c, s, a).state) <==> a.blk.majorVersion >= 4 || ZeroEntries(s.ledger) == 0
  {
    hide AddBlock, CountsRight;
    AddBlockShape(c, s, a);
    AddBlockTables(c, s, a);
    CountIsGrowthIff(c, s, a);
  }

  /** The chain up to height `k`, of which every block counts right, is built too. */
  lemma {:induction false} BuildPrefix(c: Crypto, chain: seq<BlockArgs>, k: nat)
    requires Build(c, chain).Done? && ChainCountsRight(chain) && k <= |chain|
    ensures Build(c, chain[..k]).Done? && ChainCountsRight(chain[..k])
  {
    hide AddBlock, CountsRight;
    if k == |chain| {
      assert chain[..k] == chain;
    } else {
      var pre := chain[..|chain| - 1];
      BuildPrefix(c, pre, k);
      assert pre[..k] == chain[..k];
    }
  }

  /** Block `i` carries the count on, or has nothing to carry on. */
  predicate CarriesOn(c: Crypto, chain: seq<BlockArgs>, i: nat)
    requires i < |chain|
  {
    chain[i].blk.majorVersion >= 4 || ZeroEntries(Build(c, chain[..i]).state.ledger) == 0
  }

  lemma CumulativeNext(c: Crypto, chain: seq<BlockArgs>, i: nat)
    requires Build(c, chain).Done? && ChainCountsRight(chain) && i < |chain|
    requires CumulativeRight(Build(c, chain[..i]).state)
    ensures CumulativeRight(Build(c, chain[..i + 1]).state) <==> CarriesOn(c, chain, i)
  {
    hide AddBlock, CountsRight, CumulativeRight, BlocksAgree, Ordered;
    BuildPrefix(c, chain, i);
    BuildPrefix(c, chain, i + 1);
    BuildBasics(c, chain[..i]);
    BuildLast(c, chain[..i], chain[i]);
    assert chain[..i + 1] == chain[..i] + [chain[i]];
    CumulativeStaysRightIff(c, Build(c, chain[..i]).state, chain[i]);
  }

  lemma {:induction false} CumulativeUpTo(c: Crypto, chain: seq<BlockArgs>, k: nat)
    requires Build(c, chain).Done? && ChainCountsRight(chain) && k <= |chain|
    requires forall i | 0 <= i < k :: CarriesOn(c, chain, i)
    ensures CumulativeRight(Build(c, chain[..k]).state)
  {
    hide CarriesOn, CountsRight;
    if k == 0 {
      assert chain[..0] == [];
    } else {
      CumulativeUpTo(c, chain, k - 1);
      CumulativeNext(c, chain, k - 1);
    }
  }

  /**
    On a chain of blocks that count right the running count is right at every height exactly when every block is of
    version 4 or later or finds no amount-0 entry below it.
   */
  lemma CumulativeOverChainIff(c: Crypto, chain: seq<BlockArgs>)
    requires Build(c, chain).Done? && ChainCountsRight(chain)
    ensures (forall k | 0 <= k <= |chain| :: CumulativeRight(Build(c, chain[..k]).state))
       <==> (forall i | 0 <= i < |chain| :: CarriesOn(c, chain, i))
  {
    hide Build, CumulativeRight, CarriesOn, ChainCountsRight;
    if forall i | 0 <= i < |chain| :: CarriesOn(c, chain, i) {
      forall k | 0 <= k <= |chain| ensures CumulativeRight(Build(c, chain[..k]).state) {
        CumulativeUpTo(c, chain, k);
      }
    }
    if forall k | 0 <= k <= |chain| :: CumulativeRight(Build(c, chain[..k]).state) {
      forall i | 0 <= i < |chain| ensures CarriesOn(c, chain, i) {
        assert CumulativeRight(Build(c, chain[..i + 1]).state);
        CumulativeNext(c, chain, i);
      }
    }
  }
}
