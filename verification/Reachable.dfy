/** Reachable stores against the plain chain: exactly which histories keep the tables as the chain describes them. */
module Reachable {
  import opened ChainData
  import opened Tables
  import opened BlockStore
  import opened OutputTables
  import opened OutputNames
  import opened Blocks
  import opened BlockConverse
  import opened BlockAgreement
  import opened Runs
  import opened Agreement
  import opened Completeness

  /** The transaction tables, the output tables and the block tables are exactly those described from the chain. */
  ghost predicate Described(c: Crypto, n: Node) {
    && Sized(n.chain) && TablesAgree(c, n.store.ledger, Flat(c, n.chain))
    && BlocksAgree(c, n.store.chain, n.chain)
  }

  lemma BuiltIsDescribed(c: Crypto, n: Node)
    requires Built(c, n)
    ensures Described(c, n)
  {
    hide Build, TablesAgree, BlocksAgree, NoneForgotten, SpentAgrees;
    BuildBasics(c, n.chain);
    BuiltAgrees(c, n.chain);
    OnlySpent(c, Build(c, n.chain).state.ledger, Flat(c, n.chain), n.store.ledger.spent);
  }

  /** A pop that gives the tables of the chain below back was of a reversible block. */
  lemma DescribedMeansSound(c: Crypto, n: Node, op: Op)
    requires Built(c, n) && Described(c, Step(c, n, op))
    ensures SoundPop(c, n, op)
  {
    hide AddBlock, PopBlock, TablesAgree, BlocksAgree, Flat, ReversibleBlock, Ordered, NoneForgotten, Agrees;
    if op.Pop? && n.chain != [] && PopBlock(c, n.store).Done? {
      var chain, a := n.chain[..|n.chain| - 1], n.chain[|n.chain| - 1];
      var before, after := Build(c, chain).state, Build(c, n.chain).state;
      BuildBasics(c, chain);
      BuiltAgrees(c, chain);
      PopIgnoresSpinners(c, after, n.store.spinners);
      TablesAreComplete(c, Step(c, n, op).store.ledger, before.ledger, Flat(c, chain));
      RestoredMeansSupported(c, before, a);
      RestoredMeansReversible(c, before, a);
    }
  }

  /** In every store a sound history leads to, every table but the spent set is the one described from the chain. */
  lemma ReachableAgrees(c: Crypto, ops: seq<Op>)
    requires SoundRun(c, ops)
    ensures Described(c, Run(c, ops))
  {
    hide Run, SoundRun, Built, Described;
    PathIndependence(c, ops);
    BuiltIsDescribed(c, Run(c, ops));
  }

  lemma {:induction false} DescribedUpTo(c: Crypto, ops: seq<Op>, k: nat)
    requires k <= |ops| && forall j | 0 <= j <= |ops| :: Described(c, Run(c, ops[..j]))
    ensures Built(c, Run(c, ops[..k]))
    ensures k < |ops| ==> SoundPop(c, Run(c, ops[..k]), ops[k])
  {
    hide Step, SoundPop, Described;
    if k == 0 {
      assert ops[..0] == [];
    } else {
      DescribedUpTo(c, ops, k - 1);
      RunNext(c, ops, k - 1);
      BuiltStepIff(c, Run(c, ops[..k - 1]), ops[k - 1]);
    }
    if k < |ops| {
      RunNext(c, ops, k);
      assert Described(c, Run(c, ops[..k + 1]));
      DescribedMeansSound(c, Run(c, ops[..k]), ops[k]);
    }
  }

  /**
    Over every history of attempted pushes and pops: at each point the transaction, output and block tables are
    exactly those described from the surviving chain, exactly when no irreversible block was taken off on the way.
   */
  lemma ReachableAgreesIff(c: Crypto, ops: seq<Op>)
    ensures (forall k | 0 <= k <= |ops| :: Described(c, Run(c, ops[..k]))) <==> SoundRun(c, ops)
  {
    hide Run, SoundPop, Described, Built;
    if SoundRun(c, ops) {
      forall k | 0 <= k <= |ops| ensures Described(c, Run(c, ops[..k])) {
        BuiltUpTo(c, ops, k);
        BuiltIsDescribed(c, Run(c, ops[..k]));
      }
    }
    if forall k | 0 <= k <= |ops| :: Described(c, Run(c, ops[..k])) {
      forall k | 0 <= k < |ops| ensures SoundPop(c, Run(c, ops[..k]), ops[k]) { DescribedUpTo(c, ops, k); }
    }
  }

  /**
    Index soundness: in every store a sound history leads to, each output of each stored transaction is found at its
    recorded index, under its hash and local index; and each entry of each amount is named by exactly one output.
   */
  lemma IndexSoundness(c: Crypto, ops: seq<Op>)
    requires SoundRun(c, ops)
    ensures Sized(Run(c, ops).chain)
    ensures var l, f := Run(c, ops).store.ledger, Flat(c, Run(c, ops).chain);
            && (forall i: nat, j: nat | IsOutput(f, i, j) :: OutputFound(c, l.txs.outputIndices, l.outs, f, i, j))
            && (forall a, k | 0 <= k < |Bucket(l.outs, a)| :: Owned(l.txs.outputIndices, l.outs, f, a, k))
            && (forall a, k, i: nat, j: nat, i': nat, j': nat | 0 <= k < |Bucket(l.outs, a)|
                && Names(l.txs.outputIndices, l.outs, f, i, j, a, k)
                && Names(l.txs.outputIndices, l.outs, f, i', j', a, k) ::
                i == i' && j == j')
  {
    hide Run, SoundRun, Flat, Dense, IsEntry, OutputFound, RowsAgree, BlocksAgree;
    ReachableAgrees(c, ops);
    var l, f := Run(c, ops).store.ledger, Flat(c, Run(c, ops).chain);
    forall a, k, i: nat, j: nat, i': nat, j': nat | 0 <= k < |Bucket(l.outs, a)|
      && Names(l.txs.outputIndices, l.outs, f, i, j, a, k) && Names(l.txs.outputIndices, l.outs, f, i', j', a, k)
      ensures i == i' && j == j'
    {
      OutputIdInjective(f, i, j, i', j');
    }
  }

  /**
    The spent set of such a store is the disjoint union of the images of all stored inputs on the chain exactly when
    no transaction skipped for an unsupported input lists an image spent before it.
   */
  lemma SpentExactnessIff(c: Crypto, ops: seq<Op>)
    requires SoundRun(c, ops)
    ensures Sized(Run(c, ops).chain)
    ensures var n := Run(c, ops);
            SpentAgrees(n.store.ledger.spent, Flat(c, n.chain)) <==> NoneForgotten(All(c, n.chain))
  {
    hide Run, SoundRun, Build, TablesAgree, NoneForgotten, SpentAgrees;
    PathIndependence(c, ops);
    BuiltAgrees(c, Run(c, ops).chain);
  }
}
