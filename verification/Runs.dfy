/** Whole histories of the store: any interleaving of blocks pushed and popped. */
module Runs {
  import opened ChainData
  import opened Tables
  import opened BlockStore
  import opened OutputTables
  import opened Blocks
  import opened BlockConverse
  import opened BlockAgreement

  datatype Op = Push(args: BlockArgs) | Pop

  /** A store and the blocks whose additions it has not undone yet, oldest first. */
  datatype Node = Node(store: Store, chain: seq<BlockArgs>)

  /** One attempted operation; an attempt that throws is rolled back, as by the batch around it. */
  function Step(c: Crypto, n: Node, op: Op): Node {
    match op
    case Push(a) =>
      var r := AddBlock(c, n.store, a);
      if r.Done? then Node(r.state, n.chain + [a]) else n
    case Pop =>
      var r := PopBlock(c, n.store);
      if r.Done? then Node(r.state.store, if n.chain == [] then [] else n.chain[..|n.chain| - 1]) else n
  }

  function Run(c: Crypto, ops: seq<Op>): Node {
    if ops == [] then Node(EMPTY_STORE, [])
    else Step(c, Run(c, ops[..|ops| - 1]), ops[|ops| - 1])
  }

  /** The store obtained by pushing the blocks of a chain once, in order, on the empty store. */
  function Build(c: Crypto, chain: seq<BlockArgs>): Outcome<Store> {
    if chain == [] then Done(EMPTY_STORE)
    else match Build(c, chain[..|chain| - 1])
      case Thrown(s, e) => Thrown(s, e)
      case Done(s) => AddBlock(c, s, chain[|chain| - 1])
  }

  /** Pushing blocks in order, up to the first that is refused. */
  function AddMany(c: Crypto, s: Store, blocks: seq<BlockArgs>): Outcome<Store> {
    if blocks == [] then Done(s)
    else match AddMany(c, s, blocks[..|blocks| - 1])
      case Thrown(s', e) => Thrown(s', e)
      case Done(s') => AddBlock(c, s', blocks[|blocks| - 1])
  }

  predicate ReversibleChain(chain: seq<BlockArgs>) {
    forall i | 0 <= i < |chain| :: ReversibleBlock(chain[i])
  }

  lemma RunNext(c: Crypto, ops: seq<Op>, k: nat)
    requires k < |ops|
    ensures Run(c, ops[..k + 1]) == Step(c, Run(c, ops[..k]), ops[k])
  {
    hide Step;
    assert ops[..k + 1][..k] == ops[..k];
  }

  // ----- The block tables follow the chain in every history -----

  /** One attempt, as far as the chain, the block tables and the spinner heights go. */
  lemma StepShape(c: Crypto, n: Node, op: Op)
    requires BlocksAgree(c, n.store.chain, n.chain)
    ensures var n' := Step(c, n, op);
            && BlocksAgree(c, n'.store.chain, n'.chain)
            && match op {
                 case Push(a) =>
                   n' == n || (n'.chain == n.chain + [a] && |a.txs| == |a.blk.txHashes| && OnTop(c, n.chain, a)
                               && n'.store.spinners == n.store.spinners[a.spinKey := |n.chain|])
                 case Pop =>
                   if !PopBlock(c, n.store).Done? then n' == n
                   else
                     && n.chain != [] && n'.chain == n.chain[..|n.chain| - 1]
                     && var a := n.chain[|n.chain| - 1];
                        n'.store.spinners == n.store.spinners[a.spinKey := a.spinPrevHeight]
               }
  {
    hide AddBlock, PopBlock, BlocksAgree;
    match op
    case Push(a) =>
      if AddBlock(c, n.store, a).Done? { BlocksPush(c, n.store, n.chain, a); }
    case Pop =>
      if PopBlock(c, n.store).Done? { BlocksPop(c, n.store, n.chain); }
  }

  /** After any attempts to push and pop, even ones that spoil the ledger, the block tables are those of the chain. */
  lemma {:induction false} BlocksFollowTheChain(c: Crypto, ops: seq<Op>)
    ensures BlocksAgree(c, Run(c, ops).store.chain, Run(c, ops).chain)
  {
    hide Step, BlocksAgree;
    if ops == [] {
      NoBlocksAgree(c);
    } else {
      BlocksFollowTheChain(c, ops[..|ops| - 1]);
      StepShape(c, Run(c, ops[..|ops| - 1]), ops[|ops| - 1]);
    }
  }

  /** In every history the surviving chain is a chain: each block names the one before it as its parent. */
  lemma {:induction false} ChainIsChained(c: Crypto, ops: seq<Op>)
    ensures Chained(c, Run(c, ops).chain)
  {
    hide Step, BlocksAgree, PopBlock;
    if ops != [] {
      var n, op := Run(c, ops[..|ops| - 1]), ops[|ops| - 1];
      ChainIsChained(c, ops[..|ops| - 1]);
      BlocksFollowTheChain(c, ops[..|ops| - 1]);
      StepShape(c, n, op);
      if op.Push? && Step(c, n, op) != n { ChainedPush(c, n.chain, op.args); }
    }
  }

  // ----- The spinner table stands apart -----

  /** Adding a block never reads the spinner table. */
  lemma AddBlockIgnoresSpinners(c: Crypto, s: Store, m: map<PublicKey, nat>, a: BlockArgs)
    ensures AddBlock(c, s.(spinners := m), a).Done? == AddBlock(c, s, a).Done?
    ensures AddBlock(c, s, a).Done? ==>
              && AddBlock(c, s, a).state.spinners == s.spinners[a.spinKey := Height(s.chain)]
              && AddBlock(c, s.(spinners := m), a)
              == Done(AddBlock(c, s, a).state.(spinners := m[a.spinKey := Height(s.chain)]))
  {
    hide AddLedger;
  }

  /** Popping a block never reads the spinner table. */
  lemma PopBlockIgnoresSpinners(c: Crypto, s: Store, m: map<PublicKey, nat>)
    requires PopBlock(c, s).Done?
    ensures Height(s.chain) > 0 && Height(s.chain) - 1 in s.chain.infos
    ensures var info := s.chain.infos[Height(s.chain) - 1];
            var p := PopBlock(c, s).state;
            var p' := p.(store := p.store.(spinners := m[info.spinKey := info.spinPrevHeight]));
            PopBlock(c, s.(spinners := m)) == Done(p')
  {
    hide PopTransactions, RemoveTransaction;
  }

  /** Also where it fails. */
  lemma PopIgnoresSpinners(c: Crypto, s: Store, m: map<PublicKey, nat>)
    ensures var r, r' := PopBlock(c, s), PopBlock(c, s.(spinners := m));
            && r.Done? == r'.Done?
            && (r.Done? ==> r'.state.store == r.state.store.(spinners := r'.state.store.spinners))
            && (r.Done? ==> r'.state.blk == r.state.blk && r'.state.txs == r.state.txs)
  {
    hide PopBlock;
    if PopBlock(c, s).Done? { PopBlockIgnoresSpinners(c, s, m); }
    if PopBlock(c, s.(spinners := m)).Done? {
      PopBlockIgnoresSpinners(c, s.(spinners := m), s.spinners);
      assert s.(spinners := m).(spinners := s.spinners) == s;
    }
  }

  // ----- Chains -----

  lemma {:induction false} BuildLast(c: Crypto, chain: seq<BlockArgs>, a: BlockArgs)
    ensures Build(c, chain + [a]) ==
            match Build(c, chain)
            case Thrown(s, e) => Thrown(s, e)
            case Done(s) => AddBlock(c, s, a)
  {
    assert (chain + [a])[..|chain|] == chain;
  }

  lemma {:induction false} BuildBasics(c: Crypto, chain: seq<BlockArgs>)
    requires Build(c, chain).Done?
    ensures Ordered(Build(c, chain).state.ledger.outs) && BlocksAgree(c, Build(c, chain).state.chain, chain)
    ensures Height(Build(c, chain).state.chain) == |chain|
  {
    hide AddBlock, BlocksAgree, LedgerAfter;
    if chain == [] {
      NoBlocksAgree(c);
    } else {
      var pre, a := chain[..|chain| - 1], chain[|chain| - 1];
      BuildBasics(c, pre);
      AddBlockShape(c, Build(c, pre).state, a);
      BlocksPush(c, Build(c, pre).state, pre, a);
      assert chain == pre + [a];
    }
    TopCum(c, Build(c, chain).state.chain, chain);
  }

  // ----- Path independence -----

  /** The store of a node is the one its chain builds, up to the spinner table. */
  ghost predicate Built(c: Crypto, n: Node) {
    Build(c, n.chain).Done? && n.store == Build(c, n.chain).state.(spinners := n.store.spinners)
  }

  lemma BuiltPush(c: Crypto, n: Node, a: BlockArgs)
    requires Built(c, n)
    ensures Built(c, Step(c, n, Push(a)))
  {
    hide AddBlock;
    BuildLast(c, n.chain, a);
    AddBlockIgnoresSpinners(c, Build(c, n.chain).state, n.store.spinners, a);
  }

  /** If the operation takes a block off, that block is reversible. */
  predicate SoundPop(c: Crypto, n: Node, op: Op) {
    op.Pop? && n.chain != [] && PopBlock(c, n.store).Done? ==> ReversibleBlock(n.chain[|n.chain| - 1])
  }

  /** A pop that succeeds on a built node: what it leaves is built exactly if the block was reversible. */
  lemma BuiltPopIff(c: Crypto, n: Node)
    requires Built(c, n) && n.chain != [] && PopBlock(c, n.store).Done?
    ensures Built(c, Step(c, n, Pop)) <==> ReversibleBlock(n.chain[|n.chain| - 1])
  {
    hide AddBlock, PopBlock, Ordered, ReversibleBlock, BlocksAgree;
    var chain, a := n.chain[..|n.chain| - 1], n.chain[|n.chain| - 1];
    var before, after := Build(c, chain).state, Build(c, n.chain).state;
    BuildBasics(c, chain);
    BuildBasics(c, n.chain);
    PopIgnoresSpinners(c, after, n.store.spinners);
    PopRestoresLedgerIff(c, before, a);
    PoppedBlockTables(c, before, a);
  }

  /** A pop that succeeds brings the block tables back, whatever it does to the ledger. */
  lemma PoppedBlockTables(c: Crypto, s: Store, a: BlockArgs)
    requires AddBlock(c, s, a).Done? && PopBlock(c, AddBlock(c, s, a).state).Done?
    ensures PopBlock(c, AddBlock(c, s, a).state).state.store.chain == s.chain
  {
    hide AddTransaction, RemoveTransaction, PutBlock, RemoveBlock, PopTransactions;
    RemoveBlockUndoesPut(c, s, a);
  }

  /** A reversible top block of a built node can be popped, and comes back whole. */
  lemma BuiltPop(c: Crypto, n: Node)
    requires Built(c, n) && n.chain != [] && ReversibleBlock(n.chain[|n.chain| - 1])
    ensures var a, n' := n.chain[|n.chain| - 1], Step(c, n, Pop);
            && Built(c, n') && n'.chain == n.chain[..|n.chain| - 1]
            && n'.store.spinners == n.store.spinners[a.spinKey := a.spinPrevHeight]
            && PopBlock(c, n.store) == Done(Popped(n'.store, Some(a.blk), Reverse(a.txs)))
  {
    hide AddBlock, PopBlock, Ordered, ReversibleBlock, BlocksAgree, Reverse;
    var chain, a := n.chain[..|n.chain| - 1], n.chain[|n.chain| - 1];
    var before, after := Build(c, chain).state, Build(c, n.chain).state;
    BuildBasics(c, chain);
    BuildBasics(c, n.chain);
    PopRestoresLedgerIff(c, before, a);
    PopIgnoresSpinners(c, after, n.store.spinners);
    BuiltPopIff(c, n);
    StepShape(c, n, Pop);
  }

  /** From the store its chain builds, an attempt leaves such a store exactly unless it is an unsound pop. */
  lemma BuiltStepIff(c: Crypto, n: Node, op: Op)
    requires Built(c, n)
    ensures Built(c, Step(c, n, op)) <==> SoundPop(c, n, op)
  {
    hide Built, AddBlock, PopBlock, ReversibleBlock;
    match op
    case Push(a) => BuiltPush(c, n, a);
    case Pop =>
      if n.chain == [] {
        NothingToPop(c, n);
      } else if PopBlock(c, n.store).Done? {
        BuiltPopIff(c, n);
      }
  }

  lemma NothingToPop(c: Crypto, n: Node)
    requires Built(c, n) && n.chain == []
    ensures Step(c, n, Pop) == n
  {
  }

  /** No block is taken off on the way that is not reversible. */
  ghost predicate SoundRun(c: Crypto, ops: seq<Op>) {
    forall k | 0 <= k < |ops| :: SoundPop(c, Run(c, ops[..k]), ops[k])
  }

  lemma {:induction false} BuiltUpTo(c: Crypto, ops: seq<Op>, k: nat)
    requires k <= |ops| && SoundRun(c, ops)
    ensures Built(c, Run(c, ops[..k]))
  {
    hide Step, SoundPop;
    if k == 0 {
      assert ops[..0] == [];
    } else {
      BuiltUpTo(c, ops, k - 1);
      RunNext(c, ops, k - 1);
      BuiltStepIff(c, Run(c, ops[..k - 1]), ops[k - 1]);
    }
  }

  /** Path independence: every table but the spinner heights is the one got by pushing the surviving blocks once. */
  lemma PathIndependence(c: Crypto, ops: seq<Op>)
    requires SoundRun(c, ops)
    ensures Built(c, Run(c, ops))
  {
    hide Run, SoundRun, Built;
    BuiltUpTo(c, ops, |ops|);
    assert ops[..|ops|] == ops;
  }

  /**
    Path independence over all histories: at each point every table but the spinner heights is the one built from
    the surviving chain, exactly when no irreversible block was taken off on the way.
   */
  lemma PathIndependenceIff(c: Crypto, ops: seq<Op>)
    ensures (forall k | 0 <= k <= |ops| :: Built(c, Run(c, ops[..k]))) <==> SoundRun(c, ops)
  {
    hide Run, Step, SoundPop, Built;
    if SoundRun(c, ops) {
      forall k | 0 <= k <= |ops| ensures Built(c, Run(c, ops[..k])) { BuiltUpTo(c, ops, k); }
    }
    if forall k | 0 <= k <= |ops| :: Built(c, Run(c, ops[..k])) {
      forall k | 0 <= k < |ops| ensures SoundPop(c, Run(c, ops[..k]), ops[k]) {
        RunNext(c, ops, k);
        assert Built(c, Run(c, ops[..k + 1]));
        BuiltStepIff(c, Run(c, ops[..k]), ops[k]);
      }
    }
  }

  // ----- A condition on the pushed blocks alone -----

  predicate ReversiblePushes(ops: seq<Op>) {
    forall i | 0 <= i < |ops| && ops[i].Push? :: ReversibleBlock(ops[i].args)
  }

  lemma {:induction false} ChainIsReversible(c: Crypto, ops: seq<Op>, k: nat)
    requires ReversiblePushes(ops) && k <= |ops|
    ensures ReversibleChain(Run(c, ops[..k]).chain)
  {
    hide AddBlock, PopBlock, ReversibleBlock;
    if k == 0 {
      assert ops[..0] == [];
    } else {
      ChainIsReversible(c, ops, k - 1);
      RunNext(c, ops, k - 1);
    }
  }

  /** A history that pushes reversible blocks only is sound. */
  lemma ReversiblePushesAreSound(c: Crypto, ops: seq<Op>)
    requires ReversiblePushes(ops)
    ensures SoundRun(c, ops)
  {
    hide Run, ReversibleBlock, ReversiblePushes, PopBlock;
    forall k | 0 <= k < |ops| ensures SoundPop(c, Run(c, ops[..k]), ops[k]) { ChainIsReversible(c, ops, k); }
  }
}
