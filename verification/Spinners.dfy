/** The spinner heights over whole histories. */
module Spinners {
  import opened ChainData
  import opened Tables
  import opened BlockStore
  import opened Blocks
  import opened BlockAgreement
  import opened Runs

  /** The height of the last block of the chain spun by `key`, 0 if there is none. */
  function LastSpin(chain: seq<BlockArgs>, key: PublicKey): nat {
    if chain == [] then 0
    else if chain[|chain| - 1].spinKey == key then |chain| - 1
    else LastSpin(chain[..|chain| - 1], key)
  }

  /** Every spinner height reads as that of the spinner's last surviving block. */
  ghost predicate HeightsRight(n: Node) {
    forall key :: SpinnerHeight(n.store.spinners, key) == LastSpin(n.chain, key)
  }

  /** If the operation takes a block off, that block records where its spinner spun last before it. */
  predicate HonestPop(c: Crypto, n: Node, op: Op) {
    op.Pop? && n.chain != [] && PopBlock(c, n.store).Done? ==>
      var pre, a := n.chain[..|n.chain| - 1], n.chain[|n.chain| - 1];
      a.spinPrevHeight == LastSpin(pre, a.spinKey)
  }

  lemma HeightsAfterPush(n: Node, n': Node, a: BlockArgs)
    requires HeightsRight(n) && n'.chain == n.chain + [a]
    requires n'.store.spinners == n.store.spinners[a.spinKey := |n.chain|]
    ensures HeightsRight(n')
  {
    assert n'.chain[..|n.chain|] == n.chain;
    forall key ensures SpinnerHeight(n'.store.spinners, key) == LastSpin(n'.chain, key) {
      assert SpinnerHeight(n.store.spinners, key) == LastSpin(n.chain, key);
    }
  }

  lemma HeightsAfterPop(n: Node, n': Node)
    requires HeightsRight(n) && n.chain != [] && n'.chain == n.chain[..|n.chain| - 1]
    requires var a := n.chain[|n.chain| - 1]; n'.store.spinners == n.store.spinners[a.spinKey := a.spinPrevHeight]
    ensures var a := n.chain[|n.chain| - 1]; HeightsRight(n') <==> a.spinPrevHeight == LastSpin(n'.chain, a.spinKey)
  {
    var a := n.chain[|n.chain| - 1];
    assert SpinnerHeight(n'.store.spinners, a.spinKey) == a.spinPrevHeight;
    forall key | key != a.spinKey ensures SpinnerHeight(n'.store.spinners, key) == LastSpin(n'.chain, key) {
      assert SpinnerHeight(n.store.spinners, key) == LastSpin(n.chain, key);
    }
  }

  /** Right heights stay right exactly unless a block with a wrong record is popped. */
  lemma HeightsStepIff(c: Crypto, n: Node, op: Op)
    requires BlocksAgree(c, n.store.chain, n.chain) && HeightsRight(n)
    ensures HeightsRight(Step(c, n, op)) <==> HonestPop(c, n, op)
  {
    hide Step, PopBlock, BlocksAgree, HeightsRight, LastSpin;
    StepShape(c, n, op);
    var n' := Step(c, n, op);
    match op
    case Push(a) =>
      if n' != n { HeightsAfterPush(n, n', a); }
    case Pop =>
      if PopBlock(c, n.store).Done? { HeightsAfterPop(n, n'); }
  }

  lemma {:induction false} HeightsRightUpTo(c: Crypto, ops: seq<Op>, k: nat)
    requires k <= |ops| && forall i | 0 <= i < k :: HonestPop(c, Run(c, ops[..i]), ops[i])
    ensures HeightsRight(Run(c, ops[..k]))
  {
    hide Step, HonestPop, BlocksAgree;
    if k > 0 {
      HeightsRightUpTo(c, ops, k - 1);
      BlocksFollowTheChain(c, ops[..k - 1]);
      RunNext(c, ops, k - 1);
      HeightsStepIff(c, Run(c, ops[..k - 1]), ops[k - 1]);
    }
  }

  /**
    The spinner heights over every history, whatever happens to the ledger: at each point they read as those of the
    surviving chain exactly when every block popped on the way recorded where its spinner had spun last.
   */
  lemma SpinnersRightIff(c: Crypto, ops: seq<Op>)
    ensures (forall k | 0 <= k <= |ops| :: HeightsRight(Run(c, ops[..k])))
       <==> (forall k | 0 <= k < |ops| :: HonestPop(c, Run(c, ops[..k]), ops[k]))
  {
    hide Run, Step, HonestPop, HeightsRight, BlocksAgree;
    if forall k | 0 <= k < |ops| :: HonestPop(c, Run(c, ops[..k]), ops[k]) {
      forall k | 0 <= k <= |ops| ensures HeightsRight(Run(c, ops[..k])) { HeightsRightUpTo(c, ops, k); }
    }
    if forall k | 0 <= k <= |ops| :: HeightsRight(Run(c, ops[..k])) {
      forall k | 0 <= k < |ops| ensures HonestPop(c, Run(c, ops[..k]), ops[k]) {
        BlocksFollowTheChain(c, ops[..k]);
        RunNext(c, ops, k);
        assert HeightsRight(Run(c, ops[..k + 1]));
        HeightsStepIff(c, Run(c, ops[..k]), ops[k]);
      }
    }
  }

  // ----- Honest records -----

  /** Every block records the height at which its spinner spun last. */
  predicate HonestSpins(chain: seq<BlockArgs>) {
    forall i | 0 <= i < |chain| :: chain[i].spinPrevHeight == LastSpin(chain[..i], chain[i].spinKey)
  }

  /** Whenever a block goes in, it records the height its spinner's entry then shows. */
  ghost predicate HonestRun(c: Crypto, ops: seq<Op>) {
    forall i | 0 <= i < |ops| && ops[i].Push? ::
      ops[i].args.spinPrevHeight == SpinnerHeight(Run(c, ops[..i]).store.spinners, ops[i].args.spinKey)
  }

  lemma HonestPrefix(c: Crypto, ops: seq<Op>)
    requires ops != [] && HonestRun(c, ops)
    ensures HonestRun(c, ops[..|ops| - 1])
  {
    var pre := ops[..|ops| - 1];
    forall i | 0 <= i < |pre| && pre[i].Push?
      ensures pre[i].args.spinPrevHeight == SpinnerHeight(Run(c, pre[..i]).store.spinners, pre[i].args.spinKey)
    {
      assert pre[..i] == ops[..i] && pre[i] == ops[i];
    }
  }

  lemma HonestExtend(chain: seq<BlockArgs>, a: BlockArgs)
    requires HonestSpins(chain) && a.spinPrevHeight == LastSpin(chain, a.spinKey)
    ensures HonestSpins(chain + [a])
  {
    forall i | 0 <= i < |chain + [a]|
      ensures (chain + [a])[i].spinPrevHeight == LastSpin((chain + [a])[..i], (chain + [a])[i].spinKey)
    {
      assert (chain + [a])[..i] == chain[..i];
      if i == |chain| { assert chain[..i] == chain; }
    }
  }

  lemma HonestShrink(chain: seq<BlockArgs>)
    requires chain != [] && HonestSpins(chain)
    ensures HonestSpins(chain[..|chain| - 1])
    ensures chain[|chain| - 1].spinPrevHeight == LastSpin(chain[..|chain| - 1], chain[|chain| - 1].spinKey)
  {
    forall i | 0 <= i < |chain| - 1 ensures chain[..|chain| - 1][..i] == chain[..i] {}
  }

  /**
    With honest records the spinner heights are path independent too: each reads as the height of the last
    surviving block of that spinner, however many blocks came and went.
   */
  lemma {:induction false} SpinnersFollowTheChain(c: Crypto, ops: seq<Op>)
    requires HonestRun(c, ops)
    ensures HonestSpins(Run(c, ops).chain) && HeightsRight(Run(c, ops))
  {
    hide Step, PopBlock, HonestSpins, BlocksAgree;
    if ops == [] {
      NoSpins();
    } else {
      var pre, op := ops[..|ops| - 1], ops[|ops| - 1];
      var n := Run(c, pre);
      HonestPrefix(c, ops);
      SpinnersFollowTheChain(c, pre);
      BlocksFollowTheChain(c, pre);
      if n.chain != [] { HonestShrink(n.chain); }
      HeightsStepIff(c, n, op);
      StepShape(c, n, op);
      match op
      case Push(a) =>
        assert a.spinPrevHeight == SpinnerHeight(Run(c, ops[..|pre|]).store.spinners, a.spinKey);
        if Step(c, n, op) != n { HonestExtend(n.chain, a); }
      case Pop =>
    }
  }

  lemma NoSpins()
    ensures HonestSpins([])
  {
  }

  /** Without an honest record the entry is wrong for good: one push and pop leave a height no block has. */
  lemma DishonestRecordSticks(c: Crypto, a: BlockArgs)
    requires ReversibleBlock(a) && AddBlock(c, EMPTY_STORE, a).Done? && a.spinPrevHeight > 0
    ensures Run(c, [Push(a), Pop]).chain == []
    ensures SpinnerHeight(Run(c, [Push(a), Pop]).store.spinners, a.spinKey) == a.spinPrevHeight
    ensures LastSpin([], a.spinKey) == 0
  {
    hide AddBlock, PopBlock, ReversibleBlock;
    var ops := [Push(a), Pop];
    assert ops[..1] == [Push(a)] && ops[..1][..0] == [];
    assert Run(c, []) == Node(EMPTY_STORE, []);
    var n := Run(c, [Push(a)]);
    assert n == Step(c, Run(c, []), Push(a)) == Node(AddBlock(c, EMPTY_STORE, a).state, [a]);
    assert Run(c, ops) == Step(c, n, Pop);
    FirstIsBuilt(c, a);
    BuiltPop(c, n);
  }

  lemma FirstIsBuilt(c: Crypto, a: BlockArgs)
    requires AddBlock(c, EMPTY_STORE, a).Done?
    ensures Built(c, Node(AddBlock(c, EMPTY_STORE, a).state, [a]))
  {
    hide AddBlock;
    BuildLast(c, [], a);
    assert [] + [a] == [a];
  }
}
