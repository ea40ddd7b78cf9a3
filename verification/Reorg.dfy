/** Reorganisations: popping a stretch of the chain and pushing it again. */
module Reorg {
  import opened ChainData
  import opened Tables
  import opened BlockStore
  import opened Blocks
  import opened BlockAgreement
  import opened Runs
  import opened Spinners

  /** What popping `k` blocks leaves, and the blocks with their transactions, newest first. */
  datatype Unwound = Unwound(store: Store, popped: seq<(Block, seq<Transaction>)>)

  function PopMany(c: Crypto, s: Store, k: nat): Outcome<Unwound> {
    if k == 0 then Done(Unwound(s, []))
    else match PopMany(c, s, k - 1)
      case Thrown(u, e) => Thrown(u, e)
      case Done(u) =>
        match PopBlock(c, u.store)
        case Thrown(p, e) => Thrown(Unwound(p.store, u.popped), e)
        case Done(p) =>
          if p.blk.None? then Thrown(u, BlockDne)
          else Done(Unwound(p.store, u.popped + [(p.blk.value, p.txs)]))
  }

  /** The arguments to push a popped block again, with the metadata its block info held. */
  function Again(info: BlockInfo, blk: Block, txs: seq<Transaction>): BlockArgs {
    BlockArgs(blk, info.weight, info.longTermWeight, info.gyro, info.coins, info.spinKey, info.spinPrevHeight,
              Reverse(txs))
  }

  /** The popped blocks, oldest first, ready to be pushed again. */
  function AgainAll(infos: map<nat, BlockInfo>, h: nat, popped: seq<(Block, seq<Transaction>)>): seq<BlockArgs>
    requires |popped| <= h && forall i | 0 <= i < h :: i in infos
  {
    seq(|popped|, i requires 0 <= i < |popped| =>
      var b := popped[|popped| - 1 - i]; Again(infos[h - |popped| + i], b.0, b.1))
  }

  /** The block infos carry the arguments the blocks of the chain were pushed with. */
  lemma InfosOfChain(c: Crypto, t: BlockTables, chain: seq<BlockArgs>, i: nat)
    requires BlocksAgree(c, t, chain) && i < |chain|
    ensures i in t.infos && Again(t.infos[i], chain[i].blk, Reverse(chain[i].txs)) == chain[i]
  {
    hide CumOf, Reverse;
    assert InfoOf(c, t.infos[i], chain[i], i, CumOf(chain[..i + 1]));
    ReverseTwice(chain[i].txs);
  }

  /** The chain a node has after `k` pops. */
  function Unwind(c: Crypto, n: Node, k: nat): Node {
    if k == 0 then n else Step(c, Unwind(c, n, k - 1), Pop)
  }

  /** The last `k` blocks. */
  function Top(chain: seq<BlockArgs>, k: nat): seq<BlockArgs>
    requires k <= |chain|
  {
    chain[|chain| - k..]
  }

  /**
    Popping `k` blocks, all of them reversible, succeeds and gives back exactly the last `k` blocks, newest first.
   */
  lemma {:induction false} PopManyMeaning(c: Crypto, n: Node, k: nat)
    requires Built(c, n) && k <= |n.chain| && ReversibleChain(Top(n.chain, k))
    ensures var u := PopMany(c, n.store, k);
            && Built(c, Unwind(c, n, k)) && Unwind(c, n, k).chain == n.chain[..|n.chain| - k]
            && u.Done? && u.state.store == Unwind(c, n, k).store && |u.state.popped| == k
            && forall i | 0 <= i < k ::
                 u.state.popped[i] == (n.chain[|n.chain| - 1 - i].blk, Reverse(n.chain[|n.chain| - 1 - i].txs))
  {
    hide Step, PopBlock, Built, ReversibleBlock, Reverse;
    if k == 0 {
      assert n.chain[..|n.chain|] == n.chain;
    } else {
      TopSplit(n.chain, k);
      PopManyMeaning(c, n, k - 1);
      BuiltPop(c, Unwind(c, n, k - 1));
      assert n.chain[..|n.chain| - (k - 1)][..|n.chain| - k] == n.chain[..|n.chain| - k];
    }
  }

  lemma TopSplit(chain: seq<BlockArgs>, k: nat)
    requires 0 < k <= |chain| && ReversibleChain(Top(chain, k))
    ensures ReversibleChain(Top(chain, k - 1)) && ReversibleBlock(chain[|chain| - k])
  {
    hide ReversibleBlock;
    var long, short := Top(chain, k), Top(chain, k - 1);
    assert ReversibleBlock(long[0]);
    forall i | 0 <= i < |short| ensures ReversibleBlock(short[i]) { assert short[i] == long[i + 1]; }
  }

  // ----- Spinner entries while a stretch of the chain is unwound and wound up again -----

  predicate Spins(blocks: seq<BlockArgs>, key: PublicKey) {
    exists i | 0 <= i < |blocks| :: blocks[i].spinKey == key
  }

  lemma SpinsSplit(blocks: seq<BlockArgs>, key: PublicKey)
    requires blocks != []
    ensures Spins(blocks, key) <==> blocks[|blocks| - 1].spinKey == key || Spins(blocks[..|blocks| - 1], key)
  {
    var pre := blocks[..|blocks| - 1];
    forall i | 0 <= i < |pre| ensures pre[i] == blocks[i] {}
    if i :| 0 <= i < |blocks| && blocks[i].spinKey == key {
      if i < |pre| { assert pre[i].spinKey == key; }
    }
  }

  /** Every spinner of the chain has an entry. */
  predicate Covered(n: Node) {
    forall i | 0 <= i < |n.chain| :: n.chain[i].spinKey in n.store.spinners
  }

  lemma {:induction false} RunCovers(c: Crypto, ops: seq<Op>)
    ensures Covered(Run(c, ops))
  {
    hide Step, BlocksAgree, PopBlock;
    if ops != [] {
      var pre := ops[..|ops| - 1];
      RunCovers(c, pre);
      BlocksFollowTheChain(c, pre);
      StepShape(c, Run(c, pre), ops[|ops| - 1]);
    }
  }

  /** Unwinding keeps every entry in place and touches only the spinners of the popped blocks. */
  lemma {:induction false} UnwindSpins(c: Crypto, n: Node, k: nat)
    requires Built(c, n) && Covered(n) && k <= |n.chain| && ReversibleChain(Top(n.chain, k))
    ensures var m := Unwind(c, n, k).store.spinners;
            && m.Keys == n.store.spinners.Keys
            && forall key | key in m && !Spins(n.chain[|n.chain| - k..], key) :: m[key] == n.store.spinners[key]
  {
    hide Step, PopBlock, Built, PopMany, ReversibleBlock, ReversibleChain;
    if k > 0 {
      TopSplit(n.chain, k);
      UnwindSpins(c, n, k - 1);
      PopManyMeaning(c, n, k - 1);
      BuiltPop(c, Unwind(c, n, k - 1));
      var i := |n.chain| - k;
      var a := n.chain[i];
      assert n.chain[..i + 1][i] == a;
      var long, short := n.chain[i..], n.chain[i + 1..];
      assert long[0] == a;
      forall key | Spins(short, key) ensures Spins(long, key) {
        var j :| 0 <= j < |short| && short[j].spinKey == key;
        assert long[j + 1].spinKey == key;
      }
    }
  }

  /** Pushing blocks again on a built node. */
  lemma {:induction false} AddManyMeaning(c: Crypto, n: Node, blocks: seq<BlockArgs>)
    requires Built(c, n) && Build(c, n.chain + blocks).Done?
    ensures var r := AddMany(c, n.store, blocks);
            && r.Done? && r.state == Build(c, n.chain + blocks).state.(spinners := r.state.spinners)
            && (forall key :: key in r.state.spinners <==> key in n.store.spinners || Spins(blocks, key))
            && (forall key | Spins(blocks, key) :: r.state.spinners[key] == LastSpin(n.chain + blocks, key))
            && (forall key | key in n.store.spinners && !Spins(blocks, key) ::
                  r.state.spinners[key] == n.store.spinners[key])
  {
    hide AddBlock;
    if blocks == [] {
      assert n.chain + blocks == n.chain;
    } else {
      var pre, a := blocks[..|blocks| - 1], blocks[|blocks| - 1];
      assert n.chain + blocks == n.chain + pre + [a];
      BuildLast(c, n.chain + pre, a);
      AddManyMeaning(c, n, pre);
      BuildBasics(c, n.chain + pre);
      var s := AddMany(c, n.store, pre).state;
      AddBlockIgnoresSpinners(c, Build(c, n.chain + pre).state, s.spinners, a);
      assert (n.chain + pre + [a])[..|n.chain + pre|] == n.chain + pre;
      forall key ensures Spins(blocks, key) <==> a.spinKey == key || Spins(pre, key) { SpinsSplit(blocks, key); }
    }
  }

  lemma SpinsInTail(chain: seq<BlockArgs>, i: nat, key: PublicKey)
    requires i <= |chain| && Spins(chain[i..], key)
    ensures Spins(chain, key)
  {
    var j :| 0 <= j < |chain[i..]| && chain[i..][j].spinKey == key;
    assert chain[i + j].spinKey == key;
  }

  /** The arguments rebuilt from popped blocks and stored infos are the ones the blocks were first pushed with. */
  lemma AgainIsOriginal(c: Crypto, n: Node, k: nat)
    requires Built(c, n) && k <= |n.chain| && ReversibleChain(Top(n.chain, k))
    ensures forall i | 0 <= i < |n.chain| :: i in n.store.chain.infos
    ensures PopMany(c, n.store, k).Done? && |PopMany(c, n.store, k).state.popped| == k
    ensures AgainAll(n.store.chain.infos, |n.chain|, PopMany(c, n.store, k).state.popped) == n.chain[|n.chain| - k..]
  {
    hide PopMany, Unwind, Build, Step, ReversibleChain, Again, Reverse, BlocksAgree;
    PopManyMeaning(c, n, k);
    BuildBasics(c, n.chain);
    forall i | 0 <= i < |n.chain|
      ensures i in n.store.chain.infos
      ensures Again(n.store.chain.infos[i], n.chain[i].blk, Reverse(n.chain[i].txs)) == n.chain[i]
    {
      InfosOfChain(c, n.store.chain, n.chain, i);
    }
  }

  /** Every block popped and pushed again, oldest first: lists turned round, metadata from the block infos. */
  function Reorganise(c: Crypto, s: Store, k: nat): Outcome<Store> {
    var u := PopMany(c, s, k);
    if u.Done? && k <= Height(s.chain) && |u.state.popped| == k
       && forall i | 0 <= i < Height(s.chain) :: i in s.chain.infos
    then AddMany(c, u.state.store, AgainAll(s.chain.infos, Height(s.chain), u.state.popped))
    else Thrown(u.state.store, DbError)
  }

  /**
    Reorganisation round trip, for every store a sound history leads to and every number of reversible blocks: the
    popped blocks go in again and restore every table but the spinner heights; they restore the whole store exactly
    when the heights of the popped blocks' spinners were right.
   */
  lemma ReorgRoundTrip(c: Crypto, ops: seq<Op>, k: nat)
    requires SoundRun(c, ops) && k <= |Run(c, ops).chain| && ReversibleChain(Top(Run(c, ops).chain, k))
    ensures var n := Run(c, ops);
            var r := Reorganise(c, n.store, k);
            && r.Done? && r.state == n.store.(spinners := r.state.spinners)
            && (r.state == n.store <==>
                forall key | Spins(Top(n.chain, k), key) ::
                  SpinnerHeight(n.store.spinners, key) == LastSpin(n.chain, key))
  {
    hide Run, Step, Unwind, PopMany, AddMany, Build, AgainAll, ReversibleChain, SoundRun, LastSpin, BlocksAgree;
    var n := Run(c, ops);
    PathIndependence(c, ops);
    RunCovers(c, ops);
    BuildBasics(c, n.chain);
    AgainIsOriginal(c, n, k);
    PopManyMeaning(c, n, k);
    var n', blocks := Unwind(c, n, k), n.chain[|n.chain| - k..];
    assert n'.chain + blocks == n.chain;
    AddManyMeaning(c, n', blocks);
    UnwindSpins(c, n, k);
    var m := AddMany(c, n'.store, blocks).state.spinners;
    forall key | Spins(blocks, key)
      ensures key in n.store.spinners && SpinnerHeight(n.store.spinners, key) == n.store.spinners[key]
    {
      SpinsInTail(n.chain, |n.chain| - k, key);
    }
    if forall key | Spins(blocks, key) :: SpinnerHeight(n.store.spinners, key) == LastSpin(n.chain, key) {
      assert m == n.store.spinners;
    }
  }

  /** With honest records a reorganisation restores every table. */
  lemma HonestReorgRestoresAll(c: Crypto, ops: seq<Op>, k: nat)
    requires SoundRun(c, ops) && HonestRun(c, ops)
    requires k <= |Run(c, ops).chain| && ReversibleChain(Top(Run(c, ops).chain, k))
    ensures Reorganise(c, Run(c, ops).store, k) == Done(Run(c, ops).store)
  {
    hide Run, Reorganise, Spins, SoundRun, ReversibleChain, HonestRun;
    ReorgRoundTrip(c, ops, k);
    SpinnersFollowTheChain(c, ops);
  }
}
