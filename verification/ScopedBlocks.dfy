/** Blocks added inside a batch scope: all of them, or none. */
module ScopedBlocks {
  import opened ChainData
  import opened Tables
  import BlockStore
  import Runs
  import opened LockedTxn

  /** What reaches the open batch while the blocks are added one after the other; the first exception ends it. */
  function Writes(c: Crypto, s: Store, blocks: seq<BlockArgs>): seq<Action<Store>>
    decreases |blocks|
  {
    if blocks == [] then []
    else
      var r := BlockStore.AddBlock(c, s, blocks[0]);
      [Write(r.state)] + if r.Done? then Writes(c, r.state, blocks[1..]) else []
  }

  /** Adding the blocks, as one result. */
  function AddAll(c: Crypto, s: Store, blocks: seq<BlockArgs>): Outcome<Store>
    decreases |blocks|
  {
    if blocks == [] then Done(s)
    else
      var r := BlockStore.AddBlock(c, s, blocks[0]);
      if r.Done? then AddAll(c, r.state, blocks[1..]) else r
  }

  lemma {:induction false} WritesOnly(c: Crypto, s: Store, blocks: seq<BlockArgs>)
    ensures forall k | 0 <= k < |Writes(c, s, blocks)| :: Writes(c, s, blocks)[k].Write?
    decreases |blocks|
  {
    hide BlockStore.AddBlock;
    if blocks != [] {
      WritesOnly(c, BlockStore.AddBlock(c, s, blocks[0]).state, blocks[1..]);
    }
  }

  lemma {:induction false} RunCons<T>(s: System<T>, a: Action<T>, run: seq<Action<T>>)
    ensures LockedTxn.Run(s, [a] + run) == LockedTxn.Run(LockedTxn.Step(s, a), run)
    decreases |run|
  {
    hide LockedTxn.Step;
    if run == [] {
      assert [a] + run == [a] && [a][..0] == [];
    } else {
      assert ([a] + run)[..|run|] == [a] + run[..|run| - 1];
      RunCons(s, a, run[..|run| - 1]);
    }
  }

  /** The writes leave in the batch whatever the additions left, exception or not, and touch nothing else. */
  lemma {:induction false} WritesMeaning(c: Crypto, sys: System<Store>, blocks: seq<BlockArgs>)
    requires sys.db.open
    ensures LockedTxn.Run(sys, Writes(c, sys.db.working, blocks))
         == sys.(db := sys.db.(working := AddAll(c, sys.db.working, blocks).state))
    decreases |blocks|
  {
    hide BlockStore.AddBlock;
    if blocks != [] {
      var r := BlockStore.AddBlock(c, sys.db.working, blocks[0]);
      var sys1 := sys.(db := sys.db.(working := r.state));
      var rest := if r.Done? then Writes(c, r.state, blocks[1..]) else [];
      RunCons(sys, Write(r.state), rest);
      assert LockedTxn.Step(sys, Write(r.state)) == sys1;
      if r.Done? { WritesMeaning(c, sys1, blocks[1..]); }
    }
  }

  /** `AddAll` is pushing the blocks one after the other. */
  lemma {:induction false} AddAllIsAddMany(c: Crypto, s: Store, blocks: seq<BlockArgs>)
    ensures AddAll(c, s, blocks) == Runs.AddMany(c, s, blocks)
    decreases |blocks|
  {
    hide BlockStore.AddBlock;
    if blocks != [] {
      var r := BlockStore.AddBlock(c, s, blocks[0]);
      AddManyCons(c, s, blocks);
      if r.Done? { AddAllIsAddMany(c, r.state, blocks[1..]); }
    }
  }

  lemma {:induction false} AddManyCons(c: Crypto, s: Store, blocks: seq<BlockArgs>)
    requires blocks != []
    ensures var r := BlockStore.AddBlock(c, s, blocks[0]);
            Runs.AddMany(c, s, blocks) ==
            if r.Done? then Runs.AddMany(c, r.state, blocks[1..]) else Thrown(r.state, r.error)
    decreases |blocks|
  {
    hide BlockStore.AddBlock;
    if |blocks| == 1 {
      assert blocks[..0] == [] && blocks[1..] == [];
    } else {
      var pre := blocks[..|blocks| - 1];
      AddManyCons(c, s, pre);
      assert pre[0] == blocks[0] && pre[1..] == blocks[1..][..|blocks| - 2];
    }
  }

  /** The additions inside a scope never open a batch. */
  lemma WritesNeverOpen<T>(s: System<T>, run: seq<Action<T>>)
    requires forall k | 0 <= k < |run| :: run[k].Write?
    ensures NeverOverStale(s, run)
  {
  }

  /**
    If an addition throws, at whichever block and whichever point inside it, the end of the scope gives back
    the store from before the scope.
   */
  lemma FailedAddLeavesNoTrace(c: Crypto, sys: System<Store>, id: nat, blocks: seq<BlockArgs>)
    requires Owned(sys) && !sys.db.open && !HasOwner(sys) && id !in sys.handles
    requires Runs.AddMany(c, Visible(sys.db), blocks).Thrown?
    ensures var scope := LockedTxn.Step(sys, Create(id, NoFault));
            var failed := LockedTxn.Run(scope, Writes(c, Visible(sys.db), blocks));
            && Visible(failed.db) == Runs.AddMany(c, Visible(sys.db), blocks).state
            && Visible(LockedTxn.Step(failed, Destroy(id, NoFault)).db) == Visible(sys.db)
  {
    hide AddAll, Writes, LockedTxn.Run, Runs.AddMany, NeverOverStale;
    var scope := LockedTxn.Step(sys, Create(id, NoFault));
    var mid := Writes(c, Visible(sys.db), blocks);
    AddAllIsAddMany(c, Visible(sys.db), blocks);
    WritesMeaning(c, scope, blocks);
    WritesOnly(c, Visible(sys.db), blocks);
    WritesNeverOpen(scope, mid);
    ScopeRollsBack(sys, id, mid, Destroy(id, NoFault));
  }

  /** If every addition succeeds and the scope commits, the store is exactly the one with the blocks added. */
  lemma CommittedAddsAreKept(c: Crypto, sys: System<Store>, id: nat, blocks: seq<BlockArgs>)
    requires !sys.db.open && id !in sys.handles
    requires Runs.AddMany(c, Visible(sys.db), blocks).Done?
    ensures var written := LockedTxn.Run(LockedTxn.Step(sys, Create(id, NoFault)), Writes(c, Visible(sys.db), blocks));
            var done := LockedTxn.Step(LockedTxn.Step(written, Commit(id, NoFault)), Destroy(id, NoFault));
            done.db == Closed(Runs.AddMany(c, Visible(sys.db), blocks).state)
  {
    hide AddAll, Writes, LockedTxn.Run, Runs.AddMany;
    AddAllIsAddMany(c, Visible(sys.db), blocks);
    WritesMeaning(c, LockedTxn.Step(sys, Create(id, NoFault)), blocks);
  }
}
