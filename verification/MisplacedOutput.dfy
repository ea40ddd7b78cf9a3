/** A block whose removal succeeds and takes the output of an older block instead of its own. */
module MisplacedOutput {
  import opened ChainData
  import opened Tables
  import opened BlockStore
  import opened Transactions
  import opened Blocks
  import opened TableContents
  import opened BlockConverse
  import opened FirstBlock

  /** A first block with a spinner of version 1, whose output is stored under its amount. */
  const OLD_BLOCK := BlockOf(1)

  /** An idle spinner, and a transaction stored under amount 0 and looked for under amount 5. */
  const MISPLACING_BLOCK := BlockArgs(Block(1, 1, 0, LATER_SPINNER, [2]), 1, 1, 1, 1, 3, 0, [TWO_GENS])

  const MISPLACED_ENTRY := OutKey(0, 1, 7, 0, 1, Some(NUMBERS.zeroCommit(5)))

  /** The output tables with it in, on top of those of the first block. */
  const MISPLACED := Outputs(
    FirstLedger(NUMBERS, 1).outs.txs + [OutTx(1, 2, 0)],
    FirstLedger(NUMBERS, 1).outs.amounts[0 := [MISPLACED_ENTRY]])

  /** The output tables after popping it. */
  const LEFT := Outputs([OutTx(1, 2, 0)], map[0 := [MISPLACED_ENTRY]])

  lemma MisplacingLedger()
    ensures var r := LedgerAfter(NUMBERS, FirstLedger(NUMBERS, 1), 1, MISPLACING_BLOCK, 1);
            r.Done? && r.state.outs == MISPLACED
  {
    hide AddTransaction, FreshRows, WithTx, HasGen, StoreOutput;
    TwoGensIsIrreversible();
    LaterIsAdded(1);
    var l := FirstLedger(NUMBERS, 1);
    var t := WithTx(NUMBERS, l.txs, 1, LATER_SPINNER, 1, []);
    AddFirstOfAmount(NUMBERS, l.outs, 2, TWO_GENS.base, 1, MISPLACED, MISPLACED_ENTRY);
    AddSingle(NUMBERS, l.(txs := t), 1, TWO_GENS, 2, MISPLACED);
    assert LedgerAfter(NUMBERS, l, 1, MISPLACING_BLOCK, 0) == Done(l.(txs := t));
  }

  lemma MisplacingIsAccepted(s: Store)
    requires AddBlock(NUMBERS, EMPTY_STORE, OLD_BLOCK) == Done(s)
    ensures AddBlock(NUMBERS, s, MISPLACING_BLOCK).Done? && s.ledger == FirstLedger(NUMBERS, 1)
    ensures AddBlock(NUMBERS, s, MISPLACING_BLOCK).state.ledger.outs == MISPLACED
  {
    hide AddTransaction, LedgerAfter, FirstLedger;
    AloneIsAccepted(NUMBERS, 1, OLD_BLOCK);
    AddBlockTables(NUMBERS, EMPTY_STORE, OLD_BLOCK);
    MisplacingLedger();
    LoopStates(NUMBERS, s.ledger, 1, MISPLACING_BLOCK, 1);
  }

  /** It is looked for in the only slot of the first block. */
  lemma MisplacedSlot(o: Outputs)
    requires o == FirstLedger(NUMBERS, 1).outs
    ensures SoughtSlots(o, MISPLACING_BLOCK, 1) == [Slot(5, 0)]
  {
    hide HasGen;
    TwoGensIsIrreversible();
    assert Stored(TWO_GENS.base) == [0] && Sought(TWO_GENS.base) == [5];
    assert BlockStored(MISPLACING_BLOCK, 0) == [] && BlockSought(MISPLACING_BLOCK, 0) == [];
    assert BlockStored(MISPLACING_BLOCK, 1) == [0] && BlockSought(MISPLACING_BLOCK, 1) == [5];
  }

  lemma MisplacedRemoval()
    ensures RemoveSlots(MISPLACED, [Slot(5, 0)]) == Done(LEFT)
  {
    assert Without(MISPLACED.txs, 0) == LEFT.txs && SetBucket(MISPLACED.amounts, 5, []) == LEFT.amounts;
    assert RemoveOutput(MISPLACED, 5, 0) == Done(LEFT);
    assert [Slot(5, 0)][..0] == [];
  }

  /** Popping the block succeeds, takes the output of the first block, and leaves its own output behind. */
  lemma PopTakesAnOlderOutput()
    ensures var s := AddBlock(NUMBERS, EMPTY_STORE, OLD_BLOCK).state;
            var r := AddBlock(NUMBERS, s, MISPLACING_BLOCK);
            var p := PopBlock(NUMBERS, r.state);
            && r.Done? && p.Done? && p.state.store.chain == s.chain
            && |Bucket(s.ledger.outs, 5)| == 1 && Bucket(p.state.store.ledger.outs, 5) == []
            && Bucket(s.ledger.outs, 0) == [] && |Bucket(p.state.store.ledger.outs, 0)| == 1
  {
    hide AddBlock, PopBlock, SoughtSlots, RemoveSlots, Lacks, Linked, Distinct;
    var s := AddBlock(NUMBERS, EMPTY_STORE, OLD_BLOCK).state;
    AloneIsAccepted(NUMBERS, 1, OLD_BLOCK);
    AddBlockShape(NUMBERS, EMPTY_STORE, OLD_BLOCK);
    MisplacingIsAccepted(s);
    MisplacedSlot(s.ledger.outs);
    MisplacedRemoval();
    PopSeeks(NUMBERS, s, MISPLACING_BLOCK);
  }
}
