/** Concrete blocks the store accepts: the histories spoken of are not empty, and some of them go wrong. */
module FirstBlock {
  import opened ChainData
  import opened Tables
  import opened BlockStore
  import opened SpentKeys
  import opened OutputTables
  import opened Transactions
  import opened Blocks
  import opened Runs
  import opened Spinners
  import opened RctCount

  /** Adding a transaction without outputs, its inputs all gen inputs. */
  lemma AddEmpty(c: Crypto, l: Ledger, height: nat, tx: Transaction, hash: Hash)
    requires tx.base.vout == [] && HasGen(tx.base.vin) && forall i | 0 <= i < |tx.base.vin| :: tx.base.vin[i].Gen?
    requires FreshRows(l.txs, tx.base, hash) && KnownVersion(tx.base)
    ensures AddTransaction(c, l, height, tx, hash) == Done(l.(txs := WithTx(c, l.txs, height, tx, hash, [])))
  {
    assert Images(tx.base.vin) == {} && Spendable(tx.base.vin, l.spent);
    InputsRoundTrip(tx.base.vin, l.spent);
    assert AddInputs(tx.base.vin, 0, l.spent, false) == InputsDone(l.spent, true);
  }

  /** Adding a transaction with a single output, its inputs all gen inputs. */
  lemma AddSingle(c: Crypto, l: Ledger, height: nat, tx: Transaction, hash: Hash, o: Outputs)
    requires |tx.base.vout| == 1 && HasGen(tx.base.vin) && forall i | 0 <= i < |tx.base.vin| :: tx.base.vin[i].Gen?
    requires FreshRows(l.txs, tx.base, hash) && KnownVersion(tx.base)
    requires StoreOutput(c, l.outs, hash, tx.base, true, height, 0) == Done(o)
    ensures var indices := [|Bucket(l.outs, StoredAmount(tx.base, true, 0))|];
            AddTransaction(c, l, height, tx, hash)
            == Done(Ledger(l.spent, WithTx(c, l.txs, height, tx, hash, indices), o))
  {
    assert Images(tx.base.vin) == {} && Spendable(tx.base.vin, l.spent);
    InputsRoundTrip(tx.base.vin, l.spent);
    assert AddInputs(tx.base.vin, 0, l.spent, false) == InputsDone(l.spent, true);
    var k := |Bucket(l.outs, StoredAmount(tx.base, true, 0))|;
    assert NextIndexed(c, Indexed(l.outs, []), hash, tx.base, true, height) == Indexed(o, [k]);
    assert AddOutputs(c, Indexed(o, [k]), hash, tx.base, true, height) == Done(Indexed(o, [k]));
    assert AddOutputs(c, Indexed(l.outs, []), hash, tx.base, true, height) == Done(Indexed(o, [k]));
  }

  /** One output more on tables where its amount has no entry yet. */
  lemma AddFirstOfAmount(c: Crypto, o: Outputs, hash: Hash, tx: TxBase, height: nat, o': Outputs, e: OutKey)
    requires |tx.vout| == 1 && StoredOutput(c, tx, true, 0).Some? && tx.vout[0].target.OutToKey?
    requires var a := StoredAmount(tx, true, 0);
             && a !in o.amounts && o' == Outputs(o.txs + [OutTx(NextOutputId(o), hash, 0)], o.amounts[a := [e]])
             && (a == 0 ==> StoredOutput(c, tx, true, 0).value.1.Some?)
             && e == OutKey(0, NextOutputId(o), tx.vout[0].target.key, tx.unlockTime, height,
                            if a == 0 then StoredOutput(c, tx, true, 0).value.1 else None)
    ensures StoreOutput(c, o, hash, tx, true, height, 0) == Done(o')
  {
    assert [] + [e] == [e];
  }

  lemma FreshAtFirst(tx: TxBase, hash: Hash)
    ensures FreshRows(EMPTY_LEDGER.txs, tx, hash) && CanAppend(EMPTY_LEDGER.txs.prunableHash, |EMPTY_LEDGER.txs.pruned|)
  {
  }

  /** Tables with a row for every id up to now take one row more. */
  lemma FreshAfter(c: Crypto, t: TxTables, height: nat, tx: Transaction, hash: Hash, indices: seq<nat>,
                   tx': TxBase, hash': Hash)
    requires FreshRows(t, tx.base, hash) && hash' != hash && hash' !in t.indices
    requires CanAppend(t.prunableHash, |t.pruned|)
    ensures var t' := WithTx(c, t, height, tx, hash, indices);
            && FreshRows(t', tx', hash') && CanAppend(t'.prunableHash, |t'.pruned|)
            && t'.indices.Keys == t.indices.Keys + {hash}
  {
    assert |t.pruned[|t.pruned| := tx.base]| == |t.pruned| + 1;
  }

  // ----- A first block -----

  /** A spinner transaction with one output of amount 5. */
  function Coin(version: nat): Transaction {
    Transaction(TxBase(version, 0, [Gen(0)], [TxOut(5, OutToKey(7))], []), 0)
  }

  function BlockOf(version: nat): BlockArgs { BlockArgs(Block(1, 0, 0, Coin(version), []), 1, 1, 1, 1, 3, 0, []) }

  const FIRST_BLOCK := BlockOf(2)

  lemma CoinIsProper(version: nat)
    requires version in {1, 2}
    ensures ReversibleBlock(BlockOf(version)) && ProtocolBlock(BlockOf(version)) && HasGen(Coin(version).base.vin)
  {
    assert Coin(version).base.vin[0].Gen?;
    ReversibleMeaning(Coin(version).base);
  }

  /** The ledger it leaves: version 2 is stored under amount 0, with a commitment. */
  function FirstLedger(c: Crypto, version: nat): Ledger {
    var hash := c.txHash(Coin(version));
    var e := OutKey(0, 0, 7, 0, 0, if version == 2 then Some(c.zeroCommit(5)) else None);
    Ledger({}, WithTx(c, EMPTY_LEDGER.txs, 0, Coin(version), hash, [0]),
           Outputs([OutTx(0, hash, 0)], map[if version == 2 then 0 else 5 := [e]]))
  }

  lemma FirstLedgerIsAccepted(c: Crypto, version: nat)
    requires version in {1, 2}
    ensures AddTransaction(c, EMPTY_LEDGER, 0, Coin(version), c.txHash(Coin(version))) == Done(FirstLedger(c, version))
  {
    hide StoreOutput, WithTx, AddTransaction, HasGen;
    CoinIsProper(version);
    var l, o := FirstLedger(c, version), EMPTY_LEDGER.outs;
    var a, hash := StoredAmount(Coin(version).base, true, 0), c.txHash(Coin(version));
    var e := OutKey(0, 0, 7, 0, 0, if version == 2 then Some(c.zeroCommit(5)) else None);
    assert l.outs == Outputs(o.txs + [OutTx(0, hash, 0)], o.amounts[a := [e]]);
    AddFirstOfAmount(c, o, hash, Coin(version).base, 0, l.outs, e);
    AddSingle(c, EMPTY_LEDGER, 0, Coin(version), hash, l.outs);
  }

  /** A block of that spinner alone is accepted, whatever else is recorded with it. */
  lemma AloneIsAccepted(c: Crypto, version: nat, a: BlockArgs)
    requires version in {1, 2} && a.blk == BlockOf(version).blk && a.txs == []
    ensures AddBlock(c, EMPTY_STORE, a).Done?
    ensures AddBlock(c, EMPTY_STORE, a).state.ledger == FirstLedger(c, version)
  {
    hide AddTransaction, FirstLedger;
    FirstLedgerIsAccepted(c, version);
  }

  /** The empty store accepts it, whatever the hash functions are; pushing it is an honest, sound history. */
  lemma FirstBlockIsAccepted(c: Crypto)
    ensures AddBlock(c, EMPTY_STORE, FIRST_BLOCK).Done?
    ensures Run(c, [Push(FIRST_BLOCK)]).chain == [FIRST_BLOCK]
    ensures SoundRun(c, [Push(FIRST_BLOCK)]) && HonestRun(c, [Push(FIRST_BLOCK)])
  {
    hide AddBlock;
    AloneIsAccepted(c, 2, FIRST_BLOCK);
    CoinIsProper(2);
    var ops := [Push(FIRST_BLOCK)];
    assert ops[..0] == [];
    assert Run(c, []) == Node(EMPTY_STORE, []);
    assert Run(c, ops) == Runs.Step(c, Run(c, []), Push(FIRST_BLOCK));
  }

  /** The same block recorded with a height its spinner never had: popping it leaves that height behind. */
  lemma WrongRecordSticks(c: Crypto, height: nat)
    requires height > 0
    ensures var a := FIRST_BLOCK.(spinPrevHeight := height);
            && Run(c, [Push(a), Pop]).chain == [] && LastSpin([], a.spinKey) == 0
            && SpinnerHeight(Run(c, [Push(a), Pop]).store.spinners, a.spinKey) == height
  {
    hide AddBlock;
    var a := FIRST_BLOCK.(spinPrevHeight := height);
    AloneIsAccepted(c, 2, a);
    CoinIsProper(2);
    DishonestRecordSticks(c, a);
  }

  /** Hash functions that tell the two blocks and their spinners apart. */
  const NUMBERS := Crypto((tx: Transaction) => tx.prunable, _ => 0, (blk: Block) => blk.timestamp, amount => amount)

  /** A spinner that makes no outputs. */
  const LATER_SPINNER := Transaction(TxBase(2, 0, [Gen(0)], [], []), 1)

  const LATER_BLOCK := BlockArgs(Block(1, 1, 0, LATER_SPINNER, []), 1, 1, 1, 1, 3, 0, [])

  lemma LaterIsAccepted(s: Store)
    requires AddBlock(NUMBERS, EMPTY_STORE, FIRST_BLOCK) == Done(s)
    ensures AddBlock(NUMBERS, s, LATER_BLOCK).Done? && ProtocolBlock(LATER_BLOCK)
  {
    hide AddTransaction, FreshRows, WithTx, FirstLedger, CanAppend;
    assert LATER_SPINNER.base.vin[0].Gen?;
    AloneIsAccepted(NUMBERS, 2, FIRST_BLOCK);
    LaterIsAdded(2);
    LaterIsPut(s);
  }

  lemma LaterIsPut(s: Store)
    requires AddBlock(NUMBERS, EMPTY_STORE, FIRST_BLOCK) == Done(s)
    requires AddTransaction(NUMBERS, s.ledger, 1, LATER_SPINNER, 1).Done?
    ensures AddBlock(NUMBERS, s, LATER_BLOCK).Done?
  {
    hide AddTransaction;
    AddBlockTables(NUMBERS, EMPTY_STORE, FIRST_BLOCK);
  }

  /** The idle spinner goes in on top, and leaves room for one transaction more. */
  lemma LaterIsAdded(version: nat)
    requires version in {1, 2}
    ensures var l := FirstLedger(NUMBERS, version);
            var t := WithTx(NUMBERS, l.txs, 1, LATER_SPINNER, 1, []);
            && AddTransaction(NUMBERS, l, 1, LATER_SPINNER, 1) == Done(l.(txs := t))
            && FreshRows(t, TWO_GENS.base, 2)
  {
    hide AddTransaction, WithTx, FreshRows, CanAppend;
    var l := FirstLedger(NUMBERS, version);
    assert LATER_SPINNER.base.vin[0].Gen?;
    FreshAtFirst(Coin(version).base, 0);
    FreshAfter(NUMBERS, EMPTY_LEDGER.txs, 0, Coin(version), 0, [0], LATER_SPINNER.base, 1);
    FreshAfter(NUMBERS, l.txs, 1, LATER_SPINNER, 1, [], TWO_GENS.base, 2);
    AddEmpty(NUMBERS, l, 1, LATER_SPINNER, 1);
  }

  /** Two blocks of version 1: the later one forgets the output of the first, and its running count is wrong. */
  lemma OlderBlockForgets()
    ensures var r := AddBlock(NUMBERS, EMPTY_STORE, FIRST_BLOCK);
            && r.Done? && CumulativeRight(r.state)
            && AddBlock(NUMBERS, r.state, LATER_BLOCK).Done? && CountsRight(LATER_BLOCK)
            && !CumulativeRight(AddBlock(NUMBERS, r.state, LATER_BLOCK).state)
  {
    hide AddBlock, CountsRight, NumRct;
    var s := AddBlock(NUMBERS, EMPTY_STORE, FIRST_BLOCK).state;
    AloneIsAccepted(NUMBERS, 2, FIRST_BLOCK);
    CoinIsProper(2);
    ProtocolBlocksCountRight(FIRST_BLOCK);
    CumulativeStaysRightIff(NUMBERS, EMPTY_STORE, FIRST_BLOCK);
    LaterIsAccepted(s);
    ProtocolBlocksCountRight(LATER_BLOCK);
    AddBlockShape(NUMBERS, EMPTY_STORE, FIRST_BLOCK);
    CumulativeStaysRightIff(NUMBERS, s, LATER_BLOCK);
  }
}
