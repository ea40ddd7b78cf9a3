/** The block tables against the plain chain: they are described by it, whatever happens to the ledger. */
module BlockAgreement {
  import opened ChainData
  import opened Tables
  import opened BlockStore
  import opened Blocks

  /** The running RingCT count of the last block: carried over from version 4 on. */
  function CumOf(chain: seq<BlockArgs>): nat {
    if chain == [] then 0
    else
      var a := chain[|chain| - 1];
      NumRct(a, |a.txs|) + if a.blk.majorVersion >= 4 then CumOf(chain[..|chain| - 1]) else 0
  }

  /** The info of block `a` at height `i`, with running count `cum`. */
  predicate InfoOf(c: Crypto, info: BlockInfo, a: BlockArgs, i: nat, cum: nat) {
    && info.height == i && info.hash == c.blockHash(a.blk) && info.timestamp == a.blk.timestamp
    && info.coins == a.coins && info.weight == a.weight && info.longTermWeight == a.longTermWeight
    && info.gyro == a.gyro && info.spinKey == a.spinKey && info.spinPrevHeight == a.spinPrevHeight
    && info.cumRct == cum
  }

  /** The blocks of a chain, their infos and their heights are the ones stored. */
  ghost predicate BlocksAgree(c: Crypto, t: BlockTables, chain: seq<BlockArgs>) {
    && |t.blocks| == |chain|
    && (forall i | 0 <= i < |chain| :: t.blocks[i] == chain[i].blk)
    && (forall i :: i in t.infos <==> 0 <= i < |chain|)
    && (forall i | 0 <= i < |chain| :: InfoOf(c, t.infos[i], chain[i], i, CumOf(chain[..i + 1])))
    && (forall i | 0 <= i < |chain| :: HeightOf(c, t, chain, i))
    && (forall h | h in t.heights :: t.heights[h] < |chain| && c.blockHash(chain[t.heights[h]].blk) == h)
  }

  predicate HeightOf(c: Crypto, t: BlockTables, chain: seq<BlockArgs>, i: nat)
    requires i < |chain|
  {
    var hash := c.blockHash(chain[i].blk);
    hash in t.heights && t.heights[hash] == i
  }

  lemma TopCum(c: Crypto, t: BlockTables, chain: seq<BlockArgs>)
    requires BlocksAgree(c, t, chain)
    ensures Height(t) == |chain|
    ensures chain != [] ==> |chain| - 1 in t.infos && t.infos[|chain| - 1].cumRct == CumOf(chain)
  {
    hide CumOf, HeightOf;
    if chain != [] {
      var i := |chain| - 1;
      assert InfoOf(c, t.infos[i], chain[i], i, CumOf(chain[..i + 1]));
      assert chain[..i + 1] == chain;
    }
  }

  /** The count recorded with the next block is the one described. */
  lemma CumStep(c: Crypto, t: BlockTables, chain: seq<BlockArgs>, a: BlockArgs)
    requires BlocksAgree(c, t, chain)
    requires a.blk.majorVersion >= 4 ==> Height(t) > 0 && Height(t) - 1 in t.infos
    ensures NewCum(t, a) == CumOf(chain + [a])
  {
    hide BlocksAgree, NumRct;
    TopCum(c, t, chain);
    assert (chain + [a])[..|chain|] == chain;
  }

  lemma BlocksStep(c: Crypto, t: BlockTables, chain: seq<BlockArgs>, a: BlockArgs, t': BlockTables)
    requires BlocksAgree(c, t, chain) && c.blockHash(a.blk) !in t.heights
    requires a.blk.majorVersion >= 4 ==> Height(t) > 0 && Height(t) - 1 in t.infos
    requires t'.blocks == t.blocks + [a.blk] && t'.heights == t.heights[c.blockHash(a.blk) := |t.blocks|]
    requires t'.infos == t.infos[|t.blocks| := NewInfo(a, |t.blocks|, c.blockHash(a.blk), NewCum(t, a))]
    ensures BlocksAgree(c, t', chain + [a])
  {
    hide InfoOf, NewInfo, HeightOf, CumOf, NewCum, NumRct;
    var h, chain' := |t.blocks|, chain + [a];
    CumStep(c, t, chain, a);
    NewInfoOf(c, a, h, NewCum(t, a));
    forall i | 0 <= i < |chain'| ensures InfoOf(c, t'.infos[i], chain'[i], i, CumOf(chain'[..i + 1])) {
      if i < h {
        assert chain'[..i + 1] == chain[..i + 1];
        assert InfoOf(c, t.infos[i], chain[i], i, CumOf(chain[..i + 1]));
      } else {
        assert chain'[..i + 1] == chain';
      }
    }
    forall i | 0 <= i < |chain'| ensures HeightOf(c, t', chain', i) { HeightStep(c, t, chain, a, t', i); }
  }

  lemma HeightStep(c: Crypto, t: BlockTables, chain: seq<BlockArgs>, a: BlockArgs, t': BlockTables, i: nat)
    requires BlocksAgree(c, t, chain) && c.blockHash(a.blk) !in t.heights && i <= |chain|
    requires t'.heights == t.heights[c.blockHash(a.blk) := |t.blocks|]
    ensures HeightOf(c, t', chain + [a], i)
  {
    if i < |chain| { assert HeightOf(c, t, chain, i); }
  }

  lemma NewInfoOf(c: Crypto, a: BlockArgs, h: nat, cum: nat)
    ensures InfoOf(c, NewInfo(a, h, c.blockHash(a.blk), cum), a, h, cum)
  {
  }

  // ----- Which blocks are accepted -----

  predicate HasHash(c: Crypto, chain: seq<BlockArgs>, hash: Hash) {
    exists i | 0 <= i < |chain| :: c.blockHash(chain[i].blk) == hash
  }

  /** The block names the top block as its parent, if there is one. */
  predicate OnTop(c: Crypto, chain: seq<BlockArgs>, a: BlockArgs) {
    chain == [] || a.blk.prevId == c.blockHash(chain[|chain| - 1].blk)
  }

  lemma HeightsMeaning(c: Crypto, t: BlockTables, chain: seq<BlockArgs>, hash: Hash)
    requires BlocksAgree(c, t, chain)
    ensures hash in t.heights <==> HasHash(c, chain, hash)
    ensures chain != [] && hash in t.heights ==>
              (t.heights[hash] == |chain| - 1 <==> hash == c.blockHash(chain[|chain| - 1].blk))
  {
    hide InfoOf, CumOf;
    if chain != [] { assert HeightOf(c, t, chain, |chain| - 1); }
    if i :| 0 <= i < |chain| && c.blockHash(chain[i].blk) == hash { assert HeightOf(c, t, chain, i); }
  }

  /** What is thrown at a block of that hash on top of `chain`. */
  function ChainRefusal(c: Crypto, chain: seq<BlockArgs>, a: BlockArgs, hash: Hash): Option<Error> {
    if HasHash(c, chain, hash) then Some(BlockExists)
    else if !OnTop(c, chain, a) then Some(if HasHash(c, chain, a.blk.prevId) then ParentDne else DbError)
    else if a.blk.majorVersion >= 4 && chain == [] then Some(BlockDne)
    else None
  }

  /**
    The low-level `add_block` accepts exactly a block with a new hash that names the top block as its parent and, from
    version 4 on, is not the first; and what it throws otherwise.
   */
  lemma PutBlockIff(c: Crypto, s: Store, chain: seq<BlockArgs>, a: BlockArgs, numRct: nat, hash: Hash)
    requires BlocksAgree(c, s.chain, chain)
    ensures var r := PutBlock(s, a, numRct, hash);
            && (r.Done? <==>
                !HasHash(c, chain, hash) && OnTop(c, chain, a) && (a.blk.majorVersion >= 4 ==> chain != []))
            && (r.Thrown? ==> ChainRefusal(c, chain, a, hash) == Some(r.error))
  {
    hide InfoOf, CumOf, HasHash, NewInfo;
    TopCum(c, s.chain, chain);
    HeightsMeaning(c, s.chain, chain, hash);
    HeightsMeaning(c, s.chain, chain, a.blk.prevId);
    if chain != [] { TopRows(c, s.chain, chain); }
  }

  /** An accepted block extends the chain the tables agree with, at its top. */
  lemma BlocksPush(c: Crypto, s: Store, chain: seq<BlockArgs>, a: BlockArgs)
    requires BlocksAgree(c, s.chain, chain) && AddBlock(c, s, a).Done?
    ensures BlocksAgree(c, AddBlock(c, s, a).state.chain, chain + [a]) && |a.txs| == |a.blk.txHashes|
    ensures AddBlock(c, s, a).state.spinners == s.spinners[a.spinKey := |chain|]
    ensures OnTop(c, chain, a)
  {
    hide AddBlock, BlocksAgree, NewInfo, NewCum;
    TopCum(c, s.chain, chain);
    AddBlockTables(c, s, a);
    HeightsMeaning(c, s.chain, chain, a.blk.prevId);
    BlocksStep(c, s.chain, chain, a, AddBlock(c, s, a).state.chain);
  }

  lemma TopRows(c: Crypto, t: BlockTables, chain: seq<BlockArgs>)
    requires BlocksAgree(c, t, chain) && chain != []
    ensures var n, a := |chain| - 1, chain[|chain| - 1];
            && Height(t) == |chain| && t.blocks[n] == a.blk && n in t.infos && t.infos[n].hash in t.heights
            && t.infos[n].hash == c.blockHash(a.blk)
            && t.infos[n].spinKey == a.spinKey && t.infos[n].spinPrevHeight == a.spinPrevHeight
  {
    hide CumOf;
    var n := |chain| - 1;
    assert InfoOf(c, t.infos[n], chain[n], n, CumOf(chain[..n + 1])) && HeightOf(c, t, chain, n);
  }

  lemma HeightBack(c: Crypto, t: BlockTables, chain: seq<BlockArgs>, t': BlockTables, i: nat)
    requires BlocksAgree(c, t, chain) && i < |chain| - 1
    requires t'.heights == t.heights - {c.blockHash(chain[|chain| - 1].blk)}
    ensures HeightOf(c, t', chain[..|chain| - 1], i)
  {
    hide InfoOf, CumOf;
    assert HeightOf(c, t, chain, i) && HeightOf(c, t, chain, |chain| - 1);
  }

  lemma HashBack(c: Crypto, t: BlockTables, chain: seq<BlockArgs>, h: Hash)
    requires BlocksAgree(c, t, chain) && h in t.heights && chain != []
    requires h != c.blockHash(chain[|chain| - 1].blk)
    ensures var pre := chain[..|chain| - 1]; t.heights[h] < |pre| && c.blockHash(pre[t.heights[h]].blk) == h
  {
    hide InfoOf, CumOf;
  }

  /** Without their top rows the tables agree with the chain without its top. */
  lemma BlocksBack(c: Crypto, t: BlockTables, chain: seq<BlockArgs>, t': BlockTables)
    requires BlocksAgree(c, t, chain) && chain != []
    requires var n := |chain| - 1;
             && t'.blocks == t.blocks[..n] && t'.infos == t.infos - {n}
             && t'.heights == t.heights - {c.blockHash(chain[n].blk)}
    ensures BlocksAgree(c, t', chain[..|chain| - 1])
  {
    hide InfoOf, CumOf, HeightOf;
    var n, pre := |chain| - 1, chain[..|chain| - 1];
    forall i | 0 <= i < n ensures InfoOf(c, t'.infos[i], pre[i], i, CumOf(pre[..i + 1])) {
      assert pre[..i + 1] == chain[..i + 1];
      assert InfoOf(c, t.infos[i], chain[i], i, CumOf(chain[..i + 1]));
    }
    forall i | 0 <= i < n ensures HeightOf(c, t', pre, i) { HeightBack(c, t, chain, t', i); }
    forall h | h in t'.heights ensures t'.heights[h] < n && c.blockHash(pre[t'.heights[h]].blk) == h {
      HashBack(c, t, chain, h);
    }
  }

  /** A pop that succeeds takes off the top of the chain, whatever it does to the ledger. */
  lemma BlocksPop(c: Crypto, s: Store, chain: seq<BlockArgs>)
    requires BlocksAgree(c, s.chain, chain) && PopBlock(c, s).Done?
    ensures chain != []
    ensures var p, a := PopBlock(c, s).state, chain[|chain| - 1];
            && BlocksAgree(c, p.store.chain, chain[..|chain| - 1]) && p.blk == Some(a.blk)
            && p.store.spinners == s.spinners[a.spinKey := a.spinPrevHeight]
  {
    hide BlocksAgree, RemoveTransaction, PopTransactions;
    TopCum(c, s.chain, chain);
    TopRows(c, s.chain, chain);
    BlocksBack(c, s.chain, chain, PopBlock(c, s).state.store.chain);
  }

  /** Each block names the one before it as its parent. */
  predicate Chained(c: Crypto, chain: seq<BlockArgs>) {
    forall i | 0 < i < |chain| :: chain[i].blk.prevId == c.blockHash(chain[i - 1].blk)
  }

  lemma ChainedPush(c: Crypto, chain: seq<BlockArgs>, a: BlockArgs)
    requires Chained(c, chain) && OnTop(c, chain, a)
    ensures Chained(c, chain + [a])
  {
    var chain' := chain + [a];
    forall i | 0 < i < |chain'| ensures chain'[i].blk.prevId == c.blockHash(chain'[i - 1].blk) {
      if i < |chain| { assert chain'[i] == chain[i] && chain'[i - 1] == chain[i - 1]; }
    }
  }

  lemma NoBlocksAgree(c: Crypto)
    ensures BlocksAgree(c, EMPTY_STORE.chain, [])
  {
  }
}
