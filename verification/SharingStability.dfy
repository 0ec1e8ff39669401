/** While a request holds the blocks of a prefix hit, every later lookup of that prefix gets the same blocks. */
module SharingStability {
  import opened Wrappers
  import opened CacheTypes
  import opened Prefix
  import opened ManagerModel
  import opened ManagerInvariant
  import opened ManagerRuns
  import PM = PoolModel
  import PP = PoolProperties

  /** ids head r's table, and each is the block that a lookup of its hash returns. */
  ghost predicate Pinned(m: Manager, r: RequestId, hs: seq<BlockHash>, ids: seq<BlockId>) {
    && r in m.tables
    && ids <= m.tables[r]
    && |ids| <= |hs|
    && forall i :: 0 <= i < |ids| ==> PP.HeadOf(m.pool, hs[i]) == Some(ids[i])
  }

  lemma PinnedActive(m: Manager, r: RequestId, hs: seq<BlockHash>, ids: seq<BlockId>, i: nat)
    requires Inv(m) && Pinned(m, r, hs, ids) && i < |ids|
    ensures ids[i] < |m.pool.refs| && m.pool.refs[ids[i]] > 0
  {
    assert IsPlace(m.tables, r, i) && m.tables[r][i] == ids[i];
    HeldBlockActive(m, r, i);
  }

  lemma LookupPins(c: Config, m: Manager, r: RequestId, tokens: seq<Token>)
    requires c.blockSize > 0 && c.caching && Inv(m) && tokens != []
    ensures var (m', ids) := Lookup(c, m, r, tokens, false);
      Pinned(m', r, PromptHashes(c, tokens), ids)
  {
    var hs := PromptHashes(c, tokens);
    LookupRefinesSearch(m.pool, hs);
    var (pool, ids) := PM.LookupHits(m.pool, hs);
    forall i | 0 <= i < |ids|
      ensures PP.HeadOf(pool, hs[i]) == Some(ids[i])
    {
      assert PP.HeadOf(m.pool, hs[i]) == Some(ids[i]);
    }
  }

  /** Caching files new ids behind the ones already there. */
  lemma {:induction false} CacheRangeKeepsHead(p: PM.Pool, table: seq<BlockId>, hs: seq<BlockHash>, lo: nat, hi: nat,
    h: BlockHash, b: BlockId)
    requires PM.Shape(p) && hi <= |hs| && PP.HeadOf(p, h) == Some(b)
    requires forall i :: 0 <= i < |table| ==> table[i] < |p.refs|
    ensures PP.HeadOf(CacheRange(p, table, hs, lo, hi), h) == Some(b)
    decreases hi - lo
  {
    if lo < hi && lo < |table| {
      PP.CacheBlockKeepsHead(p, table[lo], hs[lo], h, b);
      CacheRangeKeepsHead(PM.CacheBlock(p, table[lo], hs[lo]), table, hs, lo + 1, hi, h, b);
    }
  }

  lemma LookupKeepsHead(c: Config, m: Manager, r: RequestId, tokens: seq<Token>, skip: bool, h: BlockHash)
    requires c.blockSize > 0 && Inv(m)
    ensures PP.HeadOf(Lookup(c, m, r, tokens, skip).0.pool, h) == PP.HeadOf(m.pool, h)
  {
    LookupRefinesSearch(m.pool, PromptHashes(c, tokens));
  }

  lemma CacheKeepsHead(c: Config, m: Manager, r: RequestId, n: nat, h: BlockHash, b: BlockId)
    requires c.blockSize > 0 && Inv(m) && PP.HeadOf(m.pool, h) == Some(b)
    ensures PP.HeadOf(CacheBlocks(c, m, r, n).pool, h) == Some(b)
  {
    if c.caching && r in m.tables && r in m.hashes {
      TableInRange(m, r);
      CacheRangeKeepsHead(m.pool, m.tables[r], m.hashes[r], ComputedTokens(m, r) / c.blockSize,
        Min(n / c.blockSize, |m.hashes[r]|), h, b);
    }
  }

  lemma ForkKeepsHead(m: Manager, parent: RequestId, child: RequestId, h: BlockHash)
    requires Inv(m)
    ensures PP.HeadOf(Fork(m, parent, child).0.pool, h) == PP.HeadOf(m.pool, h)
  {
    if parent in m.tables {
      TableActive(m, parent);
      TableInRange(m, parent);
      PP.IncrefAllCorrect(m.pool, m.tables[parent]);
    }
  }

  lemma FreeKeepsHead(m: Manager, r: RequestId, h: BlockHash)
    requires Inv(m)
    ensures PP.HeadOf(ManagerModel.Free(m, r).pool, h) == PP.HeadOf(m.pool, h)
  {
    if r in m.tables {
      TableHeld(m, r);
      PP.FreeAllCorrect(m.pool, m.tables[r]);
    }
  }

  /** No call takes an active block from the head of its index entry. */
  lemma StepKeepsHead(c: Config, m: Manager, op: Op, h: BlockHash, b: BlockId)
    requires c.blockSize > 0 && Inv(m) && Guard(c, m, op)
    requires PP.HeadOf(m.pool, h) == Some(b) && b < |m.pool.refs| && m.pool.refs[b] > 0
    ensures PP.HeadOf(Step(c, m, op).pool, h) == Some(b)
  {
    match op
    case LookupOp(r, tokens, skip) =>
      LookupKeepsHead(c, m, r, tokens, skip, h);
    case AllocateOp(r, numTokens, numComputed) =>
      PP.AllocateAllKeepsHead(m.pool, BlocksNeeded(c, numTokens, numComputed), h, b);
    case CacheOp(r, n) =>
      CacheKeepsHead(c, m, r, n, h, b);
    case ForkOp(parent, child) =>
      ForkKeepsHead(m, parent, child, h);
    case FreeOp(r) =>
      FreeKeepsHead(m, r, h);
    case ResetOp =>
      ActiveBlockHeld(m, b);
      ResetExact(m);
  }

  /** Only freeing r can shorten r's table. */
  lemma StepKeepsTable(c: Config, m: Manager, op: Op, r: RequestId)
    requires c.blockSize > 0 && Inv(m) && Guard(c, m, op) && op != FreeOp(r)
    requires r in m.tables && m.tables[r] != []
    ensures r in Step(c, m, op).tables && m.tables[r] <= Step(c, m, op).tables[r]
  {
  }

  lemma StepKeepsPinned(c: Config, m: Manager, op: Op, r: RequestId, hs: seq<BlockHash>, ids: seq<BlockId>)
    requires c.blockSize > 0 && Inv(m) && Guard(c, m, op) && op != FreeOp(r)
    requires Pinned(m, r, hs, ids) && ids != []
    ensures Pinned(Step(c, m, op), r, hs, ids)
  {
    StepKeepsTable(c, m, op, r);
    var m' := Step(c, m, op);
    assert |ids| <= |m.tables[r]|;
    assert ids <= m'.tables[r] by {
      assert m'.tables[r][..|ids|] == m.tables[r][..|ids|];
    }
    forall i | 0 <= i < |ids|
      ensures PP.HeadOf(m'.pool, hs[i]) == Some(ids[i])
    {
      PinnedActive(m, r, hs, ids, i);
      StepKeepsHead(c, m, op, hs[i], ids[i]);
    }
  }

  lemma {:induction false} RunKeepsPinned(c: Config, m: Manager, ops: seq<Op>, r: RequestId, hs: seq<BlockHash>,
    ids: seq<BlockId>)
    requires c.blockSize > 0 && Inv(m) && Legal(c, m, ops) && FreeOp(r) !in ops
    requires Pinned(m, r, hs, ids) && ids != []
    ensures Pinned(Run(c, m, ops), r, hs, ids)
    decreases ops
  {
    if ops != [] {
      StepInv(c, m, ops[0]);
      StepKeepsPinned(c, m, ops[0], r, hs, ids);
      RunKeepsPinned(c, Step(c, m, ops[0]), ops[1..], r, hs, ids);
    }
  }

  /** Hits on pinned hashes are the pinned blocks. */
  lemma PinnedHits(m: Manager, r: RequestId, hs: seq<BlockHash>, ids: seq<BlockId>, hs': seq<BlockHash>)
    requires Inv(m) && Pinned(m, r, hs, ids)
    requires |ids| <= |hs'| && hs'[..|ids|] == hs[..|ids|]
    ensures ids <= PM.LookupHits(m.pool, hs').1
  {
    LookupRefinesSearch(m.pool, hs');
    var (pool, ids') := PM.LookupHits(m.pool, hs');
    forall i | 0 <= i < |ids|
      ensures hs'[i] == hs[i] && hs'[i] in m.pool.index
    {
      assert hs'[..|ids|][i] == hs[..|ids|][i];
      assert PP.HeadOf(m.pool, hs[i]) == Some(ids[i]);
    }
    forall i | 0 <= i < |ids|
      ensures i < |ids'| && ids'[i] == ids[i]
    {
      assert PP.HeadOf(m.pool, hs[i]) == Some(ids[i]);
      if i < |ids'| {
        assert PP.HeadOf(m.pool, hs'[i]) == Some(ids'[i]);
      }
    }
  }

  /** The first k blocks of both token lists exist and are the same. */
  ghost predicate SameLeadingBlocks(blockSize: nat, tokens: seq<Token>, tokens': seq<Token>, k: nat) {
    && k * blockSize <= |tokens| && k * blockSize <= |tokens'|
    && tokens[..k * blockSize] == tokens'[..k * blockSize]
  }

  lemma LeadingBlocks(k: nat, blockSize: nat, length: nat)
    requires blockSize > 0 && k * blockSize <= length
    ensures k <= length / blockSize
    ensures k > 0 ==> length > 0
  {
    var q := length / blockSize;
    assert q + 1 <= k ==> (q + 1) * blockSize <= k * blockSize;
  }

  lemma LeadingBlock(blockSize: nat, tokens: seq<Token>, tokens': seq<Token>, k: nat, i: nat)
    requires blockSize > 0 && SameLeadingBlocks(blockSize, tokens, tokens', k) && i < k
    ensures i < |tokens| / blockSize && i < |tokens'| / blockSize
    ensures SamePrefix(Prompt(tokens, None), Prompt(tokens', None), blockSize, i)
  {
    LeadingBlocks(k, blockSize, |tokens|);
    LeadingBlocks(k, blockSize, |tokens'|);
    var n, all := (i + 1) * blockSize, k * blockSize;
    assert n <= all;
    assert tokens[..n] == tokens[..all][..n] == tokens'[..all][..n] == tokens'[..n];
  }

  lemma SamePromptHashes(c: Config, tokens: seq<Token>, tokens': seq<Token>, k: nat)
    requires c.blockSize > 0 && SameLeadingBlocks(c.blockSize, tokens, tokens', k)
    ensures k <= |PromptHashes(c, tokens)| && k <= |PromptHashes(c, tokens')|
    ensures PromptHashes(c, tokens)[..k] == PromptHashes(c, tokens')[..k]
  {
    LeadingBlocks(k, c.blockSize, |tokens|);
    LeadingBlocks(k, c.blockSize, |tokens'|);
    forall i | 0 <= i < k
      ensures PromptHashes(c, tokens)[i] == PromptHashes(c, tokens')[i]
    {
      LeadingBlock(c.blockSize, tokens, tokens', k, i);
      ChainDeterministic(c.hasher, c.blockSize, Prompt(tokens, None), Prompt(tokens', None), i);
    }
  }

  /**
   r looked up a prompt and hit ids. Whatever is called next, short of freeing r, a lookup of any
   prompt with the same |ids| leading blocks returns those very ids first.
   */
  lemma SharedPrefixStaysPut(c: Config, m: Manager, r: RequestId, tokens: seq<Token>, m1: Manager,
    ids: seq<BlockId>, ops: seq<Op>, r': RequestId, tokens': seq<Token>)
    requires c.blockSize > 0 && c.caching && Inv(m) && tokens != [] && TableOf(m, r) == []
    requires (m1, ids) == Lookup(c, m, r, tokens, false) && ids != []
    requires Inv(m1) && Legal(c, m1, ops) && FreeOp(r) !in ops
    requires SameLeadingBlocks(c.blockSize, tokens, tokens', |ids|)
    ensures ids <= Lookup(c, Run(c, m1, ops), r', tokens', false).1
  {
    LookupPins(c, m, r, tokens);
    var hs := PromptHashes(c, tokens);
    RunKeepsPinned(c, m1, ops, r, hs, ids);
    LeadingBlocks(|ids|, c.blockSize, |tokens'|);
    SamePromptHashes(c, tokens, tokens', |ids|);
    PinnedHits(Run(c, m1, ops), r, hs, ids, PromptHashes(c, tokens'));
  }
}
