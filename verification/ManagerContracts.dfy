/**
 What each manager call does, told by the state before and the state after alone. The model functions of
 `ManagerModel` meet these statements, and so do the methods that refine them.
 */
module ManagerContracts {
  import opened Wrappers
  import opened CacheTypes
  import opened Grids
  import opened Prefix
  import opened ManagerModel
  import opened ManagerInvariant
  import opened ManagerTheorems
  import PM = PoolModel
  import PP = PoolProperties

  // ---------- lookup ----------

  /** ids are the heads of the index entries of the leading hashes, up to the first hash that has none. */
  ghost predicate LeadingHeads(index: map<BlockHash, seq<BlockId>>, hs: seq<BlockHash>, ids: seq<BlockId>) {
    && |ids| <= |hs|
    && (forall i :: 0 <= i < |ids| ==> hs[i] in index && index[hs[i]] != [] && index[hs[i]][0] == ids[i])
    && (|ids| < |hs| ==> hs[|ids|] !in index)
  }

  /** The prompt's hashes, the hits and their token count are recorded, and each hit gains a reference. */
  ghost predicate LookedUp(c: Config, m: Manager, r: RequestId, tokens: seq<Token>, m': Manager, ids: seq<BlockId>)
    requires c.blockSize > 0
  {
    var hs := ChainHashes(c.hasher, Prompt(tokens, None), c.blockSize);
    && LeadingHeads(m.pool.index, hs, ids)
    && m'.tables == m.tables[r := ids]
    && m'.computed == m.computed[r := |ids| * c.blockSize]
    && m'.hashes == m.hashes[r := hs]
    && PP.RefsPlus(m.pool, m'.pool, ids) && m'.pool.labels == m.pool.labels && m'.pool.index == m.pool.index
  }

  /** Switched off by the configuration, the caller or an empty prompt it does nothing. */
  lemma LookupExact(c: Config, m: Manager, r: RequestId, tokens: seq<Token>, skip: bool)
    requires c.blockSize > 0 && WellFormed(m)
    ensures var (m', ids) := Lookup(c, m, r, tokens, skip);
      if !c.caching || skip || tokens == [] then m' == m && ids == [] else LookedUp(c, m, r, tokens, m', ids)
  {
    if c.caching && !skip && tokens != [] {
      var hs := ChainHashes(c.hasher, Prompt(tokens, None), c.blockSize);
      LookupRefinesSearch(m.pool, hs);
      var (pool, ids) := PM.LookupHits(m.pool, hs);
      forall i | 0 <= i < |ids|
        ensures hs[i] in m.pool.index && m.pool.index[hs[i]] != [] && m.pool.index[hs[i]][0] == ids[i]
      {
        assert PP.HeadOf(m.pool, hs[i]) == Some(ids[i]);
      }
    }
  }

  // ---------- allocation ----------

  /** With enough room, the fewest blocks that hold the tokens beyond those computed are appended to r's table. */
  ghost predicate Allocated(c: Config, m: Manager, r: RequestId, numTokens: nat, numComputed: nat, m': Manager,
    ids: Option<seq<BlockId>>)
  {
    var tokens := numTokens - numComputed;
    if tokens <= 0 then m' == m && ids == Some([])
    else
      && (ids.Some? <==> tokens <= |m.pool.free| * c.blockSize)
      && (ids.Some? ==>
        && (|ids.value| - 1) * c.blockSize < tokens <= |ids.value| * c.blockSize
        && PP.TookAll(m.pool, m'.pool, ids.value)
        && m'.tables == m.tables[r := (if r in m.tables then m.tables[r] else []) + ids.value])
      && (ids.None? ==> m'.tables == m.tables && PP.RolledBack(m.pool, m'.pool))
      && m'.computed == m.computed && m'.hashes == m.hashes
  }

  /** n blocks are the fewest that hold the tokens; whether n are free is whether the free blocks hold the tokens. */
  lemma FewestFit(tokens: nat, n: nat, free: nat, blockSize: nat)
    requires (n - 1) * blockSize < tokens <= n * blockSize
    ensures n <= free <==> tokens <= free * blockSize
  {
    MulMonotone(n, free, blockSize);
    MulMonotone(free, n - 1, blockSize);
  }

  lemma GrantCounts(p: PM.Pool, tokens: nat, blockSize: nat, p': PM.Pool, ids: Option<seq<BlockId>>)
    requires blockSize > 0 && tokens > 0 && PM.Valid(p)
    requires (p', ids) == PM.AllocateAll(p, CeilDiv(tokens, blockSize))
    ensures ids.Some? <==> tokens <= |p.free| * blockSize
    ensures ids.Some? ==>
      (|ids.value| - 1) * blockSize < tokens <= |ids.value| * blockSize && PP.TookAll(p, p', ids.value)
    ensures ids.None? ==> PP.RolledBack(p, p')
  {
    var n := CeilDiv(tokens, blockSize);
    CeilDivExact(tokens, blockSize);
    FewestFit(tokens, n, |p.free|, blockSize);
    PP.AllocateAllExact(p, n);
  }

  lemma AllocateCounts(c: Config, m: Manager, r: RequestId, numTokens: nat, numComputed: nat)
    requires c.blockSize > 0 && WellFormed(m)
    ensures var (m', ids) := AllocateSlots(c, m, r, numTokens, numComputed);
      Allocated(c, m, r, numTokens, numComputed, m', ids)
  {
    if numTokens > numComputed {
      var (pool, ids) := PM.AllocateAll(m.pool, CeilDiv(numTokens - numComputed, c.blockSize));
      GrantCounts(m.pool, numTokens - numComputed, c.blockSize, pool, ids);
    }
  }

  // ---------- free ----------

  /** r is forgotten; a reference of each entry of its table is returned, and no label is lost. */
  ghost predicate Freed(m: Manager, r: RequestId, m': Manager) {
    && m'.tables == m.tables - {r} && m'.computed == m.computed - {r} && m'.hashes == m.hashes - {r}
    && m'.pool.labels == m.pool.labels && m'.pool.index == m.pool.index
    && PP.RefsPlus(m'.pool, m.pool, if r in m.tables then m.tables[r] else [])
  }

  lemma FreeExact(m: Manager, r: RequestId)
    requires Inv(m)
    ensures Freed(m, r, ManagerModel.Free(m, r))
  {
    if r in m.tables {
      TableHeld(m, r);
      PP.FreeAllCorrect(m.pool, m.tables[r]);
    } else {
      assert m.tables - {r} == m.tables;
    }
  }

  // ---------- caching ----------

  /** Block i of r's table is full now, was not at the last count, and has a hash. */
  ghost predicate NewlyFull(c: Config, m: Manager, r: RequestId, numComputed: nat, i: nat)
    requires c.blockSize > 0
  {
    && r in m.tables && r in m.hashes && i < |m.tables[r]| && i < |m.hashes[r]|
    && (if r in m.computed then m.computed[r] else 0) / c.blockSize <= i < numComputed / c.blockSize
  }

  /** Exactly the blocks that have become full take the label that their request expects of them. */
  ghost predicate Cached(c: Config, m: Manager, r: RequestId, numComputed: nat, m': Manager)
    requires c.blockSize > 0
  {
    if !c.caching || r !in m.tables || r !in m.hashes then m' == m
    else
      && m'.tables == m.tables && m'.hashes == m.hashes && m'.computed == m.computed[r := numComputed]
      && m'.pool.refs == m.pool.refs && m'.pool.free == m.pool.free && |m'.pool.labels| == |m.pool.labels|
      && (forall i: nat :: NewlyFull(c, m, r, numComputed, i) ==>
        m.tables[r][i] < |m'.pool.labels| && m'.pool.labels[m.tables[r][i]] == Some(m.hashes[r][i]))
      && (forall b: BlockId :: b < |m.pool.labels| && m'.pool.labels[b] != m.pool.labels[b] ==>
        exists i: nat :: NewlyFull(c, m, r, numComputed, i) && m.tables[r][i] == b)
  }

  lemma NewlyFullRange(c: Config, m: Manager, r: RequestId, numComputed: nat, lo: nat, hi: nat)
    requires c.blockSize > 0 && r in m.tables && r in m.hashes
    requires lo == ComputedTokens(m, r) / c.blockSize && hi == Min(numComputed / c.blockSize, |m.hashes[r]|)
    ensures forall i: nat :: NewlyFull(c, m, r, numComputed, i) <==> lo <= i < hi && i < |m.tables[r]|
  {
  }

  lemma RelabelledExact(c: Config, m: Manager, r: RequestId, numComputed: nat, lo: nat, hi: nat, p': PM.Pool)
    requires c.blockSize > 0 && WellFormed(m) && r in m.tables && r in m.hashes && hi <= |m.hashes[r]|
    requires forall i: nat :: NewlyFull(c, m, r, numComputed, i) <==> lo <= i < hi && i < |m.tables[r]|
    requires Relabelled(m.pool, p', m.tables[r], m.hashes[r], lo, hi)
    ensures forall i: nat :: NewlyFull(c, m, r, numComputed, i) ==>
      m.tables[r][i] < |p'.labels| && p'.labels[m.tables[r][i]] == Some(m.hashes[r][i])
    ensures forall b: BlockId :: b < |m.pool.labels| && p'.labels[b] != m.pool.labels[b] ==>
      exists i: nat :: NewlyFull(c, m, r, numComputed, i) && m.tables[r][i] == b
  {
    TableInRange(m, r);
    forall b: BlockId | b < |m.pool.labels| && p'.labels[b] != m.pool.labels[b]
      ensures exists i: nat :: NewlyFull(c, m, r, numComputed, i) && m.tables[r][i] == b
    {
      assert WrittenBy(p', m.tables[r], m.hashes[r], lo, hi, b);
      var i: nat :| lo <= i < hi && i < |m.tables[r]| && m.tables[r][i] == b;
      assert NewlyFull(c, m, r, numComputed, i);
    }
  }

  lemma CacheExact(c: Config, m: Manager, r: RequestId, numComputed: nat)
    requires c.blockSize > 0 && Inv(m)
    ensures Cached(c, m, r, numComputed, CacheBlocks(c, m, r, numComputed))
  {
    if c.caching && r in m.tables && r in m.hashes {
      TableConsistent(m, r);
      var lo, hi := ComputedTokens(m, r) / c.blockSize, Min(numComputed / c.blockSize, |m.hashes[r]|);
      CacheRangeCorrect(m.pool, m.tables[r], m.hashes[r], lo, hi);
      NewlyFullRange(c, m, r, numComputed, lo, hi);
      RelabelledExact(c, m, r, numComputed, lo, hi, CacheRange(m.pool, m.tables[r], m.hashes[r], lo, hi));
    }
  }

  // ---------- fork ----------

  /** The child gets the parent's table, count and hashes, and each entry gains a reference. */
  ghost predicate Forked(m: Manager, parent: RequestId, child: RequestId, m': Manager, ok: bool) {
    && (ok <==> parent in m.tables)
    && (!ok ==> m' == m)
    && (ok ==>
      && m'.tables == m.tables[child := m.tables[parent]]
      && m'.computed == (if parent in m.computed then m.computed[child := m.computed[parent]] else m.computed)
      && m'.hashes == (if parent in m.hashes then m.hashes[child := m.hashes[parent]] else m.hashes)
      && PP.Increffed(m.pool, m'.pool, m.tables[parent]))
  }

  lemma ForkExact(m: Manager, parent: RequestId, child: RequestId)
    requires Inv(m)
    ensures Forked(m, parent, child, Fork(m, parent, child).0, Fork(m, parent, child).1)
  {
    if parent in m.tables {
      TableActive(m, parent);
      TableInRange(m, parent);
      PP.IncrefAllCorrect(m.pool, m.tables[parent]);
    }
  }
}
