/** The cache manager: per-request tables over the block pool. Each method refines `ManagerModel`. */
module KVCacheManagers {
  import opened Wrappers
  import opened Sequences
  import opened CacheTypes
  import opened Prefix
  import opened ManagerModel
  import opened ManagerInvariant
  import opened ManagerContracts
  import opened BlockPools
  import PM = PoolModel
  import PP = PoolProperties

  datatype PrefixCacheResult = PrefixCacheResult(cachedBlockIds: seq<BlockId>, numComputedTokens: nat)

  datatype CacheUsage = CacheUsage(
    numTotalBlocks: nat, numActiveBlocks: nat, numFreeBlocks: nat, numCachedHashes: nat, numTrackedRequests: nat)

  // Where each loop over the pool stands after i turns, and what one more turn does.

  /** The hits of all hashes are the ids so far and the hits still to come. */
  ghost predicate HitsSoFar(p: PM.Pool, hs: seq<BlockHash>, i: nat, cur: PM.Pool, ids: seq<BlockId>) {
    && i <= |hs| && PM.Valid(p) && PM.Valid(cur)
    && PM.LookupHits(p, hs).0 == PM.LookupHits(cur, hs[i..]).0
    && PM.LookupHits(p, hs).1 == ids + PM.LookupHits(cur, hs[i..]).1
  }

  lemma HitTurn(p: PM.Pool, hs: seq<BlockHash>, i: nat, cur: PM.Pool, ids: seq<BlockId>)
    requires HitsSoFar(p, hs, i, cur, ids)
    ensures i < |hs| ==> match PM.GetCached(cur, hs[i]).1
      case None => PM.LookupHits(p, hs) == (PM.GetCached(cur, hs[i]).0, ids)
      case Some(id) => HitsSoFar(p, hs, i + 1, PM.GetCached(cur, hs[i]).0, ids + [id])
    ensures i == |hs| ==> PM.LookupHits(p, hs) == (cur, ids)
  {
    if i < |hs| {
      var (p1, b) := PM.GetCached(cur, hs[i]);
      assert hs[i..][0] == hs[i] && hs[i..][1..] == hs[i + 1..];
      Regroup(ids, if b.Some? then b.value else 0, PM.LookupHits(p1, hs[i + 1..]).1);
    } else {
      assert hs[i..] == [] && ids + [] == ids;
    }
  }

  lemma Regroup<T>(a: seq<T>, x: T, b: seq<T>)
    ensures a + ([x] + b) == (a + [x]) + b
    ensures a + [] == a
  {
  }

  ghost predicate TakenSoFar(p: PM.Pool, n: nat, i: nat, cur: PM.Pool, ids: seq<BlockId>) {
    && i <= n && |ids| == i && PM.Valid(p) && PM.Valid(cur)
    && PM.AllocateUpTo(p, n).0 == PM.AllocateUpTo(cur, n - i).0
    && PM.AllocateUpTo(p, n).1 == ids + PM.AllocateUpTo(cur, n - i).1
  }

  lemma TakeTurn(p: PM.Pool, n: nat, i: nat, cur: PM.Pool, ids: seq<BlockId>)
    requires TakenSoFar(p, n, i, cur, ids)
    ensures i < n ==> match PM.Allocate(cur).1
      case None =>
        PP.Held(PM.Allocate(cur).0, ids)
        && PM.AllocateAll(p, n) == (PM.FreeAll(PM.Allocate(cur).0, ids), None)
      case Some(id) => TakenSoFar(p, n, i + 1, PM.Allocate(cur).0, ids + [id])
    ensures i == n ==> PM.AllocateAll(p, n) == (cur, Some(ids))
  {
    if i < n {
      var (p1, b) := PM.Allocate(cur);
      PP.AllocateValid(cur);
      match b {
        case None =>
          assert ids + [] == ids;
          PP.AllocateUpToCorrect(p, n);
        case Some(id) =>
          Regroup(ids, id, PM.AllocateUpTo(p1, n - i - 1).1);
      }
    } else {
      assert ids + [] == ids;
    }
  }

  ghost predicate FreedSoFar(p: PM.Pool, all: seq<BlockId>, i: nat, cur: PM.Pool) {
    && i <= |all| && PM.Shape(p) && PM.Shape(cur) && |cur.refs| == |p.refs|
    && (forall k :: 0 <= k < |all| ==> all[k] < |p.refs|)
    && PM.FreeAll(p, all) == PM.FreeAll(cur, all[i..])
  }

  lemma FreeTurn(p: PM.Pool, all: seq<BlockId>, i: nat, cur: PM.Pool)
    requires FreedSoFar(p, all, i, cur)
    ensures i < |all| ==> all[i] < |cur.refs| && FreedSoFar(p, all, i + 1, PM.Free(cur, all[i]))
    ensures i == |all| ==> PM.FreeAll(p, all) == cur
  {
    if i < |all| {
      assert all[i..][0] == all[i] && all[i..][1..] == all[i + 1..];
    }
  }

  ghost predicate IncreffedSoFar(p: PM.Pool, all: seq<BlockId>, i: nat, cur: PM.Pool) {
    && i <= |all| && PM.Shape(p) && PM.Shape(cur) && |cur.refs| == |p.refs|
    && (forall k :: 0 <= k < |all| ==> all[k] < |p.refs|)
    && PM.IncrefAll(p, all) == PM.IncrefAll(cur, all[i..])
  }

  lemma IncrefTurn(p: PM.Pool, all: seq<BlockId>, i: nat, cur: PM.Pool)
    requires IncreffedSoFar(p, all, i, cur)
    ensures i < |all| ==> all[i] < |cur.refs| && IncreffedSoFar(p, all, i + 1, PM.Incref(cur, all[i]))
    ensures i == |all| ==> PM.IncrefAll(p, all) == cur
  {
    if i < |all| {
      assert all[i..][0] == all[i] && all[i..][1..] == all[i + 1..];
    }
  }

  /** Entry i of the table, if there is one, can take its label. */
  ghost predicate Labellable(cur: PM.Pool, table: seq<BlockId>, hs: seq<BlockHash>, i: nat) {
    && PM.Shape(cur) && i < |hs|
    && (i < |table| ==> table[i] < |cur.refs| && cur.labels[table[i]] in {None, Some(hs[i])})
  }

  ghost function EntryLabelled(cur: PM.Pool, table: seq<BlockId>, hs: seq<BlockHash>, i: nat): PM.Pool
    requires Labellable(cur, table, hs, i)
  {
    if i < |table| then PM.CacheBlock(cur, table[i], hs[i]) else cur
  }

  ghost predicate LabelledSoFar(p: PM.Pool, table: seq<BlockId>, hs: seq<BlockHash>, lo: nat, hi: nat, i: nat,
    cur: PM.Pool)
  {
    && lo <= i && hi <= |hs|
    && PM.Valid(p) && Consistent(p, table, hs) && PM.Valid(cur) && Consistent(cur, table, hs)
    && CacheRange(p, table, hs, lo, hi) == CacheRange(cur, table, hs, i, hi)
  }

  lemma LabelTurn(p: PM.Pool, table: seq<BlockId>, hs: seq<BlockHash>, lo: nat, hi: nat, i: nat, cur: PM.Pool)
    requires LabelledSoFar(p, table, hs, lo, hi, i, cur)
    ensures i < hi ==>
      Labellable(cur, table, hs, i) && LabelledSoFar(p, table, hs, lo, hi, i + 1, EntryLabelled(cur, table, hs, i))
    ensures i >= hi ==> CacheRange(p, table, hs, lo, hi) == cur
  {
    if i < hi && i < |table| {
      CacheStepConsistent(cur, table, hs, i);
      assert At(hs, i) == Some(hs[i]);
    }
  }

  /** Which entries caching labels. */
  lemma CacheLabels(c: Config, m: Manager, r: RequestId, n: nat, lo: nat, hi: nat)
    requires c.blockSize > 0 && c.caching && Inv(m) && r in m.tables && r in m.hashes
    requires lo == ComputedTokens(m, r) / c.blockSize && hi == Min(n / c.blockSize, |m.hashes[r]|)
    ensures Consistent(m.pool, m.tables[r], m.hashes[r])
    ensures ManagerModel.CacheBlocks(c, m, r, n) ==
      Manager(CacheRange(m.pool, m.tables[r], m.hashes[r], lo, hi), m.tables, m.computed[r := n], m.hashes)
  {
    TableConsistent(m, r);
  }

  class KVCacheManager {
    const blockPool: BlockPool
    const blockSize: nat
    const enablePrefixCaching: bool
    const hasher: Hasher
    var requestBlocks: map<RequestId, seq<BlockId>>
    var requestComputedTokens: map<RequestId, nat>
    var requestBlockHashes: map<RequestId, seq<BlockHash>>

    ghost function Cfg(): Config {
      Config(blockSize, enablePrefixCaching, hasher)
    }

    ghost function Abs(): Manager
      reads this, blockPool, blockPool.blocks, blockPool.freeQueue
    {
      Manager(blockPool.Abs(), requestBlocks, requestComputedTokens, requestBlockHashes)
    }

    /** The pool is valid and the tables name its blocks: what is left of the invariant when a table is overwritten. */
    ghost predicate Usable()
      reads this, blockPool, blockPool.blocks, blockPool.freeQueue
    {
      blockSize > 0 && blockPool.Valid() && WellFormed(Abs())
    }

    ghost predicate Valid()
      reads this, blockPool, blockPool.blocks, blockPool.freeQueue
    {
      Usable() && Inv(Abs())
    }

    constructor (numBlocks: nat, blockSize: nat, enablePrefixCaching: bool, hasher: Hasher)
      requires blockSize > 0
      ensures Valid() && Abs() == New(numBlocks)
      ensures Cfg() == Config(blockSize, enablePrefixCaching, hasher)
      ensures requestBlocks == map[] && requestComputedTokens == map[] && requestBlockHashes == map[]
      ensures fresh(blockPool) && fresh(blockPool.blocks) && fresh(blockPool.freeQueue)
    {
      NewInv(numBlocks);
      this.blockPool := new BlockPool(numBlocks);
      this.blockSize, this.enablePrefixCaching, this.hasher := blockSize, enablePrefixCaching, hasher;
      requestBlocks, requestComputedTokens, requestBlockHashes := map[], map[], map[];
    }

    method HitBlocks(hashes: seq<BlockHash>) returns (ids: seq<BlockId>)
      requires blockPool.Valid()
      modifies blockPool, blockPool.blocks, blockPool.freeQueue
      ensures blockPool.Valid()
      ensures blockPool.Abs() == PM.LookupHits(old(blockPool.Abs()), hashes).0
      ensures ids == PM.LookupHits(old(blockPool.Abs()), hashes).1
    {
      ghost var p := blockPool.Abs();
      ids := [];
      for i := 0 to |hashes|
        invariant blockPool.Valid() && HitsSoFar(p, hashes, i, blockPool.Abs(), ids)
      {
        HitTurn(p, hashes, i, blockPool.Abs(), ids);
        var hit := blockPool.GetCachedBlock(hashes[i]);
        match hit {
          case Some(blockId) => ids := ids + [blockId];
          case None => return;
        }
      }
      HitTurn(p, hashes, |hashes|, blockPool.Abs(), ids);
    }

    /** Takes the hits of these hashes and records them, with their token count and the hashes, for the request. */
    method RecordHits(requestId: RequestId, hashes: seq<BlockHash>) returns (r: PrefixCacheResult)
      requires blockPool.Valid()
      modifies this, blockPool, blockPool.blocks, blockPool.freeQueue
      ensures blockPool.Valid()
      ensures r.numComputedTokens == |r.cachedBlockIds| * blockSize
      ensures r.cachedBlockIds == PM.LookupHits(old(blockPool.Abs()), hashes).1
      ensures Abs() == Manager(
        PM.LookupHits(old(blockPool.Abs()), hashes).0,
        old(requestBlocks)[requestId := r.cachedBlockIds],
        old(requestComputedTokens)[requestId := r.numComputedTokens],
        old(requestBlockHashes)[requestId := hashes])
    {
      var cachedBlockIds := HitBlocks(hashes);
      var numComputedTokens := TokensIn(|cachedBlockIds|, blockSize);
      requestBlockHashes := requestBlockHashes[requestId := hashes];
      requestComputedTokens := requestComputedTokens[requestId := numComputedTokens];
      requestBlocks := requestBlocks[requestId := cachedBlockIds];
      return PrefixCacheResult(cachedBlockIds, numComputedTokens);
    }

    /** Overwriting a non-empty table is possible and leaks it; otherwise the invariant is kept. */
    method GetComputedBlocks(requestId: RequestId, promptTokens: seq<Token>, skipPrefixCache: bool)
      returns (r: PrefixCacheResult)
      requires Valid()
      modifies this, blockPool, blockPool.blocks, blockPool.freeQueue
      ensures Abs() == Lookup(Cfg(), old(Abs()), requestId, promptTokens, skipPrefixCache).0
      ensures Usable()
      ensures LookupSkipped(Cfg(), promptTokens, skipPrefixCache) || TableOf(old(Abs()), requestId) == [] ==> Valid()
      ensures r.cachedBlockIds == Lookup(Cfg(), old(Abs()), requestId, promptTokens, skipPrefixCache).1
      ensures r.numComputedTokens == |r.cachedBlockIds| * blockSize
      ensures !enablePrefixCaching || skipPrefixCache || promptTokens == [] ==>
        r == PrefixCacheResult([], 0) && Abs() == old(Abs())
      ensures enablePrefixCaching && !skipPrefixCache && promptTokens != [] ==>
        LookedUp(Cfg(), old(Abs()), requestId, promptTokens, Abs(), r.cachedBlockIds)
    {
      ghost var m := Abs();
      if !enablePrefixCaching || skipPrefixCache || promptTokens == [] {
        return PrefixCacheResult([], 0);
      }
      var hashes := ComputeBlockHashes(hasher, promptTokens, blockSize, None);
      r := RecordHits(requestId, hashes);
      assert (Abs(), r.cachedBlockIds) == Lookup(Cfg(), m, requestId, promptTokens, skipPrefixCache);
      LookupExact(Cfg(), m, requestId, promptTokens, skipPrefixCache);
      LookupUsable(Cfg(), m, requestId, promptTokens, skipPrefixCache);
    }

    method FreeBlocks(ids: seq<BlockId>)
      requires blockPool.Valid() && PP.Held(blockPool.Abs(), ids)
      modifies blockPool, blockPool.blocks, blockPool.freeQueue
      ensures blockPool.Valid()
      ensures blockPool.Abs() == PM.FreeAll(old(blockPool.Abs()), ids)
    {
      ghost var p := blockPool.Abs();
      for i := 0 to |ids|
        invariant blockPool.Valid() && FreedSoFar(p, ids, i, blockPool.Abs())
      {
        FreeTurn(p, ids, i, blockPool.Abs());
        blockPool.Free(ids[i]);
      }
      FreeTurn(p, ids, |ids|, blockPool.Abs());
    }

    /** All or nothing: on a shortfall the blocks taken so far go back in the order they were taken. */
    method TakeBlocks(n: nat) returns (r: Option<seq<BlockId>>)
      requires blockPool.Valid()
      modifies blockPool, blockPool.blocks, blockPool.freeQueue
      ensures blockPool.Valid()
      ensures blockPool.Abs() == PM.AllocateAll(old(blockPool.Abs()), n).0
      ensures r == PM.AllocateAll(old(blockPool.Abs()), n).1
    {
      ghost var p := blockPool.Abs();
      var newBlocks := [];
      for i := 0 to n
        invariant blockPool.Valid() && TakenSoFar(p, n, i, blockPool.Abs(), newBlocks)
      {
        TakeTurn(p, n, i, blockPool.Abs(), newBlocks);
        var blockId := blockPool.Allocate();
        match blockId {
          case Some(id) => newBlocks := newBlocks + [id];
          case None =>
            FreeBlocks(newBlocks);
            return None;
        }
      }
      TakeTurn(p, n, n, blockPool.Abs(), newBlocks);
      return Some(newBlocks);
    }

    method AllocateSlots(requestId: RequestId, numTokens: nat, numComputed: nat) returns (r: Option<seq<BlockId>>)
      requires Valid()
      modifies this, blockPool, blockPool.blocks, blockPool.freeQueue
      ensures Abs() == ManagerModel.AllocateSlots(Cfg(), old(Abs()), requestId, numTokens, numComputed).0
      ensures Valid()
      ensures r == ManagerModel.AllocateSlots(Cfg(), old(Abs()), requestId, numTokens, numComputed).1
      ensures Allocated(Cfg(), old(Abs()), requestId, numTokens, numComputed, Abs(), r)
    {
      ghost var m := Abs();
      AllocateCounts(Cfg(), m, requestId, numTokens, numComputed);
      var tokensNeeded := if numTokens <= numComputed then 0 else numTokens - numComputed;
      if tokensNeeded == 0 {
        return Some([]);
      }
      var numNewBlocks := CeilDiv(tokensNeeded, blockSize);
      r := TakeBlocks(numNewBlocks);
      match r {
        case None =>
        case Some(newBlocks) =>
          var table := if requestId in requestBlocks then requestBlocks[requestId] else [];
          requestBlocks := requestBlocks[requestId := table + newBlocks];
      }
      assert Abs() == ManagerModel.AllocateSlots(Cfg(), m, requestId, numTokens, numComputed).0;
      AllocateInv(Cfg(), m, requestId, numTokens, numComputed);
    }

    method Free(requestId: RequestId)
      requires Valid()
      modifies this, blockPool, blockPool.blocks, blockPool.freeQueue
      ensures Valid()
      ensures Abs() == ManagerModel.Free(old(Abs()), requestId)
      ensures Freed(old(Abs()), requestId, Abs())
    {
      ghost var m := Abs();
      FreeExact(m, requestId);
      if requestId in requestBlocks {
        TableHeld(m, requestId);
        var blocks := requestBlocks[requestId];
        requestBlocks := requestBlocks - {requestId};
        FreeBlocks(blocks);
      }
      requestComputedTokens := requestComputedTokens - {requestId};
      requestBlockHashes := requestBlockHashes - {requestId};
      assert Abs() == ManagerModel.Free(m, requestId);
      FreeInv(m, requestId);
    }

    /** Labels entry i of the table, as far as the table reaches. */
    method LabelEntry(table: seq<BlockId>, hashes: seq<BlockHash>, i: nat)
      requires blockPool.Valid() && Labellable(blockPool.Abs(), table, hashes, i)
      modifies blockPool, blockPool.blocks, blockPool.freeQueue
      ensures blockPool.Valid()
      ensures blockPool.Abs() == EntryLabelled(old(blockPool.Abs()), table, hashes, i)
    {
      if i < |table| {
        blockPool.CacheBlock(table[i], hashes[i]);
      }
    }

    method LabelBlocks(table: seq<BlockId>, hashes: seq<BlockHash>, lo: nat, hi: nat)
      requires blockPool.Valid() && Consistent(blockPool.Abs(), table, hashes) && hi <= |hashes|
      modifies blockPool, blockPool.blocks, blockPool.freeQueue
      ensures blockPool.Valid()
      ensures blockPool.Abs() == CacheRange(old(blockPool.Abs()), table, hashes, lo, hi)
    {
      ghost var p := blockPool.Abs();
      var i := lo;
      while i < hi
        invariant blockPool.Valid() && LabelledSoFar(p, table, hashes, lo, hi, i, blockPool.Abs())
      {
        LabelTurn(p, table, hashes, lo, hi, i, blockPool.Abs());
        LabelEntry(table, hashes, i);
        i := i + 1;
      }
      LabelTurn(p, table, hashes, lo, hi, i, blockPool.Abs());
    }

    method CacheBlocks(requestId: RequestId, numComputedTokens: nat)
      requires Valid()
      modifies this, blockPool, blockPool.blocks, blockPool.freeQueue
      ensures Abs() == ManagerModel.CacheBlocks(Cfg(), old(Abs()), requestId, numComputedTokens)
      ensures Cached(Cfg(), old(Abs()), requestId, numComputedTokens, Abs())
      ensures Valid()
    {
      ghost var m := Abs();
      if !enablePrefixCaching {
        return;
      }
      var numFullBlocks := numComputedTokens / blockSize;
      if requestId !in requestBlocks || requestId !in requestBlockHashes {
        return;
      }
      var blockTable, hashes := requestBlocks[requestId], requestBlockHashes[requestId];
      var existingCached := if requestId in requestComputedTokens then requestComputedTokens[requestId] else 0;
      var alreadyCachedBlocks := existingCached / blockSize;
      CacheLabels(Cfg(), m, requestId, numComputedTokens, alreadyCachedBlocks, Min(numFullBlocks, |hashes|));
      LabelBlocks(blockTable, hashes, alreadyCachedBlocks, Min(numFullBlocks, |hashes|));
      requestComputedTokens := requestComputedTokens[requestId := numComputedTokens];
      assert Abs() == ManagerModel.CacheBlocks(Cfg(), m, requestId, numComputedTokens);
      CacheExact(Cfg(), m, requestId, numComputedTokens);
      CacheInv(Cfg(), m, requestId, numComputedTokens);
    }

    method IncrefBlocks(ids: seq<BlockId>)
      requires blockPool.Valid() && PP.AllActive(blockPool.Abs(), ids)
      modifies blockPool, blockPool.blocks, blockPool.freeQueue
      ensures blockPool.Valid()
      ensures blockPool.Abs() == PM.IncrefAll(old(blockPool.Abs()), ids)
    {
      ghost var p := blockPool.Abs();
      for i := 0 to |ids|
        invariant blockPool.Valid() && IncreffedSoFar(p, ids, i, blockPool.Abs())
      {
        IncrefTurn(p, ids, i, blockPool.Abs());
        blockPool.Incref(ids[i]);
      }
      IncrefTurn(p, ids, |ids|, blockPool.Abs());
    }

    /** Overwriting a tracked child is possible and leaks its table; otherwise the invariant is kept. */
    method ForkBlocks(parentId: RequestId, childId: RequestId) returns (ok: bool)
      requires Valid()
      modifies this, blockPool, blockPool.blocks, blockPool.freeQueue
      ensures Usable()
      ensures (parentId in old(Abs()).tables ==> childId !in old(Abs()).tables) ==> Valid()
      ensures Abs() == Fork(old(Abs()), parentId, childId).0
      ensures ok == Fork(old(Abs()), parentId, childId).1
      ensures Forked(old(Abs()), parentId, childId, Abs(), ok)
    {
      ghost var m := Abs();
      ForkExact(m, parentId, childId);
      ForkUsable(m, parentId, childId);
      if parentId !in requestBlocks {
        return false;
      }
      var parentBlocks := requestBlocks[parentId];
      TableActive(m, parentId);
      IncrefBlocks(parentBlocks);
      requestBlocks := requestBlocks[childId := parentBlocks];
      if parentId in requestComputedTokens {
        requestComputedTokens := requestComputedTokens[childId := requestComputedTokens[parentId]];
      }
      if parentId in requestBlockHashes {
        requestBlockHashes := requestBlockHashes[childId := requestBlockHashes[parentId]];
      }
      assert Abs() == Fork(m, parentId, childId).0;
      return true;
    }

    method ResetPrefixCache() returns (ok: bool)
      requires Valid()
      modifies this, blockPool, blockPool.blocks, blockPool.freeQueue
      ensures Valid()
      ensures Abs() == Reset(old(Abs())).0
      ensures ok == Reset(old(Abs())).1
      ensures ok <==> old(requestBlocks) == map[]
      ensures !ok ==> Abs() == old(Abs())
      ensures ok ==> var p := old(Abs()).pool;
        && Abs().pool.index == map[] && |Abs().pool.labels| == |p.labels|
        && (forall b :: 0 <= b < |p.labels| ==> Abs().pool.labels[b].None?)
        && Abs().pool.refs == p.refs && Abs().pool.free == p.free
      ensures Abs().tables == old(requestBlocks)
      ensures Abs().computed == old(requestComputedTokens) && Abs().hashes == old(requestBlockHashes)
    {
      ResetExact(Abs());
      if requestBlocks != map[] {
        return false;
      }
      ok := blockPool.ResetPrefixCache();
    }

    method Usage() returns (u: CacheUsage)
      requires Valid()
      ensures u.numTrackedRequests == |requestBlocks| && u.numCachedHashes == |Abs().pool.index|
      ensures u.numTotalBlocks == |Abs().pool.refs| - 1
      ensures u.numActiveBlocks + u.numFreeBlocks == u.numTotalBlocks
      ensures u.numActiveBlocks == |set b | b in PM.Usable(|Abs().pool.refs|) && b in AllRefs(requestBlocks)|
    {
      ghost var m := Abs();
      assert (set b | b in PM.Usable(|m.pool.refs|) && b in AllRefs(m.tables)) == PM.ActiveSet(m.pool);
      var pool := blockPool.Usage();
      u := CacheUsage(pool.numTotal, pool.numActive, pool.numFree, pool.numCached, |requestBlocks|);
    }
  }
}
