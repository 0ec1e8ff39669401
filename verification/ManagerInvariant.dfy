/**
 The invariant that ties tables, reference counts, labels and hash lists together, and the proof
 that every manager operation keeps it.
 */
module ManagerInvariant {
  import opened Wrappers
  import opened Sequences
  import opened CacheTypes
  import opened Prefix
  import opened ManagerModel
  import PM = PoolModel
  import PP = PoolProperties

  /** A block's reference count is the number of table entries that name it. */
  ghost predicate Conserved(m: Manager) {
    forall b :: 0 <= b < |m.pool.refs| ==> m.pool.refs[b] == AllRefs(m.tables)[b]
  }

  /** A labelled block at index i of a table carries the i-th hash of the request that owns the table. */
  ghost predicate LabelsFit(m: Manager)
    requires WellFormed(m)
  {
    forall r, i: nat :: IsPlace(m.tables, r, i) ==> FitsLabel(m, r, i)
  }

  ghost predicate FitsLabel(m: Manager, r: RequestId, i: nat)
    requires WellFormed(m) && IsPlace(m.tables, r, i)
  {
    m.pool.labels[m.tables[r][i]] in {None, HashAt(m.hashes, r, i)}
  }

  /** All holders of a block expect the same hash of it, or none. */
  ghost predicate HoldersAgree(m: Manager) {
    forall r, i: nat, r', j: nat | IsPlace(m.tables, r, i) && IsPlace(m.tables, r', j)
      && m.tables[r][i] == m.tables[r'][j] :: HashAt(m.hashes, r, i) == HashAt(m.hashes, r', j)
  }

  ghost predicate Inv(m: Manager) {
    && WellFormed(m)
    && Conserved(m)
    && m.computed.Keys <= m.tables.Keys
    && m.hashes.Keys <= m.tables.Keys
    && LabelsFit(m)
    && HoldersAgree(m)
  }

  // ---------- consequences of conservation ----------

  /** A held block is active. */
  lemma HeldBlockActive(m: Manager, r: RequestId, i: nat)
    requires Inv(m) && IsPlace(m.tables, r, i)
    ensures m.pool.refs[m.tables[r][i]] > 0
  {
    PlaceCounted(m.tables, r, i);
  }

  /** A block on the free list is in no table. */
  lemma HeldBlockNotFree(m: Manager, r: RequestId, i: nat)
    requires Inv(m) && IsPlace(m.tables, r, i)
    ensures m.tables[r][i] !in m.pool.free
  {
    HeldBlockActive(m, r, i);
  }

  /** A block reported unshared has a single holder, at a single index. */
  lemma UnsharedHasOneHolder(m: Manager, r: RequestId, i: nat, r': RequestId, j: nat)
    requires Inv(m) && IsPlace(m.tables, r, i) && IsPlace(m.tables, r', j)
    requires !PM.IsShared(m.pool, m.tables[r][i]) && m.tables[r][i] == m.tables[r'][j]
    ensures r == r' && i == j
  {
    if (r, i) != (r', j) {
      TwoPlacesCounted(m.tables, r, i, r', j);
    }
  }

  /** An active block is held by some request. */
  lemma ActiveBlockHeld(m: Manager, b: BlockId)
    requires Inv(m) && b < |m.pool.refs| && m.pool.refs[b] > 0
    ensures exists r, i: nat :: IsPlace(m.tables, r, i) && m.tables[r][i] == b
  {
    CountedPlace(m.tables, b);
  }

  // ---------- the initial state ----------

  lemma NewInv(numBlocks: nat)
    ensures Inv(New(numBlocks))
  {
  }

  // ---------- lookup ----------

  /** What a run of hits does to the pool. */
  ghost predicate TookHits(p: PM.Pool, hs: seq<BlockHash>, p': PM.Pool, ids: seq<BlockId>) {
    && PM.Valid(p')
    && |ids| == PrefixHit(hs, p.index.Keys)
    && (forall i :: 0 <= i < |ids| ==> PP.HeadOf(p, hs[i]) == Some(ids[i]))
    && PP.RefsPlus(p, p', ids)
    && p'.labels == p.labels
    && p'.index == p.index
  }

  lemma TookHitsNone(p: PM.Pool, hs: seq<BlockHash>)
    requires PM.Valid(p) && PrefixHit(hs, p.index.Keys) == 0
    ensures TookHits(p, hs, p, [])
  {
  }

  lemma TookHitsCons(p: PM.Pool, h: BlockHash, hs: seq<BlockHash>, p1: PM.Pool, p2: PM.Pool, b: BlockId,
    ids: seq<BlockId>)
    requires h in p.index && PP.HeadOf(p, h) == Some(b) && b < |p.refs|
    requires p1.refs == p.refs[b := p.refs[b] + 1] && p1.labels == p.labels && p1.index == p.index
    requires TookHits(p1, hs, p2, ids)
    ensures TookHits(p, [h] + hs, p2, [b] + ids)
  {
    PP.RefsPlusCons(p, p1, p2, b, ids);
    assert ([h] + hs)[1..] == hs;
    forall i | 0 <= i < |[b] + ids|
      ensures PP.HeadOf(p, ([h] + hs)[i]) == Some(([b] + ids)[i])
    {
      if i > 0 {
        assert PP.HeadOf(p1, hs[i - 1]) == Some(ids[i - 1]);
      }
    }
  }

  /**
   The hit loop, which moves and re-activates blocks as it goes, finds the blocks that the simple
   search of the index it started from finds, and leaves that index as it was.
   */
  lemma {:induction false} LookupRefinesSearch(p: PM.Pool, hs: seq<BlockHash>)
    requires PM.Valid(p)
    ensures TookHits(p, hs, PM.LookupHits(p, hs).0, PM.LookupHits(p, hs).1)
    decreases hs
  {
    if hs == [] || hs[0] !in p.index {
      TookHitsNone(p, hs);
      return;
    }
    var (p1, b) := PM.GetCached(p, hs[0]);
    assert PM.Listed(p.index, hs[0], p.index[hs[0]][0]);
    LookupRefinesSearch(p1, hs[1..]);
    var (p2, ids) := PM.LookupHits(p1, hs[1..]);
    assert hs == [hs[0]] + hs[1..];
    TookHitsCons(p, hs[0], hs[1..], p1, p2, b.value, ids);
  }

  /** A hit is labelled with the hash it was looked up by. */
  lemma HitLabelled(p: PM.Pool, hs: seq<BlockHash>, p': PM.Pool, ids: seq<BlockId>, i: nat)
    requires PM.Valid(p) && TookHits(p, hs, p', ids) && i < |ids|
    ensures 0 < ids[i] < |p.labels| && p.labels[ids[i]] == Some(hs[i])
  {
    assert PP.HeadOf(p, hs[i]) == Some(ids[i]);
    assert PM.Listed(p.index, hs[i], ids[i]);
  }

  lemma LookupWellFormed(m: Manager, r: RequestId, hs: seq<BlockHash>, pool: PM.Pool, ids: seq<BlockId>, m': Manager)
    requires Inv(m) && TookHits(m.pool, hs, pool, ids)
    requires m'.pool == pool && m'.tables == m.tables[r := ids]
    ensures WellFormed(m')
  {
    forall q, i: nat | IsPlace(m'.tables, q, i)
      ensures 0 < m'.tables[q][i] < |pool.refs|
    {
      if q == r {
        HitLabelled(m.pool, hs, pool, ids, i);
      } else {
        assert IsPlace(m.tables, q, i);
      }
    }
  }

  /** After a lookup a place is a labelled hit, or an old place with its old label and hash. */
  ghost predicate HitOrOld(m: Manager, r: RequestId, m': Manager, q: RequestId, i: nat)
    requires WellFormed(m) && WellFormed(m') && IsPlace(m'.tables, q, i)
  {
    var tag := m'.pool.labels[m'.tables[q][i]];
    if q == r then tag.Some? && tag == HashAt(m'.hashes, q, i)
    else IsPlace(m.tables, q, i) && FitsLabel(m, q, i) && tag == m.pool.labels[m.tables[q][i]]
  }

  lemma LookupHitOrOld(m: Manager, r: RequestId, hs: seq<BlockHash>, ids: seq<BlockId>, m': Manager,
    q: RequestId, i: nat)
    requires Inv(m) && TookHits(m.pool, hs, m'.pool, ids)
    requires m'.tables == m.tables[r := ids] && m'.hashes == m.hashes[r := hs]
    requires WellFormed(m') && IsPlace(m'.tables, q, i)
    ensures HitOrOld(m, r, m', q, i)
  {
    if q == r {
      HitLabelled(m.pool, hs, m'.pool, ids, i);
    } else {
      assert IsPlace(m.tables, q, i) && FitsLabel(m, q, i);
    }
  }

  lemma LookupFits(m: Manager, r: RequestId, hs: seq<BlockHash>, ids: seq<BlockId>, m': Manager)
    requires Inv(m) && TookHits(m.pool, hs, m'.pool, ids)
    requires m'.tables == m.tables[r := ids] && m'.hashes == m.hashes[r := hs]
    requires WellFormed(m')
    ensures LabelsFit(m') && HoldersAgree(m')
  {
    forall q, i: nat | IsPlace(m'.tables, q, i)
      ensures FitsLabel(m', q, i)
    {
      LookupHitOrOld(m, r, hs, ids, m', q, i);
    }
    forall q, i: nat, q', j: nat | IsPlace(m'.tables, q, i) && IsPlace(m'.tables, q', j)
      && m'.tables[q][i] == m'.tables[q'][j]
      ensures HashAt(m'.hashes, q, i) == HashAt(m'.hashes, q', j)
    {
      LookupHitOrOld(m, r, hs, ids, m', q, i);
      LookupHitOrOld(m, r, hs, ids, m', q', j);
    }
  }

  lemma LookupInv(c: Config, m: Manager, r: RequestId, tokens: seq<Token>, skip: bool)
    requires c.blockSize > 0 && Inv(m) && (LookupSkipped(c, tokens, skip) || TableOf(m, r) == [])
    ensures Inv(Lookup(c, m, r, tokens, skip).0)
  {
    if !LookupSkipped(c, tokens, skip) {
      var hs := PromptHashes(c, tokens);
      LookupRefinesSearch(m.pool, hs);
      var (pool, ids) := PM.LookupHits(m.pool, hs);
      var m' := Lookup(c, m, r, tokens, skip).0;
      AllRefsPutNew(m.tables, r, ids);
      LookupWellFormed(m, r, hs, pool, ids, m');
      LookupFits(m, r, hs, ids, m');
    }
  }

  /** A lookup leaves the tables naming real blocks even where it overwrites one. */
  lemma LookupUsable(c: Config, m: Manager, r: RequestId, tokens: seq<Token>, skip: bool)
    requires c.blockSize > 0 && Inv(m)
    ensures WellFormed(Lookup(c, m, r, tokens, skip).0)
    ensures LookupSkipped(c, tokens, skip) || TableOf(m, r) == [] ==> Inv(Lookup(c, m, r, tokens, skip).0)
  {
    if LookupSkipped(c, tokens, skip) || TableOf(m, r) == [] {
      LookupInv(c, m, r, tokens, skip);
    } else {
      var hs := PromptHashes(c, tokens);
      LookupRefinesSearch(m.pool, hs);
      var (pool, ids) := PM.LookupHits(m.pool, hs);
      LookupWellFormed(m, r, hs, pool, ids, Lookup(c, m, r, tokens, skip).0);
    }
  }

  // ---------- allocation ----------

  /** Fewer labels and the same places: the tables still fit. */
  lemma FewerLabelsFit(m: Manager, m': Manager)
    requires Inv(m) && WellFormed(m')
    requires m'.tables == m.tables && m'.hashes == m.hashes
    requires |m'.pool.labels| == |m.pool.labels|
    requires forall b :: 0 <= b < |m.pool.labels| ==> m'.pool.labels[b] in {None, m.pool.labels[b]}
    ensures LabelsFit(m') && HoldersAgree(m')
  {
    forall r, i: nat | IsPlace(m'.tables, r, i)
      ensures FitsLabel(m', r, i)
    {
      assert FitsLabel(m, r, i);
    }
  }

  /** The places of r's table after appending: old ones, or one of the new blocks. */
  lemma AppendedPlace(m: Manager, r: RequestId, ids: seq<BlockId>, q: RequestId, i: nat)
    requires Inv(m)
    requires IsPlace(m.tables[r := TableOf(m, r) + ids], q, i)
    ensures var b := m.tables[r := TableOf(m, r) + ids][q][i];
      if q == r && i >= |TableOf(m, r)| then b == ids[i - |TableOf(m, r)|]
      else IsPlace(m.tables, q, i) && b == m.tables[q][i] && m.pool.refs[b] > 0
  {
    if !(q == r && i >= |TableOf(m, r)|) {
      assert IsPlace(m.tables, q, i);
      HeldBlockActive(m, q, i);
    }
  }

  lemma AllocatedWellFormed(m: Manager, r: RequestId, ids: seq<BlockId>, m': Manager)
    requires Inv(m) && PM.Valid(m'.pool) && PP.TookAll(m.pool, m'.pool, ids)
    requires m'.tables == m.tables[r := TableOf(m, r) + ids]
    ensures WellFormed(m')
  {
    forall q, i: nat | IsPlace(m'.tables, q, i)
      ensures 0 < m'.tables[q][i] < |m'.pool.refs|
    {
      AppendedPlace(m, r, ids, q, i);
      if q == r && i >= |TableOf(m, r)| {
        assert ids[i - |TableOf(m, r)|] in m.pool.free;
      }
    }
  }

  lemma AllocatedFits(m: Manager, r: RequestId, ids: seq<BlockId>, m': Manager)
    requires Inv(m) && WellFormed(m') && PP.TookAll(m.pool, m'.pool, ids)
    requires m'.tables == m.tables[r := TableOf(m, r) + ids] && m'.hashes == m.hashes
    ensures LabelsFit(m')
  {
    forall q, i: nat | IsPlace(m'.tables, q, i)
      ensures FitsLabel(m', q, i)
    {
      AppendedPlace(m, r, ids, q, i);
      if !(q == r && i >= |TableOf(m, r)|) {
        assert FitsLabel(m, q, i);
      }
    }
  }

  lemma AllocatedAgree(m: Manager, r: RequestId, ids: seq<BlockId>, m': Manager)
    requires Inv(m) && PP.TookAll(m.pool, m'.pool, ids)
    requires m'.tables == m.tables[r := TableOf(m, r) + ids] && m'.hashes == m.hashes
    ensures HoldersAgree(m')
  {
    var n := |TableOf(m, r)|;
    forall q, i: nat, q', j: nat | IsPlace(m'.tables, q, i) && IsPlace(m'.tables, q', j)
      && m'.tables[q][i] == m'.tables[q'][j]
      ensures HashAt(m'.hashes, q, i) == HashAt(m'.hashes, q', j)
    {
      AppendedPlace(m, r, ids, q, i);
      AppendedPlace(m, r, ids, q', j);
      // A new block was free, so it is at no old place; new blocks are pairwise different.
      assert q == r && i >= n ==> ids[i - n] in m.pool.free;
      assert q' == r && j >= n ==> ids[j - n] in m.pool.free;
    }
  }

  lemma AllocatedInv(m: Manager, r: RequestId, ids: seq<BlockId>, m': Manager)
    requires Inv(m) && PM.Valid(m'.pool) && PP.TookAll(m.pool, m'.pool, ids)
    requires m'.tables == m.tables[r := TableOf(m, r) + ids]
    requires m'.computed == m.computed && m'.hashes == m.hashes
    ensures Inv(m')
  {
    AllRefsAppend(m.tables, r, TableOf(m, r), ids);
    AllocatedWellFormed(m, r, ids, m');
    AllocatedFits(m, r, ids, m');
    AllocatedAgree(m, r, ids, m');
  }

  lemma AllocateInv(c: Config, m: Manager, r: RequestId, numTokens: nat, numComputed: nat)
    requires c.blockSize > 0 && Inv(m)
    ensures Inv(AllocateSlots(c, m, r, numTokens, numComputed).0)
  {
    if numTokens > numComputed {
      var n := BlocksNeeded(c, numTokens, numComputed);
      PP.AllocateAllExact(m.pool, n);
      var m' := AllocateSlots(c, m, r, numTokens, numComputed).0;
      match PM.AllocateAll(m.pool, n).1
      case None =>
        FewerLabelsFit(m, m');
      case Some(ids) =>
        AllocatedInv(m, r, ids, m');
    }
  }

  // ---------- free ----------

  lemma TableHeld(m: Manager, r: RequestId)
    requires Inv(m) && r in m.tables
    ensures PP.Held(m.pool, m.tables[r])
    ensures AllRefs(m.tables) == multiset(m.tables[r]) + AllRefs(m.tables - {r})
  {
    TableInRange(m, r);
    AllRefsAt(m.tables, r);
  }

  /** Dropping a table keeps what holds of the places that remain. */
  lemma RemovedFits(m: Manager, r: RequestId, m': Manager)
    requires Inv(m) && PM.Valid(m'.pool)
    requires m'.pool.labels == m.pool.labels && |m'.pool.refs| == |m.pool.refs|
    requires m'.tables == m.tables - {r} && m'.hashes == m.hashes - {r}
    ensures WellFormed(m') && LabelsFit(m') && HoldersAgree(m')
  {
    forall q, i: nat | IsPlace(m'.tables, q, i)
      ensures IsPlace(m.tables, q, i) && q != r && 0 < m'.tables[q][i] < |m'.pool.refs|
    {
      assert IsPlace(m.tables, q, i);
    }
    forall q, i: nat | IsPlace(m'.tables, q, i)
      ensures FitsLabel(m', q, i)
    {
      assert FitsLabel(m, q, i);
    }
  }

  /** Freeing keeps every label. */
  lemma FreeKeepsLabels(m: Manager, r: RequestId)
    requires Inv(m)
    ensures Free(m, r).pool.labels == m.pool.labels
  {
    if r in m.tables {
      TableHeld(m, r);
      PP.FreeAllCorrect(m.pool, m.tables[r]);
    }
  }

  lemma FreeInv(m: Manager, r: RequestId)
    requires Inv(m)
    ensures Inv(Free(m, r))
  {
    if r in m.tables {
      TableHeld(m, r);
      PP.FreeAllCorrect(m.pool, m.tables[r]);
      RemovedFits(m, r, Free(m, r));
    } else {
      assert Free(m, r) == m;
    }
  }

  // ---------- caching ----------

  /** No labelled block of the table contradicts its hash, nor do two entries naming the same block. */
  ghost predicate Consistent(p: PM.Pool, table: seq<BlockId>, hs: seq<BlockHash>) {
    && (forall i :: 0 <= i < |table| ==> 0 < table[i] < |p.refs| && p.refs[table[i]] > 0)
    && |p.labels| == |p.refs|
    && (forall i :: 0 <= i < |table| ==> p.labels[table[i]] in {None, At(hs, i)})
    && (forall i, j :: 0 <= i < |table| && 0 <= j < |table| && table[i] == table[j] ==> At(hs, i) == At(hs, j))
  }

  /** Labels lo .. hi - 1 were written, each with its own hash, and nothing else changed. */
  ghost predicate Relabelled(p: PM.Pool, p': PM.Pool, table: seq<BlockId>, hs: seq<BlockHash>, lo: nat, hi: nat) {
    && PM.Valid(p')
    && p'.refs == p.refs && p'.free == p.free && p'.active == p.active
    && |p'.labels| == |p.labels|
    && (forall i :: lo <= i < hi && i < |table| && i < |hs| && table[i] < |p'.labels| ==>
      p'.labels[table[i]] == Some(hs[i]))
    && (forall b :: 0 <= b < |p.labels| ==> p'.labels[b] == p.labels[b] || WrittenBy(p', table, hs, lo, hi, b))
  }

  /** Some entry in lo .. hi - 1 names b, and its hash is b's label. */
  ghost predicate WrittenBy(p': PM.Pool, table: seq<BlockId>, hs: seq<BlockHash>, lo: nat, hi: nat, b: BlockId) {
    exists i :: lo <= i < hi && i < |table| && table[i] == b && b < |p'.labels| && p'.labels[b] == At(hs, i)
      && i < |hs|
  }

  lemma CacheStepConsistent(p: PM.Pool, table: seq<BlockId>, hs: seq<BlockHash>, lo: nat)
    requires PM.Valid(p) && Consistent(p, table, hs) && lo < |table| && lo < |hs|
    ensures PM.Valid(PM.CacheBlock(p, table[lo], hs[lo]))
    ensures Consistent(PM.CacheBlock(p, table[lo], hs[lo]), table, hs)
  {
    assert At(hs, lo) == Some(hs[lo]);
    PP.CacheBlockAgreesExactly(p, table[lo], hs[lo]);
  }

  lemma RelabelledCons(p: PM.Pool, p1: PM.Pool, p2: PM.Pool, table: seq<BlockId>, hs: seq<BlockHash>, lo: nat, hi: nat)
    requires PM.Valid(p) && Consistent(p1, table, hs) && lo < hi <= |hs| && lo < |table|
    requires table[lo] < |p.refs| && p1 == PM.CacheBlock(p, table[lo], hs[lo]) && p.refs[table[lo]] > 0
    requires table[lo] != 0
    requires Relabelled(p1, p2, table, hs, lo + 1, hi)
    ensures Relabelled(p, p2, table, hs, lo, hi)
  {
    var b0 := table[lo];
    assert p1.labels == p.labels[b0 := Some(hs[lo])];
    assert At(hs, lo) == Some(hs[lo]);
    forall b | 0 <= b < |p.labels| && p2.labels[b] != p.labels[b]
      ensures WrittenBy(p2, table, hs, lo, hi, b)
    {
      if p2.labels[b] != p1.labels[b] {
        var i :| lo + 1 <= i < hi && i < |table| && table[i] == b && p2.labels[b] == At(hs, i);
      } else {
        assert b == b0;
      }
    }
  }

  /** Every label that the caching loop writes is the first or the same for its block. */
  lemma {:induction false} CacheRangeCorrect(p: PM.Pool, table: seq<BlockId>, hs: seq<BlockHash>, lo: nat, hi: nat)
    requires PM.Valid(p) && Consistent(p, table, hs) && hi <= |hs|
    ensures Relabelled(p, CacheRange(p, table, hs, lo, hi), table, hs, lo, hi)
    decreases hi - lo
  {
    if lo < hi && lo < |table| {
      CacheStepConsistent(p, table, hs, lo);
      var p1 := PM.CacheBlock(p, table[lo], hs[lo]);
      CacheRangeCorrect(p1, table, hs, lo + 1, hi);
      RelabelledCons(p, p1, CacheRange(p1, table, hs, lo + 1, hi), table, hs, lo, hi);
    }
  }

  lemma TableConsistent(m: Manager, r: RequestId)
    requires Inv(m) && r in m.tables && r in m.hashes
    ensures Consistent(m.pool, m.tables[r], m.hashes[r])
  {
    var table, hs := m.tables[r], m.hashes[r];
    forall i | 0 <= i < |table|
      ensures 0 < table[i] < |m.pool.refs| && m.pool.refs[table[i]] > 0
      ensures m.pool.labels[table[i]] in {None, At(hs, i)}
    {
      assert IsPlace(m.tables, r, i);
      HeldBlockActive(m, r, i);
      assert FitsLabel(m, r, i) && HashAt(m.hashes, r, i) == At(hs, i);
    }
    forall i, j | 0 <= i < |table| && 0 <= j < |table| && table[i] == table[j]
      ensures At(hs, i) == At(hs, j)
    {
      assert IsPlace(m.tables, r, i) && IsPlace(m.tables, r, j);
      assert HashAt(m.hashes, r, i) == HashAt(m.hashes, r, j);
    }
  }

  lemma CachedFits(m: Manager, r: RequestId, lo: nat, hi: nat, m': Manager)
    requires Inv(m) && r in m.tables && r in m.hashes && WellFormed(m')
    requires m'.tables == m.tables && m'.hashes == m.hashes
    requires Relabelled(m.pool, m'.pool, m.tables[r], m.hashes[r], lo, hi)
    ensures LabelsFit(m') && HoldersAgree(m')
  {
    forall q, i: nat | IsPlace(m'.tables, q, i)
      ensures FitsLabel(m', q, i)
    {
      assert FitsLabel(m, q, i);
      var b := m.tables[q][i];
      if m'.pool.labels[b] != m.pool.labels[b] {
        assert WrittenBy(m'.pool, m.tables[r], m.hashes[r], lo, hi, b);
        var k :| lo <= k < hi && k < |m.tables[r]| && m.tables[r][k] == b && m'.pool.labels[b] == At(m.hashes[r], k);
        assert IsPlace(m.tables, r, k);
        assert HashAt(m.hashes, q, i) == HashAt(m.hashes, r, k);
      }
    }
  }

  lemma CacheInv(c: Config, m: Manager, r: RequestId, numComputed: nat)
    requires c.blockSize > 0 && Inv(m)
    ensures Inv(CacheBlocks(c, m, r, numComputed))
  {
    if c.caching && r in m.tables && r in m.hashes {
      TableConsistent(m, r);
      var lo, hi := ComputedTokens(m, r) / c.blockSize, Min(numComputed / c.blockSize, |m.hashes[r]|);
      CacheRangeCorrect(m.pool, m.tables[r], m.hashes[r], lo, hi);
      CachedFits(m, r, lo, hi, CacheBlocks(c, m, r, numComputed));
    }
  }

  // ---------- fork ----------

  lemma TableActive(m: Manager, r: RequestId)
    requires Inv(m) && r in m.tables
    ensures PP.AllActive(m.pool, m.tables[r])
  {
    forall i | 0 <= i < |m.tables[r]|
      ensures 0 < m.tables[r][i] < |m.pool.refs| && m.pool.refs[m.tables[r][i]] > 0
    {
      assert IsPlace(m.tables, r, i);
      HeldBlockActive(m, r, i);
    }
  }

  /** Each place after a fork stands for a place before it: the child's for the parent's. */
  lemma ForkedPlace(m: Manager, parent: RequestId, child: RequestId, q: RequestId, i: nat)
    requires Inv(m) && parent in m.tables && child !in m.tables
    requires IsPlace(m.tables[child := m.tables[parent]], q, i)
    ensures var q0 := if q == child then parent else q;
      && IsPlace(m.tables, q0, i)
      && m.tables[child := m.tables[parent]][q][i] == m.tables[q0][i]
      && HashAt(if parent in m.hashes then m.hashes[child := m.hashes[parent]] else m.hashes, q, i)
        == HashAt(m.hashes, q0, i)
  {
    assert child !in m.hashes;
  }

  lemma ForkFits(m: Manager, parent: RequestId, child: RequestId, m': Manager)
    requires Inv(m) && parent in m.tables && child !in m.tables && PM.Valid(m'.pool)
    requires m'.pool.labels == m.pool.labels && |m'.pool.refs| == |m.pool.refs|
    requires m'.tables == m.tables[child := m.tables[parent]]
    requires m'.hashes == if parent in m.hashes then m.hashes[child := m.hashes[parent]] else m.hashes
    ensures WellFormed(m') && LabelsFit(m') && HoldersAgree(m')
  {
    forall q, i: nat | IsPlace(m'.tables, q, i)
      ensures 0 < m'.tables[q][i] < |m'.pool.refs|
    {
      ForkedPlace(m, parent, child, q, i);
    }
    forall q, i: nat | IsPlace(m'.tables, q, i)
      ensures FitsLabel(m', q, i)
    {
      ForkedPlace(m, parent, child, q, i);
      assert FitsLabel(m, if q == child then parent else q, i);
    }
    forall q, i: nat, q', j: nat | IsPlace(m'.tables, q, i) && IsPlace(m'.tables, q', j)
      && m'.tables[q][i] == m'.tables[q'][j]
      ensures HashAt(m'.hashes, q, i) == HashAt(m'.hashes, q', j)
    {
      ForkedPlace(m, parent, child, q, i);
      ForkedPlace(m, parent, child, q', j);
      assert IsPlace(m.tables, if q == child then parent else q, i);
    }
  }

  lemma ForkInv(m: Manager, parent: RequestId, child: RequestId)
    requires Inv(m) && (parent in m.tables ==> child !in m.tables)
    ensures Inv(Fork(m, parent, child).0)
  {
    if parent in m.tables {
      TableActive(m, parent);
      TableInRange(m, parent);
      PP.IncrefAllCorrect(m.pool, m.tables[parent]);
      AllRefsPutNew(m.tables, child, m.tables[parent]);
      ForkFits(m, parent, child, Fork(m, parent, child).0);
    }
  }

  /** A fork keeps every label. */
  lemma ForkKeepsLabels(m: Manager, parent: RequestId, child: RequestId)
    requires Inv(m)
    ensures Fork(m, parent, child).0.pool.labels == m.pool.labels
  {
    if parent in m.tables {
      TableActive(m, parent);
      TableInRange(m, parent);
      PP.IncrefAllCorrect(m.pool, m.tables[parent]);
    }
  }

  /** A fork leaves the tables naming real blocks even where it overwrites one. */
  lemma ForkUsable(m: Manager, parent: RequestId, child: RequestId)
    requires Inv(m)
    ensures WellFormed(Fork(m, parent, child).0)
    ensures (parent in m.tables ==> child !in m.tables) ==> Inv(Fork(m, parent, child).0)
  {
    if parent !in m.tables || child !in m.tables {
      ForkInv(m, parent, child);
    } else {
      TableActive(m, parent);
      TableInRange(m, parent);
      PP.IncrefAllCorrect(m.pool, m.tables[parent]);
      var m' := Fork(m, parent, child).0;
      forall q, i: nat | IsPlace(m'.tables, q, i)
        ensures 0 < m'.tables[q][i] < |m'.pool.refs|
      {
        assert IsPlace(m.tables, if q == child then parent else q, i);
      }
    }
  }

  // ---------- reset ----------

  /** The reset succeeds exactly when no request is tracked, and then the cache is empty. */
  lemma ResetExact(m: Manager)
    requires Inv(m)
    ensures var (m', ok) := Reset(m);
      && Inv(m')
      && (ok <==> m.tables == map[])
      && (!ok ==> m' == m)
      && (ok ==> m'.pool.index == map[] && m'.pool.refs == m.pool.refs && m'.pool.free == m.pool.free)
  {
    if m.tables == map[] {
      PP.ResetExact(m.pool);
    }
  }
}
