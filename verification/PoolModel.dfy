/**
 The block pool as a mathematical value: a free sequence instead of links, and the
 reference counts, hash labels and hash index beside it. `BlockPool` refines it.
 */
module PoolModel {
  import opened Wrappers
  import opened Sequences
  import opened CacheTypes

  /** `free` runs from the head (most recently freed) to the tail (next to be evicted). */
  datatype Pool = Pool(
    free: seq<BlockId>,
    refs: seq<nat>,
    labels: seq<Option<BlockHash>>,
    index: map<BlockHash, seq<BlockId>>,
    active: nat)

  predicate Listed(index: map<BlockHash, seq<BlockId>>, h: BlockHash, b: BlockId) {
    h in index && b in index[h]
  }

  /** The free sequence holds exactly the non-null blocks without references, once each. */
  ghost predicate FreeExact(p: Pool) {
    && NoDup(p.free)
    && forall b {:trigger b in p.free} :: b in p.free <==> 1 <= b < |p.refs| && p.refs[b] == 0
  }

  ghost predicate Shape(p: Pool) {
    && |p.refs| == |p.labels| >= 1
    && FreeExact(p)
    && p.refs[NULL_BLOCK] == 0 && p.labels[NULL_BLOCK] == None
    && p.active + |p.free| + 1 == |p.refs|
  }

  /** An id is filed under h exactly when the block is labelled h, and no entry is empty. */
  ghost predicate IndexAgrees(p: Pool) {
    && (forall h: BlockHash, b: BlockId {:trigger Listed(p.index, h, b)} ::
      Listed(p.index, h, b) <==> b < |p.labels| && p.labels[b] == Some(h))
    && (forall h :: h in p.index ==> p.index[h] != [])
  }

  ghost predicate Valid(p: Pool) {
    Shape(p) && IndexAgrees(p)
  }

  // ---------- operations ----------

  /** 1, 2, ..., n - 1. */
  function FreshIds(n: nat): (ids: seq<BlockId>)
    requires n >= 1
    ensures |ids| == n - 1 && forall i :: 0 <= i < n - 1 ==> ids[i] == i + 1
    ensures forall b :: b in ids <==> 1 <= b < n
  {
    if n == 1 then [] else FreshIds(n - 1) + [n - 1]
  }

  /** A pool always has its null block, even when asked for none. */
  function New(numBlocks: nat): (p: Pool)
    ensures Valid(p)
  {
    var n := if numBlocks == 0 then 1 else numBlocks;
    Pool(FreshIds(n), seq(n, _ => 0), seq(n, _ => None), map[], 0)
  }

  predicate IsUncached(labels: seq<Option<BlockHash>>, b: BlockId) {
    b < |labels| && labels[b].None?
  }

  predicate IsCached(labels: seq<Option<BlockHash>>, b: BlockId) {
    b < |labels| && labels[b].Some?
  }

  function FirstUncached(free: seq<BlockId>, labels: seq<Option<BlockHash>>): (r: Option<BlockId>)
    ensures r.Some? ==> r.value in free && IsUncached(labels, r.value)
    ensures r.None? ==> forall b :: b in free ==> !IsUncached(labels, b)
  {
    if free == [] then None
    else if IsUncached(labels, free[0]) then Some(free[0])
    else FirstUncached(free[1..], labels)
  }

  function LastCached(free: seq<BlockId>, labels: seq<Option<BlockHash>>): (r: Option<BlockId>)
    ensures r.Some? ==> r.value in free && IsCached(labels, r.value)
    ensures r.None? ==> forall b :: b in free ==> !IsCached(labels, b)
  {
    if free == [] then None
    else
      var rest, last := free[..|free| - 1], free[|free| - 1];
      assert free == rest + [last];
      if IsCached(labels, last) then Some(last) else LastCached(rest, labels)
  }

  /** Removes id b from the entry of h, and the entry with its last id. */
  function Unlist(index: map<BlockHash, seq<BlockId>>, h: BlockHash, b: BlockId): map<BlockHash, seq<BlockId>> {
    if h !in index then index
    else
      var ids := Without(index[h], b);
      if ids == [] then index - {h} else index[h := ids]
  }

  /** The free block to hand out next: the first uncached one from the head, else the last cached one. */
  function Victim(p: Pool): (r: Option<BlockId>)
    requires Shape(p)
    ensures r.Some? ==> r.value in p.free
    ensures r.None? ==> p.free == []
  {
    match FirstUncached(p.free, p.labels)
    case Some(b) => Some(b)
    case None =>
      FirstIsMember(p.free);
      LastCached(p.free, p.labels)
  }

  /** The index once block b has lost its label, if it had one. */
  function Evict(index: map<BlockHash, seq<BlockId>>, tag: Option<BlockHash>, b: BlockId):
    map<BlockHash, seq<BlockId>>
  {
    match tag
    case Some(h) => Unlist(index, h, b)
    case None => index
  }

  function Allocate(p: Pool): (r: (Pool, Option<BlockId>))
    requires Shape(p)
    ensures Shape(r.0) && |r.0.refs| == |p.refs|
    ensures r.1.Some? ==> r.1.value in p.free
  {
    match Victim(p)
    case Some(b) =>
      WithoutMembers(p.free, b);
      WithoutNoDup(p.free, b);
      (Pool(Without(p.free, b), p.refs[b := 1], p.labels[b := None], Evict(p.index, p.labels[b], b), p.active + 1),
       Some(b))
    case None => (p, None)
  }

  function Free(p: Pool, b: BlockId): (p': Pool)
    requires Shape(p) && b < |p.refs|
    ensures Shape(p') && |p'.refs| == |p.refs|
  {
    if b == NULL_BLOCK || p.refs[b] == 0 then p
    else if p.refs[b] == 1 then
      ActivePositive(p, b);
      assert b !in p.free;
      p.(free := [b] + p.free, refs := p.refs[b := 0], active := p.active - 1)
    else p.(refs := p.refs[b := p.refs[b] - 1])
  }

  function Incref(p: Pool, b: BlockId): (p': Pool)
    requires Shape(p) && b < |p.refs|
    ensures Shape(p') && |p'.refs| == |p.refs|
  {
    if b == NULL_BLOCK || p.refs[b] == 0 then p else p.(refs := p.refs[b := p.refs[b] + 1])
  }

  predicate IsShared(p: Pool, b: BlockId) {
    0 < b < |p.refs| && p.refs[b] > 1
  }

  function CopyOnWrite(p: Pool, b: BlockId): (r: (Pool, Option<BlockId>))
    requires Shape(p)
    ensures Shape(r.0)
  {
    if !IsShared(p, b) then (p, Some(b))
    else
      var (p1, copy) := Allocate(p);
      if copy.None? then (p1, None) else (Free(p1, b), copy)
  }

  function Touch(p: Pool, b: BlockId): (p': Pool)
    requires Shape(p) && b < |p.refs|
    ensures Shape(p')
  {
    if b != NULL_BLOCK && p.refs[b] == 0 && p.labels[b].Some? then
      WithoutMembers(p.free, b);
      WithoutNoDup(p.free, b);
      p.(free := [b] + Without(p.free, b))
    else p
  }

  /** Takes one more reference; a free block leaves the free list for it. */
  function Reference(p: Pool, b: BlockId): (p': Pool)
    requires Shape(p) && 0 < b < |p.refs|
    ensures Shape(p')
  {
    if p.refs[b] == 0 then
      WithoutMembers(p.free, b);
      WithoutNoDup(p.free, b);
      assert b in p.free;
      p.(free := Without(p.free, b), refs := p.refs[b := 1], active := p.active + 1)
    else p.(refs := p.refs[b := p.refs[b] + 1])
  }

  function GetCached(p: Pool, h: BlockHash): (r: (Pool, Option<BlockId>))
    requires Valid(p)
    ensures Valid(r.0)
  {
    if h !in p.index then (p, None)
    else
      var b := p.index[h][0];
      assert Listed(p.index, h, b);
      (Reference(p, b), Some(b))
  }

  function CacheBlock(p: Pool, b: BlockId, h: BlockHash): (p': Pool)
    requires Shape(p) && b < |p.refs|
    ensures Shape(p') && |p'.refs| == |p.refs|
  {
    if b == NULL_BLOCK || p.refs[b] == 0 then p
    else
      p.(labels := p.labels[b := Some(h)],
         index := p.index[h := (if h in p.index then p.index[h] else []) + [b]])
  }

  /** Some active block is labelled. */
  predicate ActiveLabelled(p: Pool)
    requires Shape(p)
  {
    exists b :: 0 <= b < |p.refs| && p.labels[b].Some? && p.refs[b] > 0
  }

  function Reset(p: Pool): (r: (Pool, bool))
    requires Shape(p)
    ensures Shape(r.0)
  {
    if ActiveLabelled(p) then (p, false)
    else (p.(labels := seq(|p.labels|, _ => None), index := map[]), true)
  }

  // ---------- the manager's loops over the pool ----------

  /** Allocates until n ids are taken or the pool runs dry. */
  function AllocateUpTo(p: Pool, n: nat): (r: (Pool, seq<BlockId>))
    requires Shape(p)
    ensures Shape(r.0) && |r.0.refs| == |p.refs| && |r.1| <= n
    ensures forall i :: 0 <= i < |r.1| ==> r.1[i] < |p.refs|
    decreases n
  {
    if n == 0 then (p, [])
    else
      var (p1, b) := Allocate(p);
      if b.None? then (p1, [])
      else
        var (p2, ids) := AllocateUpTo(p1, n - 1);
        (p2, [b.value] + ids)
  }

  function FreeAll(p: Pool, ids: seq<BlockId>): (p': Pool)
    requires Shape(p)
    requires forall i :: 0 <= i < |ids| ==> ids[i] < |p.refs|
    ensures Shape(p') && |p'.refs| == |p.refs|
    decreases ids
  {
    if ids == [] then p else FreeAll(Free(p, ids[0]), ids[1..])
  }

  /** All or nothing: on a shortfall the blocks already taken are given back in the order they were taken. */
  function AllocateAll(p: Pool, n: nat): (r: (Pool, Option<seq<BlockId>>))
    requires Shape(p)
    ensures Shape(r.0)
  {
    var (p1, ids) := AllocateUpTo(p, n);
    if |ids| == n then (p1, Some(ids)) else (FreeAll(p1, ids), None)
  }

  function IncrefAll(p: Pool, ids: seq<BlockId>): (p': Pool)
    requires Shape(p)
    requires forall i :: 0 <= i < |ids| ==> ids[i] < |p.refs|
    ensures Shape(p') && |p'.refs| == |p.refs|
    decreases ids
  {
    if ids == [] then p else IncrefAll(Incref(p, ids[0]), ids[1..])
  }

  /** Takes a reference on the cached block of each leading hash, up to the first miss. */
  function LookupHits(p: Pool, hashes: seq<BlockHash>): (r: (Pool, seq<BlockId>))
    requires Valid(p)
    ensures Valid(r.0)
    decreases hashes
  {
    if hashes == [] then (p, [])
    else
      var (p1, b) := GetCached(p, hashes[0]);
      if b.None? then (p1, [])
      else
        var (p2, ids) := LookupHits(p1, hashes[1..]);
        (p2, [b.value] + ids)
  }

  // ---------- counting ----------

  /** The ids 1 .. n - 1. */
  function Usable(n: nat): (ids: set<BlockId>)
    requires n >= 1
    ensures forall b :: b in ids <==> 1 <= b < n
    ensures |ids| == n - 1
  {
    if n == 1 then {} else Usable(n - 1) + {n - 1}
  }

  function ActiveSet(p: Pool): set<BlockId>
    requires |p.refs| >= 1
  {
    set b | b in Usable(|p.refs|) && p.refs[b] > 0
  }

  /** The counter counts the blocks in use, and with the free list and the null block they are all blocks. */
  lemma ActiveCount(p: Pool)
    requires Shape(p)
    ensures p.active == |ActiveSet(p)|
    ensures |ActiveSet(p)| + |p.free| + 1 == |p.refs|
  {
    var all, free := Usable(|p.refs|), set b | b in p.free;
    NoDupCardinality(p.free);
    SubsetCardinality(free, all);
    assert all - free == ActiveSet(p);
  }

  lemma ActivePositive(p: Pool, b: BlockId)
    requires Shape(p) && 1 <= b < |p.refs| && p.refs[b] > 0
    ensures p.active > 0
  {
    ActiveCount(p);
    assert b in ActiveSet(p);
  }

  /** Equal reference counts leave the same blocks free, and equally many. */
  lemma SameRefsSameFree(p: Pool, p': Pool)
    requires Shape(p) && Shape(p') && p.refs == p'.refs
    ensures forall b :: b in p.free <==> b in p'.free
    ensures |p.free| == |p'.free| && p.active == p'.active
  {
    ActiveCount(p);
    ActiveCount(p');
  }
}
