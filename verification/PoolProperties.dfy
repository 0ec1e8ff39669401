/** What the pool operations promise: eviction order, index agreement, reference counting, rollback. */
module PoolProperties {
  import opened Wrappers
  import opened Sequences
  import opened CacheTypes
  import opened PoolModel

  // ---------- eviction policy ----------

  /** Position k holds the uncached block nearest the head. */
  ghost predicate FirstUncachedAt(free: seq<BlockId>, labels: seq<Option<BlockHash>>, k: nat) {
    && k < |free|
    && IsUncached(labels, free[k])
    && forall i :: 0 <= i < k ==> !IsUncached(labels, free[i])
  }

  lemma {:induction false} FirstUncachedIsNearestHead(free: seq<BlockId>, labels: seq<Option<BlockHash>>)
    returns (k: nat)
    ensures FirstUncached(free, labels).Some? ==>
      FirstUncachedAt(free, labels, k) && free[k] == FirstUncached(free, labels).value
  {
    k := 0;
    if free != [] && !IsUncached(labels, free[0]) {
      k := FirstUncachedIsNearestHead(free[1..], labels);
      k := k + 1;
    }
  }

  lemma UnlistListed(index: map<BlockHash, seq<BlockId>>, h: BlockHash, b: BlockId)
    ensures forall h', b' :: Listed(Unlist(index, h, b), h', b') <==>
      Listed(index, h', b') && !(h' == h && b' == b)
  {
    if h in index {
      WithoutMembers(index[h], b);
      var ids := Without(index[h], b);
      assert ids == [] ==> forall b' :: b' !in ids;
    }
  }

  /** The id that allocate picks: the uncached free block nearest the head, else the tail. */
  ghost predicate IsVictim(p: Pool, b: BlockId) {
    if exists c :: c in p.free && IsUncached(p.labels, c) then
      exists k: nat :: FirstUncachedAt(p.free, p.labels, k) && p.free[k] == b
    else
      p.free != [] && b == p.free[|p.free| - 1]
  }

  /**
   Allocation fails exactly on an empty free list; otherwise it takes the victim, and the
   only index membership that goes is the victim's own.
   */
  lemma EvictionPolicy(p: Pool)
    requires Valid(p)
    ensures var (p', r) := Allocate(p);
      && (r.None? <==> p.free == [])
      && (r.None? ==> p' == p)
      && (r.Some? ==> IsVictim(p, r.value))
      && (r.Some? && p.labels[r.value].None? ==> p'.index == p.index)
      && (forall h, b: BlockId :: Listed(p'.index, h, b) <==> Listed(p.index, h, b) && r != Some(b))
  {
    var k := FirstUncachedIsNearestHead(p.free, p.labels);
    match Victim(p)
    case Some(b) =>
      if p.labels[b].Some? {
        UnlistListed(p.index, p.labels[b].value, b);
        assert p.free[|p.free| - 1] in p.free;
      }
    case None =>
  }

  // ---------- index agreement ----------

  /** Labelling keeps the index and the labels in step exactly when it does not re-label an active block. */
  lemma CacheBlockAgreesExactly(p: Pool, b: BlockId, h: BlockHash)
    requires Valid(p) && b < |p.refs|
    ensures IndexAgrees(CacheBlock(p, b, h)) <==>
      p.refs[b] == 0 || p.labels[b] in {None, Some(h)}
  {
    var p' := CacheBlock(p, b, h);
    if p.refs[b] > 0 {
      forall h', b' ensures Listed(p'.index, h', b') <==> Listed(p.index, h', b') || (h' == h && b' == b) {
      }
      if p.labels[b].Some? && p.labels[b].value != h {
        assert Listed(p.index, p.labels[b].value, b);
        assert Listed(p'.index, p.labels[b].value, b);
      }
    }
  }

  lemma AllocateValid(p: Pool)
    requires Valid(p)
    ensures Valid(Allocate(p).0)
  {
    EvictionPolicy(p);
  }

  lemma FreeValid(p: Pool, b: BlockId)
    requires Valid(p) && b < |p.refs|
    ensures Valid(Free(p, b))
  {
  }

  lemma TouchValid(p: Pool, b: BlockId)
    requires Valid(p) && b < |p.refs|
    ensures Valid(Touch(p, b))
  {
  }

  lemma ReferenceValid(p: Pool, b: BlockId)
    requires Valid(p) && 0 < b < |p.refs|
    ensures Valid(Reference(p, b))
  {
  }

  /** Touching a block first makes no difference to taking a reference on it. */
  lemma ReferenceAfterTouch(p: Pool, b: BlockId)
    requires Shape(p) && 0 < b < |p.refs|
    ensures Reference(Touch(p, b), b) == Reference(p, b)
  {
    WithoutMembers(p.free, b);
    WithoutAbsent(Without(p.free, b), b);
    assert Without([b] + Without(p.free, b), b) == Without(p.free, b);
  }

  /** The reset refuses exactly when a labelled block is in use, and otherwise forgets every label. */
  lemma ResetExact(p: Pool)
    requires Valid(p)
    ensures var (p', ok) := Reset(p);
      && Valid(p')
      && (ok <==> forall b :: 0 <= b < |p.refs| && p.refs[b] > 0 ==> p.labels[b].None?)
      && (!ok ==> p' == p)
      && (ok ==> p'.refs == p.refs && p'.index == map[] && forall b :: 0 <= b < |p'.labels| ==> p'.labels[b].None?)
  {
  }

  // ---------- reference counts under the manager's loops ----------

  /** The reference counts grew by the multiplicity of each id. */
  ghost predicate RefsPlus(p: Pool, p': Pool, ids: seq<BlockId>) {
    && |p'.refs| == |p.refs|
    && forall b :: 0 <= b < |p.refs| ==> p'.refs[b] == p.refs[b] + multiset(ids)[b]
  }

  lemma RefsPlusCons(p: Pool, p1: Pool, p2: Pool, b: BlockId, ids: seq<BlockId>)
    requires b < |p.refs| && p1.refs == p.refs[b := p.refs[b] + 1]
    requires RefsPlus(p1, p2, ids)
    ensures RefsPlus(p, p2, [b] + ids)
  {
    assert multiset([b] + ids) == multiset{b} + multiset(ids);
  }

  /** One allocation: the victim gains its only reference, and loses its label and index entry; nothing else moves. */
  ghost predicate Took(p: Pool, p': Pool, r: Option<BlockId>) {
    && (r.None? <==> p.free == [])
    && (r.None? ==> p' == p)
    && (r.Some? ==>
      && IsVictim(p, r.value)
      && r.value in p.free && r.value < |p.refs| == |p.labels|
      && p'.free == Without(p.free, r.value)
      && p'.refs == p.refs[r.value := 1]
      && p'.labels == p.labels[r.value := None]
      && p'.active == p.active + 1
      && forall h, b: BlockId :: Listed(p'.index, h, b) <==> Listed(p.index, h, b) && b != r.value)
  }

  lemma AllocateEffect(p: Pool)
    requires Valid(p)
    ensures Valid(Allocate(p).0) && Took(p, Allocate(p).0, Allocate(p).1)
  {
    AllocateValid(p);
    EvictionPolicy(p);
  }

  /** One reference fewer; with the last one the block goes, label and all, to the head of the free list. */
  ghost predicate Released(p: Pool, p': Pool, b: BlockId) {
    && b < |p.refs| == |p'.refs|
    && p'.refs == (if p.refs[b] > 0 then p.refs[b := p.refs[b] - 1] else p.refs)
    && p'.free == (if p.refs[b] == 1 then [b] + p.free else p.free)
    && p'.labels == p.labels && p'.index == p.index
  }

  /** One reference more; a free block leaves the free list. */
  ghost predicate Gained(p: Pool, p': Pool, b: BlockId) {
    && b < |p.refs| && p'.refs == p.refs[b := p.refs[b] + 1]
    && p'.free == (if p.refs[b] == 0 then Without(p.free, b) else p.free)
    && p'.labels == p.labels && p'.index == p.index
  }

  ghost predicate TookAll(p: Pool, p': Pool, ids: seq<BlockId>) {
    && NoDup(ids)
    && (forall b :: b in ids ==> b in p.free)
    && RefsPlus(p, p', ids)
    && |p'.labels| == |p.labels|
    && (forall b :: 0 <= b < |p.labels| ==> p'.labels[b] == if b in ids then None else p.labels[b])
  }

  /** What taking up to n blocks does, whatever mix of unused and evicted blocks it took. */
  ghost predicate TookUpTo(p: Pool, n: nat, p': Pool, ids: seq<BlockId>) {
    && Valid(p')
    && |ids| == (if n <= |p.free| then n else |p.free|)
    && TookAll(p, p', ids)
  }

  lemma TookUpToCons(p: Pool, n: nat, p1: Pool, b: BlockId, p2: Pool, ids: seq<BlockId>)
    requires Shape(p) && b in p.free
    requires p1.free == Without(p.free, b) && p1.refs == p.refs[b := 1] && p1.labels == p.labels[b := None]
    requires TookUpTo(p1, n, p2, ids)
    ensures TookUpTo(p, n + 1, p2, [b] + ids)
  {
    WithoutMembers(p.free, b);
    WithoutNoDup(p.free, b);
    RefsPlusCons(p, p1, p2, b, ids);
  }

  lemma TookUpToNone(p: Pool, n: nat)
    requires Valid(p) && (n == 0 || p.free == [])
    ensures TookUpTo(p, n, p, [])
  {
  }

  /** The first block, and then the others. */
  lemma TookUpToStep(p: Pool, n: nat, p1: Pool, id: BlockId, p2: Pool, ids: seq<BlockId>)
    requires Valid(p) && Allocate(p) == (p1, Some(id)) && TookUpTo(p1, n, p2, ids)
    ensures TookUpTo(p, n + 1, p2, [id] + ids)
  {
    AllocateEffect(p);
    TookUpToCons(p, n, p1, id, p2, ids);
  }

  lemma {:induction false} AllocateUpToCorrect(p: Pool, n: nat)
    requires Valid(p)
    ensures TookUpTo(p, n, AllocateUpTo(p, n).0, AllocateUpTo(p, n).1)
    decreases n
  {
    AllocateValid(p);
    var (p1, b) := Allocate(p);
    if n == 0 || b.None? {
      EvictionPolicy(p);
      TookUpToNone(p, n);
    } else {
      AllocateUpToCorrect(p1, n - 1);
      TookUpToStep(p, n - 1, p1, b.value, AllocateUpTo(p1, n - 1).0, AllocateUpTo(p1, n - 1).1);
    }
  }

  lemma RefsPlusGrow(p: Pool, p1: Pool, p2: Pool, b: BlockId, ids: seq<BlockId>)
    requires RefsPlus(p, p1, ids)
    requires b < |p1.refs| && p2.refs == p1.refs[b := p1.refs[b] + 1]
    ensures RefsPlus(p, p2, [b] + ids)
  {
    assert multiset([b] + ids) == multiset{b} + multiset(ids);
  }

  /** Every occurrence in ids is backed by a reference. */
  ghost predicate Held(p: Pool, ids: seq<BlockId>) {
    && (forall i :: 0 <= i < |ids| ==> ids[i] < |p.refs|)
    && forall b :: 0 <= b < |p.refs| ==> multiset(ids)[b] <= p.refs[b]
  }

  lemma HeldStep(p: Pool, ids: seq<BlockId>)
    requires Shape(p) && Held(p, ids) && ids != []
    ensures ids[0] < |p.refs| && ids[0] != NULL_BLOCK && p.refs[ids[0]] > 0
    ensures Held(Free(p, ids[0]), ids[1..])
    ensures p.refs == Free(p, ids[0]).refs[ids[0] := Free(p, ids[0]).refs[ids[0]] + 1]
  {
    assert ids == [ids[0]] + ids[1..];
    assert multiset(ids) == multiset{ids[0]} + multiset(ids[1..]);
  }

  /** Releasing references that are held undoes taking them. */
  lemma {:induction false} FreeAllCorrect(p: Pool, ids: seq<BlockId>)
    requires Valid(p) && Held(p, ids)
    ensures var p' := FreeAll(p, ids);
      && Valid(p')
      && RefsPlus(p', p, ids)
      && p'.labels == p.labels && p'.index == p.index
    decreases ids
  {
    if ids != [] {
      HeldStep(p, ids);
      FreeValid(p, ids[0]);
      var p1 := Free(p, ids[0]);
      FreeAllCorrect(p1, ids[1..]);
      assert ids == [ids[0]] + ids[1..];
      RefsPlusGrow(FreeAll(p1, ids[1..]), p1, p, ids[0], ids[1..]);
    }
  }

  ghost predicate AllActive(p: Pool, ids: seq<BlockId>) {
    forall i :: 0 <= i < |ids| ==> 0 < ids[i] < |p.refs| && p.refs[ids[i]] > 0
  }

  /** What taking one more reference on each id does. */
  ghost predicate Increffed(p: Pool, p': Pool, ids: seq<BlockId>) {
    && Valid(p')
    && RefsPlus(p, p', ids)
    && p'.labels == p.labels && p'.index == p.index && p'.free == p.free
  }

  lemma IncreffedCons(p: Pool, b: BlockId, p2: Pool, ids: seq<BlockId>)
    requires Valid(p) && 0 < b < |p.refs| && p.refs[b] > 0 && Increffed(Incref(p, b), p2, ids)
    ensures Increffed(p, p2, [b] + ids)
  {
    RefsPlusCons(p, Incref(p, b), p2, b, ids);
  }

  lemma {:induction false} IncrefAllCorrect(p: Pool, ids: seq<BlockId>)
    requires Valid(p) && AllActive(p, ids)
    ensures Increffed(p, IncrefAll(p, ids), ids)
    decreases ids
  {
    if ids != [] {
      var p1 := Incref(p, ids[0]);
      assert AllActive(p1, ids[1..]);
      IncrefAllCorrect(p1, ids[1..]);
      assert ids == [ids[0]] + ids[1..];
      IncreffedCons(p, ids[0], IncrefAll(p1, ids[1..]), ids[1..]);
    }
  }

  // ---------- all-or-nothing allocation ----------

  /** What a failed bulk allocation leaves behind: nothing moved, but every free block lost its label. */
  ghost predicate RolledBack(p: Pool, p': Pool) {
    && Valid(p')
    && p'.refs == p.refs
    && p'.active == p.active
    && |p'.free| == |p.free|
    && (forall b :: b in p'.free <==> b in p.free)
    && |p'.labels| == |p.labels|
    && (forall b :: 0 <= b < |p.labels| ==> p'.labels[b] == if b in p.free then None else p.labels[b])
  }

  lemma RolledBackIndex(p: Pool, p': Pool, h: BlockHash, b: BlockId)
    requires Valid(p) && RolledBack(p, p')
    ensures Listed(p'.index, h, b) <==> Listed(p.index, h, b) && p.refs[b] > 0
  {
    assert b < |p.labels| && p.labels[b].Some? ==> b != NULL_BLOCK;
  }

  lemma RefsPlusCancels(p: Pool, p1: Pool, p': Pool, ids: seq<BlockId>)
    requires RefsPlus(p, p1, ids) && RefsPlus(p', p1, ids)
    ensures p'.refs == p.refs
  {
  }

  lemma RollbackRestores(p: Pool, p1: Pool, ids: seq<BlockId>)
    requires Valid(p) && Valid(p1) && TookAll(p, p1, ids) && |ids| == |p.free|
    requires forall i :: 0 <= i < |ids| ==> ids[i] < |p1.refs|
    ensures RolledBack(p, FreeAll(p1, ids))
  {
    var p' := FreeAll(p1, ids);
    FreeAllCorrect(p1, ids);
    RefsPlusCancels(p, p1, p', ids);
    SameRefsSameFree(p, p');
    FullSelection(ids, p.free);
  }

  /** Bulk allocation succeeds exactly when enough blocks are free, and then takes exactly n of them. */
  lemma AllocateAllExact(p: Pool, n: nat)
    requires Valid(p)
    ensures var (p', r) := AllocateAll(p, n);
      && (r.Some? <==> n <= |p.free|)
      && (r.Some? ==> TookUpTo(p, n, p', r.value))
      && (r.None? ==> RolledBack(p, p'))
  {
    AllocateUpToCorrect(p, n);
    var (p1, ids) := AllocateUpTo(p, n);
    if |ids| != n {
      RollbackRestores(p, p1, ids);
    }
  }

  // ---------- the free list after a refusal ----------

  function Reversed(ids: seq<BlockId>): (r: seq<BlockId>)
    ensures |r| == |ids|
  {
    if ids == [] then [] else Reversed(ids[1..]) + [ids[0]]
  }

  lemma {:induction false} ReversedEnds(ids: seq<BlockId>)
    requires ids != []
    ensures Reversed(ids)[0] == ids[|ids| - 1]
  {
    if |ids| > 1 {
      ReversedEnds(ids[1..]);
    }
  }

  /** Blocks with their last reference go to the head one after another. */
  lemma {:induction false} FreeAllReverses(p: Pool, ids: seq<BlockId>)
    requires Valid(p) && NoDup(ids) && forall i :: 0 <= i < |ids| ==> 0 < ids[i] < |p.refs| && p.refs[ids[i]] == 1
    ensures FreeAll(p, ids).free == Reversed(ids) + p.free
    decreases ids
  {
    if ids != [] {
      var p1 := Free(p, ids[0]);
      FreeValid(p, ids[0]);
      FreeAllReverses(p1, ids[1..]);
      assert Reversed(ids[1..]) + ([ids[0]] + p.free) == Reversed(ids) + p.free;
    }
  }

  /** Taking as many blocks as are free leaves none. */
  lemma TookAllFree(p: Pool, p1: Pool, ids: seq<BlockId>)
    requires Valid(p) && Valid(p1) && TookAll(p, p1, ids) && |ids| == |p.free|
    ensures p1.free == []
    ensures forall i :: 0 <= i < |ids| ==> 0 < ids[i] < |p1.refs| && p1.refs[ids[i]] == 1
  {
    FullSelection(ids, p.free);
    forall i | 0 <= i < |ids|
      ensures 0 < ids[i] < |p1.refs| && p1.refs[ids[i]] == 1
    {
      assert ids[i] in p.free;
      NoDupOnce(ids, ids[i]);
    }
    assert forall b :: b in p1.free ==> b in p.free && b !in ids;
    FirstIsMember(p1.free);
  }

  lemma NoDupOnce(ids: seq<BlockId>, b: BlockId)
    requires NoDup(ids)
    ensures multiset(ids)[b] == if b in ids then 1 else 0
  {
    if b in ids {
      var k :| 0 <= k < |ids| && ids[k] == b;
      assert ids == ids[..k] + [b] + ids[k + 1..];
      assert multiset(ids) == multiset(ids[..k]) + multiset{b} + multiset(ids[k + 1..]);
      assert b !in ids[..k] && b !in ids[k + 1..];
    }
  }

  /** A refusal leaves the free list in the reverse of the order in which its blocks were taken. */
  lemma RefusalReverses(p: Pool, n: nat)
    requires Valid(p) && AllocateAll(p, n).1.None?
    ensures AllocateAll(p, n).0.free == Reversed(AllocateUpTo(p, n).1)
  {
    AllocateUpToCorrect(p, n);
    var (p1, ids) := AllocateUpTo(p, n);
    TookAllFree(p, p1, ids);
    FreeAllReverses(p1, ids);
    assert Reversed(ids) + [] == Reversed(ids);
  }

  ghost predicate AllUncached(p: Pool) {
    forall b :: b in p.free ==> IsUncached(p.labels, b)
  }

  lemma HeadIsVictim(p: Pool)
    requires Valid(p) && AllUncached(p) && p.free != []
    ensures Victim(p) == Some(p.free[0]) && p.labels[p.free[0]].None?
    ensures Without(p.free, p.free[0]) == p.free[1..]
  {
    assert p.free[0] in p.free;
    WithoutAbsent(p.free[1..], p.free[0]);
  }

  lemma UncachedTakenFirst(p: Pool)
    requires Valid(p) && AllUncached(p) && p.free != []
    ensures var (p1, b) := Allocate(p);
      Valid(p1) && AllUncached(p1) && b == Some(p.free[0]) && p1.free == p.free[1..] && p1.index == p.index
  {
    HeadIsVictim(p);
    AllocateValid(p);
    var p1 := Allocate(p).0;
    assert forall b :: b in p.free[1..] ==> b in p.free;
    assert p1.labels == p.labels[p.free[0] := None] && p1.index == p.index;
  }

  lemma UncachedTakenNext(p: Pool, n: nat, p1: Pool, p2: Pool, ids: seq<BlockId>)
    requires Valid(p) && AllUncached(p) && p.free != [] && p1 == Allocate(p).0
    requires (p2, ids) == AllocateUpTo(p1, n) && ids == p1.free && p2.index == p1.index
    ensures AllocateUpTo(p, n + 1) == (p2, p.free) && p2.index == p.index
  {
    UncachedTakenFirst(p);
    assert p.free == [p.free[0]] + p.free[1..];
  }

  /** Uncached blocks are taken from the head, and the index is not touched. */
  lemma {:induction false} UncachedTakenInOrder(p: Pool, n: nat)
    requires Valid(p) && AllUncached(p) && n >= |p.free|
    ensures AllocateUpTo(p, n).1 == p.free
    ensures AllocateUpTo(p, n).0.index == p.index
    decreases n
  {
    if p.free != [] {
      var p1 := Allocate(p).0;
      UncachedTakenFirst(p);
      UncachedTakenInOrder(p1, n - 1);
      UncachedTakenNext(p, n - 1, p1, AllocateUpTo(p1, n - 1).0, AllocateUpTo(p1, n - 1).1);
    }
  }

  /** Asking for as many blocks as are free, none of them cached, takes them from head to tail. */
  lemma UncachedAllTaken(p: Pool)
    requires Valid(p) && AllUncached(p)
    ensures var (p', ids) := AllocateAll(p, |p.free|);
      && Valid(p') && ids == Some(p.free) && p'.free == []
      && p'.labels == p.labels && p'.index == p.index && RefsPlus(p, p', p.free)
  {
    AllocateUpToCorrect(p, |p.free|);
    UncachedTakenInOrder(p, |p.free|);
    TookAllFree(p, AllocateUpTo(p, |p.free|).0, p.free);
  }

  /** A refusal changes nothing exactly when at most one block is free, and it is not cached. */
  lemma RefusalUnchangedExactly(p: Pool, n: nat)
    requires Valid(p) && AllocateAll(p, n).1.None?
    ensures AllocateAll(p, n).0 == p <==> |p.free| <= 1 && AllUncached(p)
  {
    var p' := AllocateAll(p, n).0;
    AllocateAllExact(p, n);
    RefusalReverses(p, n);
    if AllUncached(p) {
      UncachedTakenInOrder(p, n);
      if |p.free| <= 1 {
        assert p'.free == p.free;
        RefusalKeepsIndex(p, n);
        assert p'.labels == p.labels;
      } else {
        ReversedEnds(p.free);
      }
    } else {
      var b :| b in p.free && !IsUncached(p.labels, b);
      assert p'.labels[b] == None;
    }
  }

  lemma RefusalKeepsIndex(p: Pool, n: nat)
    requires Valid(p) && AllUncached(p) && AllocateAll(p, n).1.None?
    ensures AllocateAll(p, n).0.index == p.index
  {
    AllocateUpToCorrect(p, n);
    UncachedTakenInOrder(p, n);
    var (p1, ids) := AllocateUpTo(p, n);
    TookAllFree(p, p1, ids);
    forall b | 0 <= b < |p1.refs|
      ensures multiset(ids)[b] <= p1.refs[b]
    {
      NoDupOnce(ids, b);
    }
    FreeAllCorrect(p1, ids);
  }

  // ---------- the head of an index entry ----------

  /** The id that a lookup of h would return. */
  function HeadOf(p: Pool, h: BlockHash): Option<BlockId> {
    if h in p.index then At(p.index[h], 0) else None
  }

  lemma AllocateKeepsHead(p: Pool, h: BlockHash, b: BlockId)
    requires Valid(p) && HeadOf(p, h) == Some(b) && b < |p.refs| && p.refs[b] > 0
    ensures HeadOf(Allocate(p).0, h) == Some(b)
    ensures Allocate(p).0.refs[b] > 0
  {
    AllocateEffect(p);
    var (p', r) := Allocate(p);
    if r.Some? && p'.index != p.index {
      WithoutKeepsFirst(p.index[h], r.value);
    }
  }

  lemma {:induction false} AllocateUpToKeepsHead(p: Pool, n: nat, h: BlockHash, b: BlockId)
    requires Valid(p) && HeadOf(p, h) == Some(b) && b < |p.refs| && p.refs[b] > 0
    ensures HeadOf(AllocateUpTo(p, n).0, h) == Some(b)
    decreases n
  {
    if n > 0 {
      AllocateKeepsHead(p, h, b);
      AllocateValid(p);
      var (p1, r) := Allocate(p);
      if r.Some? {
        AllocateUpToKeepsHead(p1, n - 1, h, b);
        assert AllocateUpTo(p, n).0 == AllocateUpTo(p1, n - 1).0;
      }
    }
  }

  /** A block in use stays the head of its index entry whatever bulk allocation evicts. */
  lemma AllocateAllKeepsHead(p: Pool, n: nat, h: BlockHash, b: BlockId)
    requires Valid(p) && HeadOf(p, h) == Some(b) && b < |p.refs| && p.refs[b] > 0
    ensures HeadOf(AllocateAll(p, n).0, h) == Some(b)
  {
    AllocateUpToKeepsHead(p, n, h, b);
    AllocateUpToCorrect(p, n);
    var (p1, ids) := AllocateUpTo(p, n);
    FreeAllCorrect(p1, ids);
  }

  lemma CacheBlockKeepsHead(p: Pool, c: BlockId, h': BlockHash, h: BlockHash, b: BlockId)
    requires Shape(p) && c < |p.refs| && HeadOf(p, h) == Some(b)
    ensures HeadOf(CacheBlock(p, c, h'), h) == Some(b)
  {
  }

  // ---------- copy on write ----------

  /**
   A shared block is swapped for a block nobody else references: the caller's reference moves
   from the old block to the copy, everyone else's stay. It fails exactly when the pool is full.
   */
  ghost predicate Copied(p: Pool, p': Pool, b: BlockId, r: Option<BlockId>) {
    if b < |p.refs| && p.refs[b] > 1 then
      && (r.None? <==> p.free == [])
      && (r.None? ==> p' == p)
      && (r.Some? ==>
        && IsVictim(p, r.value)
        && r.value in p.free && r.value != b && r.value < |p.refs| == |p.labels|
        && p'.free == Without(p.free, r.value)
        && p'.refs == p.refs[b := p.refs[b] - 1][r.value := 1]
        && p'.labels == p.labels[r.value := None])
    else r == Some(b) && p' == p
  }

  lemma CopyOnWriteExclusive(p: Pool, b: BlockId)
    requires Valid(p)
    ensures Valid(CopyOnWrite(p, b).0) && Copied(p, CopyOnWrite(p, b).0, b, CopyOnWrite(p, b).1)
  {
    if IsShared(p, b) {
      AllocateEffect(p);
      if Allocate(p).1.Some? {
        FreeValid(Allocate(p).0, b);
      }
    }
  }
}
