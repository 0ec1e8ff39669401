/**
 The pool itself: one block array with the free list threaded through it, the hash index and
 the active counter. Every method is tied to the operation of `PoolModel` of the same name.
 */
module BlockPools {
  import opened Wrappers
  import opened Sequences
  import opened CacheTypes
  import opened FreeQueue
  import PM = PoolModel
  import PP = PoolProperties

  /** Every block sits at its own id, and only block 0 is the null block. */
  ghost predicate WellNumbered(bs: seq<KVCacheBlock>) {
    && |bs| >= 1
    && forall b :: 0 <= b < |bs| ==> bs[b].id == b && (bs[b].isNull <==> b == NULL_BLOCK)
  }

  ghost function Refs(bs: seq<KVCacheBlock>): seq<nat> {
    seq(|bs|, i requires 0 <= i < |bs| => bs[i].refCount)
  }

  ghost function Labels(bs: seq<KVCacheBlock>): seq<Option<BlockHash>> {
    seq(|bs|, i requires 0 <= i < |bs| => bs[i].hash)
  }

  lemma SameMetadataSameViews(bs: seq<KVCacheBlock>, bs': seq<KVCacheBlock>)
    requires SameMetadata(bs, bs') && WellNumbered(bs)
    ensures Refs(bs') == Refs(bs) && Labels(bs') == Labels(bs) && WellNumbered(bs')
  {
  }

  /** Writing the count and the label of one block shows in the views at that block only. */
  lemma UpdateViews(bs: seq<KVCacheBlock>, idx: nat, block: KVCacheBlock, order: seq<nat>)
    requires WellNumbered(bs) && Linked(bs, order) && idx < |bs|
    requires block == bs[idx].(refCount := block.refCount, hash := block.hash)
    ensures Refs(bs[idx := block]) == Refs(bs)[idx := block.refCount]
    ensures Labels(bs[idx := block]) == Labels(bs)[idx := block.hash]
    ensures WellNumbered(bs[idx := block]) && Linked(bs[idx := block], order)
  {
    LinkedUpdate(bs, idx, block, order);
  }

  datatype BlockPoolUsage = BlockPoolUsage(numTotal: nat, numActive: nat, numFree: nat, numCached: nat)

  class BlockPool {
    const blocks: array<KVCacheBlock>
    const freeQueue: FreeBlockQueue
    var hashMap: map<BlockHash, seq<BlockId>>
    var numActiveBlocks: nat

    ghost function Abs(): PM.Pool
      reads this, blocks, freeQueue
    {
      PM.Pool(freeQueue.order, Refs(blocks[..]), Labels(blocks[..]), hashMap, numActiveBlocks)
    }

    /** The links spell the free list, and the counts and the free list agree. */
    ghost predicate InShape()
      reads this, blocks, freeQueue
    {
      && WellNumbered(blocks[..])
      && freeQueue.Valid(blocks)
      && PM.Shape(Abs())
    }

    /** In shape, and the hash index agrees with the labels. */
    ghost predicate Valid()
      reads this, blocks, freeQueue
    {
      InShape() && PM.IndexAgrees(Abs())
    }

    constructor (numBlocks: nat)
      ensures Valid() && Abs() == PM.New(numBlocks)
      ensures blocks.Length == if numBlocks == 0 then 1 else numBlocks
      ensures |freeQueue.order| == blocks.Length - 1
      ensures forall i :: 0 <= i < |freeQueue.order| ==> freeQueue.order[i] == i + 1
      ensures hashMap == map[] && forall b :: 0 <= b < blocks.Length ==> blocks[b].refCount == 0 && blocks[b].hash.None?
      ensures fresh(blocks) && fresh(freeQueue)
    {
      var n := if numBlocks == 0 then 1 else numBlocks;
      blocks := new KVCacheBlock[n](i => KVCacheBlock(i, None, 0, None, None, i == NULL_BLOCK));
      freeQueue := new FreeBlockQueue();
      hashMap, numActiveBlocks := map[], 0;
      new;
      for i := 1 to n
        invariant freeQueue.Valid(blocks)
        invariant freeQueue.order == PM.FreshIds(i)
        invariant WellNumbered(blocks[..])
        invariant forall b :: 0 <= b < n ==> blocks[b].refCount == 0 && blocks[b].hash == None
        invariant hashMap == map[] && numActiveBlocks == 0
      {
        ghost var bs := blocks[..];
        freeQueue.PushBack(blocks, i);
        SameMetadataSameViews(bs, blocks[..]);
      }
      assert Abs() == PM.New(numBlocks);
    }

    // ---------- single writes, seen through the views ----------

    /** Writes the count and the label of one block. */
    method Store(idx: nat, refCount: nat, hash: Option<BlockHash>)
      requires WellNumbered(blocks[..]) && freeQueue.Valid(blocks) && idx < blocks.Length
      modifies blocks
      ensures WellNumbered(blocks[..]) && freeQueue.Valid(blocks)
      ensures Refs(blocks[..]) == old(Refs(blocks[..]))[idx := refCount]
      ensures Labels(blocks[..]) == old(Labels(blocks[..]))[idx := hash]
    {
      ghost var bs := blocks[..];
      UpdateViews(bs, idx, blocks[idx].(refCount := refCount, hash := hash), freeQueue.order);
      blocks[idx] := blocks[idx].(refCount := refCount, hash := hash);
      assert blocks[..] == bs[idx := blocks[idx]];
    }

    method Unlink(idx: nat)
      requires WellNumbered(blocks[..]) && freeQueue.Valid(blocks) && idx < blocks.Length && idx in freeQueue.order
      modifies blocks, freeQueue
      ensures WellNumbered(blocks[..]) && freeQueue.Valid(blocks)
      ensures freeQueue.order == Without(old(freeQueue.order), idx)
      ensures Refs(blocks[..]) == old(Refs(blocks[..])) && Labels(blocks[..]) == old(Labels(blocks[..]))
    {
      ghost var bs := blocks[..];
      freeQueue.Remove(blocks, idx);
      SameMetadataSameViews(bs, blocks[..]);
    }

    method LinkFirst(idx: nat)
      requires WellNumbered(blocks[..]) && freeQueue.Valid(blocks) && idx < blocks.Length && idx !in freeQueue.order
      modifies blocks, freeQueue
      ensures WellNumbered(blocks[..]) && freeQueue.Valid(blocks)
      ensures freeQueue.order == [idx] + old(freeQueue.order)
      ensures Refs(blocks[..]) == old(Refs(blocks[..])) && Labels(blocks[..]) == old(Labels(blocks[..]))
    {
      ghost var bs := blocks[..];
      freeQueue.PushFront(blocks, idx);
      SameMetadataSameViews(bs, blocks[..]);
    }

    /** Reads list membership off the links: any neighbour, or being the head. */
    method InQueue(idx: nat) returns (r: bool)
      requires freeQueue.Valid(blocks) && idx < blocks.Length
      ensures r <==> idx in freeQueue.order
    {
      freeQueue.LinkTest(blocks, idx);
      r := blocks[idx].prevFree.Some? || blocks[idx].nextFree.Some? || freeQueue.head == Some(idx);
    }

    /** First uncached block from the head, unlinked. */
    method PopUncached() returns (r: Option<nat>)
      requires Valid()
      modifies this, blocks, freeQueue
      ensures freeQueue.Valid(blocks)
      ensures SameMetadata(old(blocks[..]), blocks[..])
      ensures hashMap == old(hashMap) && numActiveBlocks == old(numActiveBlocks)
      ensures r == PM.FirstUncached(old(Abs()).free, old(Abs()).labels)
      ensures freeQueue.order == if r.Some? then Without(old(freeQueue.order), r.value) else old(freeQueue.order)
    {
      ghost var p := Abs();
      var candidate := freeQueue.head;
      ghost var i := 0;
      while candidate.Some?
        invariant 0 <= i <= |p.free| && candidate == At(p.free, i)
        invariant PM.FirstUncached(p.free, p.labels) == PM.FirstUncached(p.free[i..], p.labels)
        decreases |p.free| - i
      {
        var idx := candidate.value;
        assert LinkedAt(blocks[..], p.free, i);
        var hasHash, next := blocks[idx].hash.Some?, blocks[idx].nextFree;
        if !hasHash {
          freeQueue.Remove(blocks, idx);
          return Some(idx);
        }
        candidate := next;
        i := i + 1;
      }
      return None;
    }

    /** Last cached block before the tail, unlinked, unlabelled and out of the index. */
    method EvictLru() returns (r: Option<nat>)
      requires Valid()
      modifies this, blocks, freeQueue
      ensures freeQueue.Valid(blocks)
      ensures numActiveBlocks == old(numActiveBlocks)
      ensures r == PM.LastCached(old(Abs()).free, old(Abs()).labels)
      ensures WellNumbered(blocks[..])
      ensures r.None? ==> Abs() == old(Abs())
      ensures r.Some? ==>
        var p := old(Abs());
        && r.value < |p.labels|
        && Abs() == p.(
          free := Without(p.free, r.value),
          labels := p.labels[r.value := None],
          index := PM.Evict(p.index, p.labels[r.value], r.value))
    {
      ghost var p := Abs();
      var candidate := freeQueue.tail;
      ghost var i := |p.free|;
      assert p.free[..i] == p.free;
      while candidate.Some?
        invariant 0 <= i <= |p.free| && candidate == At(p.free, i - 1)
        invariant PM.LastCached(p.free, p.labels) == PM.LastCached(p.free[..i], p.labels)
        decreases i
      {
        var idx := candidate.value;
        assert LinkedAt(blocks[..], p.free, i - 1);
        assert p.free[..i][..i - 1] == p.free[..i - 1];
        var prev := blocks[idx].prevFree;
        match blocks[idx].hash {
          case Some(h) =>
            Unlink(idx);
            Store(idx, blocks[idx].refCount, None);
            hashMap := PM.Unlist(hashMap, h, blocks[idx].id);
            return Some(idx);
          case None =>
        }
        candidate := prev;
        i := i - 1;
      }
      return None;
    }

    /** An uncached free block if there is one, else the evicted tail. */
    method TakeVictim() returns (r: Option<nat>)
      requires Valid()
      modifies this, blocks, freeQueue
      ensures r == PM.Victim(old(Abs()))
      ensures WellNumbered(blocks[..]) && freeQueue.Valid(blocks)
      ensures numActiveBlocks == old(numActiveBlocks)
      ensures r.None? ==> Abs() == old(Abs())
      ensures r.Some? ==>
        var p, b := old(Abs()), r.value;
        && b < |p.labels|
        && freeQueue.order == Without(p.free, b)
        && Refs(blocks[..]) == p.refs
        && Labels(blocks[..])[b := None] == p.labels[b := None]
        && hashMap == PM.Evict(p.index, p.labels[b], b)
    {
      ghost var p, bs := Abs(), blocks[..];
      r := PopUncached();
      SameMetadataSameViews(bs, blocks[..]);
      if r.None? {
        assert Abs() == p;
        r := EvictLru();
      }
    }

    method Allocate() returns (r: Option<BlockId>)
      requires Valid()
      modifies this, blocks, freeQueue
      ensures Valid()
      ensures Abs() == PM.Allocate(old(Abs())).0
      ensures r == PM.Allocate(old(Abs())).1
      ensures PP.Took(old(Abs()), Abs(), r)
    {
      ghost var p := Abs();
      PP.AllocateEffect(p);
      r := TakeVictim();
      match r {
        case None =>
        case Some(idx) =>
          Store(idx, 1, None);
          numActiveBlocks := numActiveBlocks + 1;
          r := Some(blocks[idx].id);
      }
    }

    /** Drops one reference; the last one returns the block, still labelled, to the head of the free list. */
    method Free(blockId: BlockId)
      requires Valid() && blockId < |Abs().refs|
      modifies this, blocks, freeQueue
      ensures Valid()
      ensures Abs() == PM.Free(old(Abs()), blockId)
      ensures PP.Released(old(Abs()), Abs(), blockId)
    {
      ghost var p := Abs();
      PP.FreeValid(p, blockId);
      var block := blocks[blockId];
      if block.isNull || block.refCount == 0 {
        return;
      }
      PM.ActivePositive(p, blockId);
      Store(blockId, block.refCount - 1, block.hash);
      assert Refs(blocks[..])[blockId] == p.refs[blockId] - 1 && Labels(blocks[..]) == p.labels;
      if blocks[blockId].refCount == 0 {
        LinkFirst(blockId);
        numActiveBlocks := numActiveBlocks - 1;
      }
    }

    method Incref(blockId: BlockId)
      requires Valid() && blockId < |Abs().refs|
      modifies this, blocks, freeQueue
      ensures Valid()
      ensures Abs() == PM.Incref(old(Abs()), blockId)
      ensures var p := old(Abs());
        Abs() == if p.refs[blockId] > 0 then p.(refs := p.refs[blockId := p.refs[blockId] + 1]) else p
    {
      var block := blocks[blockId];
      if !block.isNull && block.refCount > 0 {
        Store(blockId, block.refCount + 1, block.hash);
      }
    }

    method IsShared(blockId: BlockId) returns (r: bool)
      requires Valid()
      ensures r == PM.IsShared(Abs(), blockId)
      ensures r <==> 0 < blockId < blocks.Length && blocks[blockId].refCount > 1
    {
      if blockId >= blocks.Length {
        return false;
      }
      return !blocks[blockId].isNull && blocks[blockId].refCount > 1;
    }

    method CopyOnWrite(oldBlockId: BlockId) returns (r: Option<BlockId>)
      requires Valid()
      modifies this, blocks, freeQueue
      ensures Valid()
      ensures Abs() == PM.CopyOnWrite(old(Abs()), oldBlockId).0
      ensures r == PM.CopyOnWrite(old(Abs()), oldBlockId).1
      ensures PP.Copied(old(Abs()), Abs(), oldBlockId, r)
    {
      PP.CopyOnWriteExclusive(Abs(), oldBlockId);
      var shared := IsShared(oldBlockId);
      if !shared {
        return Some(oldBlockId);
      }
      r := Allocate();
      if r.Some? {
        Free(oldBlockId);
      }
    }

    /** Moves a free labelled block to the head. */
    method Touch(blockId: BlockId)
      requires Valid() && blockId < |Abs().refs|
      modifies this, blocks, freeQueue
      ensures Valid()
      ensures Abs() == PM.Touch(old(Abs()), blockId)
      ensures var p := old(Abs());
        Abs() == if blockId in p.free && p.labels[blockId].Some? then p.(free := [blockId] + Without(p.free, blockId))
          else p
    {
      PP.TouchValid(Abs(), blockId);
      var block := blocks[blockId];
      if block.refCount == 0 && !block.isNull && block.hash.Some? {
        var inQueue := InQueue(blockId);
        if inQueue {
          WithoutMembers(freeQueue.order, blockId);
          Unlink(blockId);
          LinkFirst(blockId);
        }
      }
    }

    /** Takes a reference on a block, which leaves the free list if it was on it. */
    method Reference(blockId: BlockId)
      requires Valid() && 0 < blockId < |Abs().refs|
      modifies this, blocks, freeQueue
      ensures Valid()
      ensures Abs() == PM.Reference(old(Abs()), blockId)
    {
      ghost var p := Abs();
      PP.ReferenceValid(p, blockId);
      var needsActivate := blocks[blockId].refCount == 0;
      var inQueue := InQueue(blockId);
      if needsActivate && inQueue {
        Unlink(blockId);
      }
      if needsActivate {
        numActiveBlocks := numActiveBlocks + 1;
      }
      Store(blockId, blocks[blockId].refCount + 1, blocks[blockId].hash);
      assert Labels(blocks[..]) == p.labels;
    }

    /** The first block filed under hash is touched and gains a reference. */
    method GetCachedBlock(hash: BlockHash) returns (r: Option<BlockId>)
      requires Valid()
      modifies this, blocks, freeQueue
      ensures Valid()
      ensures Abs() == PM.GetCached(old(Abs()), hash).0
      ensures r == PM.GetCached(old(Abs()), hash).1
      ensures r == if hash in old(hashMap) then Some(old(hashMap)[hash][0]) else None
      ensures r.None? ==> Abs() == old(Abs())
      ensures r.Some? ==> PP.Gained(old(Abs()), Abs(), r.value)
    {
      if hash !in hashMap || hashMap[hash] == [] {
        return None;
      }
      var blockId := hashMap[hash][0];
      assert PM.Listed(Abs().index, hash, blockId);
      PP.ReferenceAfterTouch(Abs(), blockId);
      Touch(blockId);
      Reference(blockId);
      return Some(blockId);
    }

    /** Labels an active block and files it last under its hash; safe exactly when it is not re-labelled. */
    method CacheBlock(blockId: BlockId, hash: BlockHash)
      requires Valid() && blockId < |Abs().refs|
      modifies this, blocks, freeQueue
      ensures InShape()
      ensures Abs() == PM.CacheBlock(old(Abs()), blockId, hash)
      ensures var p := old(Abs());
        var ids := if hash in p.index then p.index[hash] else [];
        Abs() == if p.refs[blockId] > 0 then
            p.(labels := p.labels[blockId := Some(hash)], index := p.index[hash := ids + [blockId]])
          else p
      ensures Valid() <==> old(Abs()).refs[blockId] == 0 || old(Abs()).labels[blockId] in {None, Some(hash)}
    {
      PP.CacheBlockAgreesExactly(Abs(), blockId, hash);
      var block := blocks[blockId];
      if block.refCount == 0 || block.isNull {
        return;
      }
      Store(blockId, block.refCount, Some(hash));
      hashMap := hashMap[hash := (if hash in hashMap then hashMap[hash] else []) + [blockId]];
    }

    method ResetPrefixCache() returns (ok: bool)
      requires Valid()
      modifies this, blocks, freeQueue
      ensures Valid()
      ensures Abs() == PM.Reset(old(Abs())).0
      ensures ok == PM.Reset(old(Abs())).1
      ensures var p := old(Abs());
        ok <==> forall b :: 0 <= b < |p.refs| && p.refs[b] > 0 ==> p.labels[b].None?
      ensures !ok ==> Abs() == old(Abs())
      ensures ok ==> hashMap == map[] && forall b :: 0 <= b < |Abs().labels| ==> Abs().labels[b].None?
      ensures Abs().refs == old(Abs().refs) && freeQueue.order == old(freeQueue.order)
    {
      ghost var p := Abs();
      for i := 0 to blocks.Length
        invariant forall b :: 0 <= b < i ==> !(blocks[b].hash.Some? && blocks[b].refCount > 0)
      {
        if blocks[i].hash.Some? && blocks[i].refCount > 0 {
          assert p.labels[i].Some? && p.refs[i] > 0;
          return false;
        }
      }
      assert !PM.ActiveLabelled(p);
      for i := 0 to blocks.Length
        invariant WellNumbered(blocks[..]) && freeQueue.Valid(blocks)
        invariant Refs(blocks[..]) == p.refs && freeQueue.order == p.free
        invariant forall b :: 0 <= b < i ==> Labels(blocks[..])[b].None?
        invariant hashMap == p.index && numActiveBlocks == p.active
      {
        Store(i, blocks[i].refCount, None);
      }
      hashMap := map[];
      assert Labels(blocks[..]) == seq(|p.labels|, _ => None);
      return true;
    }

    method Usage() returns (u: BlockPoolUsage)
      requires Valid()
      ensures u == BlockPoolUsage(|Abs().refs| - 1, |PM.ActiveSet(Abs())|, |Abs().free|, |Abs().index|)
      ensures u.numActive + u.numFree == u.numTotal
    {
      PM.ActiveCount(Abs());
      u := BlockPoolUsage(blocks.Length - 1, numActiveBlocks, freeQueue.len, |hashMap|);
    }
  }
}
