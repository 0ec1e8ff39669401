/**
 The intrusive doubly linked free list: block indices threaded through the
 `prevFree`/`nextFree` fields of the pool's own block array.
 */
module FreeQueue {
  import opened Wrappers
  import opened Sequences
  import opened CacheTypes

  datatype KVCacheBlock = KVCacheBlock(
    id: BlockId,
    hash: Option<BlockHash>,
    refCount: nat,
    prevFree: Option<nat>,
    nextFree: Option<nat>,
    isNull: bool)

  /** The block at position i of `order` is linked to its two neighbours. */
  ghost predicate LinkedAt(bs: seq<KVCacheBlock>, order: seq<nat>, i: nat) {
    && i < |order|
    && order[i] < |bs|
    && bs[order[i]].prevFree == At(order, i - 1)
    && bs[order[i]].nextFree == At(order, i + 1)
  }

  /** The links stored in `bs` spell exactly `order`, and blocks off the list carry no link. */
  ghost predicate Linked(bs: seq<KVCacheBlock>, order: seq<nat>) {
    && NoDup(order)
    && (forall i :: 0 <= i < |order| ==> LinkedAt(bs, order, i))
    && (forall b :: 0 <= b < |bs| && b !in order ==> bs[b].prevFree.None? && bs[b].nextFree.None?)
  }

  /** Everything but the list links is the same. */
  ghost predicate SameMetadata(bs: seq<KVCacheBlock>, bs': seq<KVCacheBlock>) {
    && |bs| == |bs'|
    && forall b :: 0 <= b < |bs| ==>
      bs'[b] == bs[b].(prevFree := bs'[b].prevFree, nextFree := bs'[b].nextFree)
  }

  /** The same place in the list. */
  ghost predicate SameLinks(b: KVCacheBlock, b': KVCacheBlock) {
    b.prevFree == b'.prevFree && b.nextFree == b'.nextFree
  }

  /** Writing anything but links leaves the list as it is. */
  lemma LinkedUpdate(bs: seq<KVCacheBlock>, idx: nat, block: KVCacheBlock, order: seq<nat>)
    requires Linked(bs, order) && idx < |bs| && SameLinks(bs[idx], block)
    ensures Linked(bs[idx := block], order)
  {
    var bs' := bs[idx := block];
    forall i | 0 <= i < |order|
      ensures LinkedAt(bs', order, i)
    {
      assert LinkedAt(bs, order, i);
    }
  }

  lemma LinkedPushFront(bs: seq<KVCacheBlock>, bs': seq<KVCacheBlock>, order: seq<nat>, idx: nat)
    requires Linked(bs, order) && |bs'| == |bs| && idx < |bs| && idx !in order
    requires bs'[idx].prevFree == None && bs'[idx].nextFree == At(order, 0)
    requires order != [] ==>
      LinkedAt(bs, order, 0) && bs'[order[0]] == bs[order[0]].(prevFree := Some(idx))
    requires forall b :: 0 <= b < |bs| && b != idx && (order == [] || b != order[0]) ==> SameLinks(bs[b], bs'[b])
    ensures Linked(bs', [idx] + order)
  {
    var order' := [idx] + order;
    forall i | 0 <= i < |order'|
      ensures LinkedAt(bs', order', i)
    {
      if i > 0 {
        assert LinkedAt(bs, order, i - 1);
        assert i > 1 ==> order[i - 1] != order[0];
      }
    }
  }

  lemma LinkedPushBack(bs: seq<KVCacheBlock>, bs': seq<KVCacheBlock>, order: seq<nat>, idx: nat)
    requires Linked(bs, order) && |bs'| == |bs| && idx < |bs| && idx !in order
    requires bs'[idx].prevFree == At(order, |order| - 1) && bs'[idx].nextFree == None
    requires order != [] ==>
      var t := order[|order| - 1];
      LinkedAt(bs, order, |order| - 1) && bs'[t].nextFree == Some(idx) && bs'[t].prevFree == bs[t].prevFree
    requires forall b :: 0 <= b < |bs| && b != idx && (order == [] || b != order[|order| - 1]) ==>
      SameLinks(bs[b], bs'[b])
    ensures Linked(bs', order + [idx])
  {
    var order' := order + [idx];
    forall i | 0 <= i < |order'|
      ensures LinkedAt(bs', order', i)
    {
      if i < |order| {
        assert LinkedAt(bs, order, i);
        assert i < |order| - 1 ==> order[i] != order[|order| - 1];
      }
    }
  }

  /** The three writes of `remove`, one after another. */
  ghost function Bypass(bs: seq<KVCacheBlock>, idx: nat): seq<KVCacheBlock>
    requires idx < |bs|
    requires bs[idx].prevFree.Some? ==> bs[idx].prevFree.value < |bs|
    requires bs[idx].nextFree.Some? ==> bs[idx].nextFree.value < |bs|
  {
    var prev, next := bs[idx].prevFree, bs[idx].nextFree;
    var bs1 := if prev.Some? then bs[prev.value := bs[prev.value].(nextFree := next)] else bs;
    var bs2 := if next.Some? then bs1[next.value := bs1[next.value].(prevFree := prev)] else bs1;
    bs2[idx := bs2[idx].(prevFree := None, nextFree := None)]
  }

  /** The j-th element's links once the k-th is bypassed: its neighbours skip position k. */
  ghost predicate RelinkedAt(bs: seq<KVCacheBlock>, order: seq<nat>, k: nat, j: nat) {
    && j < |order|
    && order[j] < |bs|
    && bs[order[j]].prevFree == At(order, if j == k + 1 then k - 1 else j - 1)
    && bs[order[j]].nextFree == At(order, if j + 1 == k then k + 1 else j + 1)
  }

  /** Bypassing the k-th element joins its two neighbours and leaves every other link alone. */
  lemma BypassRelinks(bs: seq<KVCacheBlock>, order: seq<nat>, k: nat, j: nat)
    requires Linked(bs, order) && LinkedAt(bs, order, k)
    requires k > 0 ==> LinkedAt(bs, order, k - 1)
    requires k + 1 < |order| ==> LinkedAt(bs, order, k + 1)
    requires j < |order| && j != k
    ensures RelinkedAt(Bypass(bs, order[k]), order, k, j)
  {
    assert LinkedAt(bs, order, j);
    assert k > 0 && k + 1 < |order| ==> order[k - 1] != order[k + 1];
    assert j != k - 1 && k > 0 ==> order[j] != order[k - 1];
    assert j != k + 1 && k + 1 < |order| ==> order[j] != order[k + 1];
  }

  lemma BypassOffList(bs: seq<KVCacheBlock>, order: seq<nat>, k: nat, b: nat)
    requires Linked(bs, order) && LinkedAt(bs, order, k)
    requires k > 0 ==> LinkedAt(bs, order, k - 1)
    requires k + 1 < |order| ==> LinkedAt(bs, order, k + 1)
    requires b < |bs| && (b == order[k] || b !in order)
    ensures Bypass(bs, order[k])[b].prevFree.None? && Bypass(bs, order[k])[b].nextFree.None?
  {
  }

  /** A list relinked around position k spells the list without that position. */
  lemma LinkedWithout(bs: seq<KVCacheBlock>, order: seq<nat>, k: nat, order': seq<nat>)
    requires k < |order| && order' == order[..k] + order[k + 1..]
    requires NoDup(order') && forall b :: b in order ==> b in order' || b == order[k]
    requires forall j: nat :: j < |order| && j != k ==> RelinkedAt(bs, order, k, j)
    requires forall b :: 0 <= b < |bs| && (b == order[k] || b !in order) ==>
      bs[b].prevFree.None? && bs[b].nextFree.None?
    ensures Linked(bs, order')
  {
    forall i | 0 <= i < |order'|
      ensures LinkedAt(bs, order', i)
    {
      assert RelinkedAt(bs, order, k, if i < k then i else i + 1);
    }
  }

  lemma LinkedBypass(bs: seq<KVCacheBlock>, order: seq<nat>, k: nat)
    requires Linked(bs, order) && LinkedAt(bs, order, k)
    requires k > 0 ==> LinkedAt(bs, order, k - 1)
    requires k + 1 < |order| ==> LinkedAt(bs, order, k + 1)
    ensures Linked(Bypass(bs, order[k]), Without(order, order[k]))
  {
    var bs' := Bypass(bs, order[k]);
    forall j: nat | j < |order| && j != k
      ensures RelinkedAt(bs', order, k, j)
    {
      BypassRelinks(bs, order, k, j);
    }
    forall b | 0 <= b < |bs'| && (b == order[k] || b !in order)
      ensures bs'[b].prevFree.None? && bs'[b].nextFree.None?
    {
      BypassOffList(bs, order, k, b);
    }
    WithoutNoDup(order, order[k]);
    WithoutMembers(order, order[k]);
    WithoutAt(order, k);
    LinkedWithout(bs', order, k, Without(order, order[k]));
  }

  lemma BypassMetadata(bs: seq<KVCacheBlock>, order: seq<nat>, k: nat)
    requires Linked(bs, order) && LinkedAt(bs, order, k)
    requires k > 0 ==> LinkedAt(bs, order, k - 1)
    requires k + 1 < |order| ==> LinkedAt(bs, order, k + 1)
    ensures SameMetadata(bs, Bypass(bs, order[k]))
  {
  }

  lemma WithoutEnds(order: seq<nat>, k: nat)
    requires NoDup(order) && k < |order|
    ensures var order' := Without(order, order[k]);
      && |order'| == |order| - 1
      && At(order', 0) == At(order, if k == 0 then 1 else 0)
      && At(order', |order'| - 1) == At(order, if k == |order| - 1 then k - 1 else |order| - 1)
  {
    WithoutAt(order, k);
  }

  /** All that removing the k-th element needs to know. */
  lemma RemovedAt(bs: seq<KVCacheBlock>, order: seq<nat>, k: nat)
    requires Linked(bs, order) && k < |order|
    ensures LinkedAt(bs, order, k)
    ensures k > 0 ==> order[k - 1] < |bs|
    ensures k + 1 < |order| ==> order[k + 1] < |bs|
    ensures var order' := Without(order, order[k]);
      && Linked(Bypass(bs, order[k]), order')
      && SameMetadata(bs, Bypass(bs, order[k]))
      && |order'| == |order| - 1
      && At(order', 0) == At(order, if k == 0 then 1 else 0)
      && At(order', |order'| - 1) == At(order, if k == |order| - 1 then k - 1 else |order| - 1)
  {
    assert LinkedAt(bs, order, k);
    assert k > 0 ==> LinkedAt(bs, order, k - 1);
    assert k + 1 < |order| ==> LinkedAt(bs, order, k + 1);
    LinkedBypass(bs, order, k);
    BypassMetadata(bs, order, k);
    WithoutEnds(order, k);
  }

  class FreeBlockQueue {
    var head: Option<nat>
    var tail: Option<nat>
    var len: nat
    /** The list from head to tail. */
    ghost var order: seq<nat>

    ghost predicate Valid(blocks: array<KVCacheBlock>)
      reads this, blocks
    {
      && Linked(blocks[..], order)
      && head == At(order, 0)
      && tail == At(order, |order| - 1)
      && len == |order|
    }

    constructor ()
      ensures order == [] && len == 0 && head == None && tail == None
    {
      head, tail, len, order := None, None, 0, [];
    }

    method PushFront(blocks: array<KVCacheBlock>, idx: nat)
      requires Valid(blocks)
      requires idx < blocks.Length && idx !in order
      modifies this, blocks
      ensures Valid(blocks)
      ensures order == [idx] + old(order)
      ensures SameMetadata(old(blocks[..]), blocks[..])
    {
      ghost var bs := blocks[..];
      assert order != [] ==> LinkedAt(bs, order, 0);
      blocks[idx] := blocks[idx].(prevFree := None, nextFree := head);
      match head {
        case Some(h) => blocks[h] := blocks[h].(prevFree := Some(idx));
        case None => tail := Some(idx);
      }
      head := Some(idx);
      len := len + 1;
      LinkedPushFront(bs, blocks[..], order, idx);
      order := [idx] + order;
    }

    method PushBack(blocks: array<KVCacheBlock>, idx: nat)
      requires Valid(blocks)
      requires idx < blocks.Length && idx !in order
      modifies this, blocks
      ensures Valid(blocks)
      ensures order == old(order) + [idx]
      ensures SameMetadata(old(blocks[..]), blocks[..])
    {
      ghost var bs := blocks[..];
      assert order != [] ==> LinkedAt(bs, order, |order| - 1);
      blocks[idx] := blocks[idx].(prevFree := tail, nextFree := None);
      match tail {
        case Some(t) => blocks[t] := blocks[t].(nextFree := Some(idx));
        case None => head := Some(idx);
      }
      tail := Some(idx);
      len := len + 1;
      LinkedPushBack(bs, blocks[..], order, idx);
      order := order + [idx];
    }

    /** Unlinks idx wherever it is in the list. */
    method Remove(blocks: array<KVCacheBlock>, idx: nat)
      requires Valid(blocks)
      requires idx < blocks.Length && idx in order
      modifies this, blocks
      ensures Valid(blocks)
      ensures order == Without(old(order), idx)
      ensures SameMetadata(old(blocks[..]), blocks[..])
    {
      ghost var bs := blocks[..];
      ghost var k :| 0 <= k < |order| && order[k] == idx;
      RemovedAt(bs, order, k);
      var prev, next := blocks[idx].prevFree, blocks[idx].nextFree;
      match prev {
        case Some(p) => blocks[p] := blocks[p].(nextFree := next);
        case None => head := next;
      }
      match next {
        case Some(n) => blocks[n] := blocks[n].(prevFree := prev);
        case None => tail := prev;
      }
      blocks[idx] := blocks[idx].(prevFree := None, nextFree := None);
      assert blocks[..] == Bypass(bs, idx);
      len := len - 1;
      order := Without(order, idx);
    }

    /** The membership test of `touch` and `get_cached_block`: any link, or being the head. */
    lemma LinkTest(blocks: array<KVCacheBlock>, idx: nat)
      requires Valid(blocks)
      requires idx < blocks.Length
      ensures idx in order <==>
        blocks[idx].prevFree.Some? || blocks[idx].nextFree.Some? || head == Some(idx)
    {
      if idx in order {
        var k :| 0 <= k < |order| && order[k] == idx;
        assert LinkedAt(blocks[..], order, k);
      }
    }
  }
}
