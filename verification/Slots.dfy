/** Physical slots of the GPU cache: block * blockSize + offset. */
module Slots {
  import opened CacheTypes

  function Slot(blockSize: nat, b: BlockId, offset: nat): nat {
    b * blockSize + offset
  }

  /** The slot of each (block, offset) pair, in order. */
  function ComputeSlots(blockSize: nat, positions: seq<(BlockId, nat)>): (slots: seq<nat>)
    ensures |slots| == |positions|
    ensures forall i :: 0 <= i < |slots| ==> slots[i] == positions[i].0 * blockSize + positions[i].1
  {
    if positions == [] then []
    else [Slot(blockSize, positions[0].0, positions[0].1)] + ComputeSlots(blockSize, positions[1..])
  }

  lemma SlotOrder(blockSize: nat, b: BlockId, o: nat, b': BlockId, o': nat)
    requires o < blockSize && b < b'
    ensures Slot(blockSize, b, o) < Slot(blockSize, b', o')
  {
    assert (b + 1) * blockSize <= b' * blockSize;
  }

  /** In-block offsets make slots unique. */
  lemma SlotInjective(blockSize: nat, b: BlockId, o: nat, b': BlockId, o': nat)
    requires o < blockSize && o' < blockSize
    ensures Slot(blockSize, b, o) == Slot(blockSize, b', o') <==> b == b' && o == o'
  {
    if b < b' {
      SlotOrder(blockSize, b, o, b', o');
    } else if b' < b {
      SlotOrder(blockSize, b', o', b, o);
    }
  }
}
