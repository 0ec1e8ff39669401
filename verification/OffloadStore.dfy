/** CPU storage for evicted KV blocks: slots of one flat byte buffer, used as a bounded map. */
module OffloadStore {
  import opened Wrappers
  import opened Sequences
  import opened CacheTypes
  import BM = BoundedMap

  // ---------- slots ----------

  /** The bytes of a slot; empty for a slot the buffer does not have. */
  function SlotBytes(storage: seq<Byte>, slot: nat, blockBytes: nat): seq<Byte> {
    var offset := slot * blockBytes;
    if offset + blockBytes <= |storage| then storage[offset..offset + blockBytes] else []
  }

  lemma SlotFits(slot: nat, capacity: nat, blockBytes: nat)
    requires slot < capacity
    ensures slot * blockBytes + blockBytes <= capacity * blockBytes
  {
    assert (slot + 1) * blockBytes <= capacity * blockBytes;
  }

  /** Different slots do not overlap in the buffer. */
  lemma SlotsApart(a: nat, b: nat, blockBytes: nat)
    requires a != b
    ensures a * blockBytes + blockBytes <= b * blockBytes || b * blockBytes + blockBytes <= a * blockBytes
  {
    if a < b {
      assert (a + 1) * blockBytes <= b * blockBytes;
    } else {
      assert (b + 1) * blockBytes <= a * blockBytes;
    }
  }

  /** Free and used slots are 0 .. capacity - 1, each exactly once. */
  ghost predicate Partition(free: seq<nat>, slots: map<BM.Key, nat>, capacity: nat) {
    && NoDup(free)
    && (forall i :: 0 <= i < |free| ==> free[i] < capacity)
    && (forall k :: k in slots ==> slots[k] < capacity && slots[k] !in free)
    && (forall k, l :: k in slots && l in slots && k != l ==> slots[k] != slots[l])
    && |free| + |slots| == capacity
  }

  lemma PopPartition(free: seq<nat>, slots: map<BM.Key, nat>, capacity: nat, key: BM.Key)
    requires Partition(free, slots, capacity) && free != [] && key !in slots
    ensures Partition(free[..|free| - 1], slots[key := free[|free| - 1]], capacity)
  {
    var rest, slot := free[..|free| - 1], free[|free| - 1];
    assert free == rest + [slot];
    assert slot !in rest;
  }

  lemma PushPartition(free: seq<nat>, slots: map<BM.Key, nat>, capacity: nat, key: BM.Key)
    requires Partition(free, slots, capacity) && key in slots
    ensures Partition(free + [slots[key]], slots - {key}, capacity)
  {
    assert (slots - {key}).Keys == slots.Keys - {key};
    assert |slots - {key}| == |(slots - {key}).Keys| == |slots.Keys| - 1;
    forall k | k in slots - {key}
      ensures (slots - {key})[k] !in free + [slots[key]]
    {
      assert k != key && slots[k] != slots[key];
    }
  }

  /** Keys with a slot each have as many slots as keys. */
  lemma {:induction false} SlotCount(slots: map<BM.Key, nat>)
    requires forall k, l :: k in slots && l in slots && k != l ==> slots[k] != slots[l]
    ensures |slots.Values| == |slots|
    decreases |slots|
  {
    if slots != map[] {
      var key :| key in slots;
      var rest := slots - {key};
      assert rest.Keys == slots.Keys - {key};
      assert |rest| == |rest.Keys| == |slots.Keys| - 1;
      SlotCount(rest);
      forall slot | slot in slots.Values
        ensures slot in rest.Values + {slots[key]}
      {
        var k :| k in slots && slots[k] == slot;
        assert k != key ==> k in rest;
      }
      assert slots.Values == rest.Values + {slots[key]};
    }
  }

  /** The numbers below n, as a set of the right size. */
  lemma Below(n: nat) returns (all: set<nat>)
    ensures |all| == n && forall i: nat :: i in all <==> i < n
  {
    var numbers: seq<nat> := seq(n, i => i);
    NoDupCardinality(numbers);
    all := set i | i in numbers;
    forall i: nat | i < n
      ensures i in all
    {
      assert numbers[i] == i;
    }
  }

  /** No slot is ever lost: each is on the free stack or holds some key's block. */
  lemma PartitionCovers(free: seq<nat>, slots: map<BM.Key, nat>, capacity: nat, slot: nat)
    requires Partition(free, slots, capacity) && slot < capacity
    ensures slot in free || exists k :: k in slots && slots[k] == slot
  {
    var idle := set i | i in free;
    var all := Below(capacity);
    NoDupCardinality(free);
    SlotCount(slots);
    PartsFill(idle, slots.Values, all);
    assert slot in idle + slots.Values;
  }

  function Contents(slots: map<BM.Key, nat>, storage: seq<Byte>, blockBytes: nat): map<BM.Key, seq<Byte>> {
    map k | k in slots :: SlotBytes(storage, slots[k], blockBytes)
  }

  lemma ContentsKeys(slots: map<BM.Key, nat>, storage: seq<Byte>, blockBytes: nat)
    ensures Contents(slots, storage, blockBytes).Keys == slots.Keys
    ensures |Contents(slots, storage, blockBytes)| == |slots|
  {
    var contents := Contents(slots, storage, blockBytes);
    assert |contents| == |contents.Keys| && |slots| == |slots.Keys|;
  }

  lemma ContentsWithout(slots: map<BM.Key, nat>, storage: seq<Byte>, blockBytes: nat, key: BM.Key)
    ensures Contents(slots - {key}, storage, blockBytes) == Contents(slots, storage, blockBytes) - {key}
  {
  }

  /** Only the written slot changed. */
  ghost predicate WroteSlot(storage: seq<Byte>, storage': seq<Byte>, slot: nat, bytes: seq<Byte>) {
    && |storage'| == |storage|
    && slot * |bytes| + |bytes| <= |storage|
    && storage' == storage[..slot * |bytes|] + bytes + storage[slot * |bytes| + |bytes|..]
  }

  lemma WroteOwnSlot(storage: seq<Byte>, storage': seq<Byte>, slot: nat, bytes: seq<Byte>)
    requires WroteSlot(storage, storage', slot, bytes)
    ensures SlotBytes(storage', slot, |bytes|) == bytes
  {
  }

  lemma WroteOtherSlot(storage: seq<Byte>, storage': seq<Byte>, slot: nat, bytes: seq<Byte>, other: nat)
    requires WroteSlot(storage, storage', slot, bytes) && other != slot
    requires other * |bytes| + |bytes| <= |storage|
    ensures SlotBytes(storage', other, |bytes|) == SlotBytes(storage, other, |bytes|)
  {
    SlotsApart(slot, other, |bytes|);
  }

  /** Writing a block into a slot no other key uses changes that key's contents only. */
  lemma WroteContents(slots: map<BM.Key, nat>, storage: seq<Byte>, storage': seq<Byte>, key: BM.Key, slot: nat,
    bytes: seq<Byte>, capacity: nat)
    requires |storage| == capacity * |bytes| && slot < capacity
    requires forall k :: k in slots ==> slots[k] < capacity && (k != key ==> slots[k] != slot)
    requires WroteSlot(storage, storage', slot, bytes)
    ensures Contents(slots[key := slot], storage', |bytes|)
         == Contents(slots, storage, |bytes|)[key := bytes]
  {
    WroteOwnSlot(storage, storage', slot, bytes);
    forall k | k in slots && k != key
      ensures SlotBytes(storage', slots[k], |bytes|) == SlotBytes(storage, slots[k], |bytes|)
    {
      SlotFits(slots[k], capacity, |bytes|);
      WroteOtherSlot(storage, storage', slot, bytes, slots[k]);
    }
  }

  // ---------- the store ----------

  datatype Usage = Usage(capacityBlocks: nat, usedBlocks: nat, freeBlocks: nat)

  class CpuKvOffloadStore {
    const blockSizeBytes: nat
    const capacityBlocks: nat
    var freeSlots: seq<nat>
    var slots: map<BM.Key, nat>
    const storage: array<Byte>

    ghost predicate Valid()
      reads this, storage
    {
      && storage.Length == capacityBlocks * blockSizeBytes
      && Partition(freeSlots, slots, capacityBlocks)
    }

    ghost function Abs(): BM.Bounded
      reads this, storage
    {
      BM.Bounded(Contents(slots, storage[..], blockSizeBytes), capacityBlocks, blockSizeBytes)
    }

    constructor (capacityBlocks: nat, blockSizeBytes: nat)
      ensures Valid() && Abs() == BM.Bounded(map[], capacityBlocks, blockSizeBytes)
      ensures fresh(storage)
    {
      this.capacityBlocks, this.blockSizeBytes := capacityBlocks, blockSizeBytes;
      freeSlots := seq(capacityBlocks, i => capacityBlocks - 1 - i);
      slots := map[];
      storage := new Byte[capacityBlocks * blockSizeBytes](_ => 0);
    }

    /** Copies a block into its slot, byte by byte. */
    method CopyIn(slot: nat, bytes: seq<Byte>)
      requires slot * |bytes| + |bytes| <= storage.Length
      modifies storage
      ensures WroteSlot(old(storage[..]), storage[..], slot, bytes)
    {
      var offset := slot * |bytes|;
      forall i | 0 <= i < |bytes| {
        storage[offset + i] := bytes[i];
      }
      assert storage[..] == old(storage[..])[..offset] + bytes + old(storage[..])[offset + |bytes|..];
    }

    /** The slot of a known key, or one popped from the free stack; None when that is empty. */
    method TakeSlot(key: BM.Key) returns (r: Option<nat>)
      requires Valid()
      modifies this`freeSlots
      ensures r.None? <==> key !in slots && old(freeSlots) == []
      ensures r.None? ==> freeSlots == old(freeSlots)
      ensures r.Some? ==> Partition(freeSlots, slots[key := r.value], capacityBlocks)
      ensures key in slots ==> freeSlots == old(freeSlots) && r == Some(slots[key])
      ensures r.Some? ==> r.value < capacityBlocks && forall k :: k in slots && k != key ==> slots[k] != r.value
    {
      if key in slots {
        assert slots[key := slots[key]] == slots;
        return Some(slots[key]);
      }
      if freeSlots == [] {
        return None;
      }
      var slot := freeSlots[|freeSlots| - 1];
      assert slot in freeSlots;
      PopPartition(freeSlots, slots, capacityBlocks, key);
      freeSlots := freeSlots[..|freeSlots| - 1];
      return Some(slot);
    }

    /** Writes a block into the slot taken for its key. */
    method Write(key: BM.Key, slot: nat, bytes: seq<Byte>)
      requires storage.Length == capacityBlocks * blockSizeBytes && |bytes| == blockSizeBytes
      requires Partition(freeSlots, slots[key := slot], capacityBlocks) && slot < capacityBlocks
      requires forall k :: k in slots ==> slots[k] < capacityBlocks && (k != key ==> slots[k] != slot)
      modifies this`slots, storage
      ensures Valid() && slots == old(slots)[key := slot]
      ensures Abs().contents == old(Abs().contents)[key := bytes]
    {
      ghost var before := storage[..];
      SlotFits(slot, capacityBlocks, blockSizeBytes);
      CopyIn(slot, bytes);
      WroteContents(slots, before, storage[..], key, slot, bytes, capacityBlocks);
      slots := slots[key := slot];
    }

    method Put(requestId: RequestId, blockId: BlockId, bytes: seq<Byte>) returns (r: Result<(), BM.PutError>)
      requires Valid()
      modifies this, storage
      ensures Valid()
      ensures Abs() == BM.Put(old(Abs()), (requestId, blockId), bytes).0
      ensures r == BM.Put(old(Abs()), (requestId, blockId), bytes).1
      ensures r.Err? <==>
        |bytes| != blockSizeBytes || ((requestId, blockId) !in old(slots) && |old(slots)| == capacityBlocks)
      ensures r.Err? ==>
        r.error == (if |bytes| != blockSizeBytes then BM.WrongSize(|bytes|, blockSizeBytes) else BM.Full)
      ensures r.Err? ==> slots == old(slots) && freeSlots == old(freeSlots) && storage[..] == old(storage[..])
      ensures r.Ok? ==> Abs().contents == old(Abs().contents)[(requestId, blockId) := bytes]
      ensures r.Ok? && (requestId, blockId) in old(slots) ==> slots == old(slots) && freeSlots == old(freeSlots)
    {
      if |bytes| != blockSizeBytes {
        return Err(BM.WrongSize(|bytes|, blockSizeBytes));
      }
      ContentsKeys(slots, storage[..], blockSizeBytes);
      var key := (requestId, blockId);
      var taken := TakeSlot(key);
      match taken {
        case None =>
          return Err(BM.Full);
        case Some(slot) =>
          Write(key, slot, bytes);
          return Ok(());
      }
    }

    method Get(requestId: RequestId, blockId: BlockId) returns (r: Option<seq<Byte>>)
      requires Valid()
      ensures r == BM.Get(Abs(), (requestId, blockId))
      ensures r.Some? <==> (requestId, blockId) in slots
      ensures r.Some? ==> r.value == Abs().contents[(requestId, blockId)]
    {
      var key := (requestId, blockId);
      if key !in slots {
        return None;
      }
      SlotFits(slots[key], capacityBlocks, blockSizeBytes);
      var offset := slots[key] * blockSizeBytes;
      return Some(storage[offset..offset + blockSizeBytes]);
    }

    method Remove(requestId: RequestId, blockId: BlockId) returns (r: bool)
      requires Valid()
      modifies this
      ensures Valid()
      ensures Abs() == BM.Remove(old(Abs()), (requestId, blockId)).0
      ensures r == BM.Remove(old(Abs()), (requestId, blockId)).1
      ensures r <==> (requestId, blockId) in old(slots)
      ensures slots == old(slots) - {(requestId, blockId)}
      ensures r ==> freeSlots == old(freeSlots) + [old(slots)[(requestId, blockId)]]
    {
      var key := (requestId, blockId);
      ContentsWithout(slots, storage[..], blockSizeBytes, key);
      if key !in slots {
        assert slots - {key} == slots;
        return false;
      }
      PushPartition(freeSlots, slots, capacityBlocks, key);
      freeSlots := freeSlots + [slots[key]];
      slots := slots - {key};
      return true;
    }

    method GetUsage() returns (u: Usage)
      requires Valid()
      ensures u.capacityBlocks == capacityBlocks && u.usedBlocks == |Abs().contents|
      ensures u.usedBlocks + u.freeBlocks == u.capacityBlocks
    {
      ContentsKeys(slots, storage[..], blockSizeBytes);
      u := Usage(capacityBlocks, |slots|, |freeSlots|);
    }
  }
}
