/** A map of fixed-size blocks with a capacity: what the offload store is to its callers. */
module BoundedMap {
  import opened Wrappers
  import opened CacheTypes

  type Key = (RequestId, BlockId)

  datatype PutError = WrongSize(actual: nat, expected: nat) | Full

  datatype Bounded = Bounded(contents: map<Key, seq<Byte>>, capacity: nat, blockBytes: nat)

  function Put(s: Bounded, key: Key, bytes: seq<Byte>): (Bounded, Result<(), PutError>) {
    if |bytes| != s.blockBytes then (s, Err(WrongSize(|bytes|, s.blockBytes)))
    else if key !in s.contents && |s.contents| >= s.capacity then (s, Err(Full))
    else (s.(contents := s.contents[key := bytes]), Ok(()))
  }

  function Get(s: Bounded, key: Key): Option<seq<Byte>> {
    if key in s.contents then Some(s.contents[key]) else None
  }

  function Remove(s: Bounded, key: Key): (Bounded, bool) {
    (s.(contents := s.contents - {key}), key in s.contents)
  }

  // ---------- histories ----------

  datatype StoreOp = PutOp(key: Key, bytes: seq<Byte>) | RemoveOp(key: Key)

  function Apply(s: Bounded, op: StoreOp): Bounded {
    match op
    case PutOp(key, bytes) => Put(s, key, bytes).0
    case RemoveOp(key) => Remove(s, key).0
  }

  function ApplyAll(s: Bounded, ops: seq<StoreOp>): Bounded
    decreases ops
  {
    if ops == [] then s else ApplyAll(Apply(s, ops[0]), ops[1..])
  }

  /** Operations on other keys, however many, leave a key's bytes alone. */
  lemma {:induction false} OtherKeysUntouched(s: Bounded, ops: seq<StoreOp>, key: Key)
    requires forall i :: 0 <= i < |ops| ==> ops[i].key != key
    ensures Get(ApplyAll(s, ops), key) == Get(s, key)
    decreases ops
  {
    if ops != [] {
      OtherKeysUntouched(Apply(s, ops[0]), ops[1..], key);
    }
  }

  /** A block that was accepted reads back the same until its own key is used again. */
  lemma ReadsBackLastPut(s: Bounded, key: Key, bytes: seq<Byte>, ops: seq<StoreOp>)
    requires Put(s, key, bytes).1.Ok?
    requires forall i :: 0 <= i < |ops| ==> ops[i].key != key
    ensures Get(ApplyAll(Put(s, key, bytes).0, ops), key) == Some(bytes)
  {
    OtherKeysUntouched(Put(s, key, bytes).0, ops, key);
  }

  /** Never more than `capacity` blocks, each of the right size, on any history. */
  lemma {:induction false} HistoryBounded(capacity: nat, blockBytes: nat, s: Bounded, ops: seq<StoreOp>)
    requires s.capacity == capacity && s.blockBytes == blockBytes && |s.contents| <= capacity
    requires forall k :: k in s.contents ==> |s.contents[k]| == blockBytes
    ensures var s' := ApplyAll(s, ops);
      && s'.capacity == capacity && s'.blockBytes == blockBytes
      && |s'.contents| <= capacity
      && forall k :: k in s'.contents ==> |s'.contents[k]| == blockBytes
    decreases ops
  {
    if ops != [] {
      var s1 := Apply(s, ops[0]);
      assert |s1.contents| <= capacity by {
        var key := ops[0].key;
        assert (s.contents - {key}).Keys == s.contents.Keys - {key};
        assert |s.contents - {key}| == |(s.contents - {key}).Keys|;
        assert |s.contents.Keys| == |s.contents|;
        if key in s.contents {
          assert ops[0].PutOp? ==> s1.contents.Keys == s.contents.Keys;
        }
        assert |s1.contents| == |s1.contents.Keys|;
      }
      HistoryBounded(capacity, blockBytes, s1, ops[1..]);
    }
  }

  /** A present key can be written again however full the store is, and reads back the new bytes. */
  lemma OverwriteReadsBack(s: Bounded, key: Key, bytes: seq<Byte>, ops: seq<StoreOp>)
    requires key in s.contents && |bytes| == s.blockBytes
    requires forall i :: 0 <= i < |ops| ==> ops[i].key != key
    ensures Put(s, key, bytes).1.Ok? && Put(s, key, bytes).0.contents.Keys == s.contents.Keys
    ensures Get(ApplyAll(Put(s, key, bytes).0, ops), key) == Some(bytes)
  {
    OtherKeysUntouched(Put(s, key, bytes).0, ops, key);
  }

  /** After a removal there is room: the next new key of the right size is accepted. */
  lemma RemoveMakesRoom(s: Bounded, gone: Key, key: Key, bytes: seq<Byte>)
    requires |s.contents| <= s.capacity && gone in s.contents && |bytes| == s.blockBytes
    ensures Put(Remove(s, gone).0, key, bytes).1.Ok?
  {
    assert (s.contents - {gone}).Keys == s.contents.Keys - {gone};
    assert |s.contents - {gone}| == |(s.contents - {gone}).Keys| && |s.contents.Keys| == |s.contents|;
  }
}
