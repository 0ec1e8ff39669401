/** Duplicate-free sequences and removal by value: the vocabulary of the free list and the hash index. */
module Sequences {
  import opened Wrappers

  predicate NoDup<T(==)>(s: seq<T>) {
    forall i, j :: 0 <= i < j < |s| ==> s[i] != s[j]
  }

  /** Element i, or None outside the sequence. */
  function At<T>(s: seq<T>, i: int): Option<T> {
    if 0 <= i < |s| then Some(s[i]) else None
  }

  /** All occurrences of x removed; the order of the rest is kept. */
  function Without<T(==)>(s: seq<T>, x: T): seq<T> {
    if s == [] then []
    else if s[0] == x then Without(s[1..], x)
    else [s[0]] + Without(s[1..], x)
  }

  lemma {:induction false} WithoutMembers<T>(s: seq<T>, x: T)
    ensures forall y :: y in Without(s, x) <==> y in s && y != x
  {
    if s != [] {
      WithoutMembers(s[1..], x);
      assert s == [s[0]] + s[1..];
    }
  }

  lemma {:induction false} WithoutAbsent<T>(s: seq<T>, x: T)
    requires x !in s
    ensures Without(s, x) == s
  {
    if s != [] {
      WithoutAbsent(s[1..], x);
      assert s == [s[0]] + s[1..];
    }
  }

  lemma {:induction false} WithoutAt<T>(s: seq<T>, k: nat)
    requires k < |s| && NoDup(s)
    ensures Without(s, s[k]) == s[..k] + s[k + 1..]
  {
    if k == 0 {
      WithoutAbsent(s[1..], s[0]);
    } else {
      WithoutAt(s[1..], k - 1);
      assert s[1..][..k - 1] == s[1..k];
      assert s[1..][k..] == s[k + 1..];
      assert [s[0]] + s[1..k] == s[..k];
    }
  }

  lemma WithoutNoDup<T>(s: seq<T>, x: T)
    requires NoDup(s)
    ensures NoDup(Without(s, x))
    ensures |Without(s, x)| == if x in s then |s| - 1 else |s|
  {
    if x in s {
      var k :| 0 <= k < |s| && s[k] == x;
      WithoutAt(s, k);
    } else {
      WithoutAbsent(s, x);
    }
  }

  /** Removing another value keeps the first element first. */
  lemma WithoutKeepsFirst<T>(s: seq<T>, x: T)
    requires s != [] && s[0] != x
    ensures Without(s, x) != [] && Without(s, x)[0] == s[0]
  {
  }

  lemma FirstIsMember<T>(s: seq<T>)
    ensures s == [] || s[0] in s
  {
  }

  /** A duplicate-free sequence is as long as the set of its elements is large. */
  lemma {:induction false} NoDupCardinality<T>(s: seq<T>)
    requires NoDup(s)
    ensures |set x | x in s| == |s|
  {
    if s != [] {
      NoDupCardinality(s[1..]);
      assert s == [s[0]] + s[1..];
      assert (set x | x in s) == {s[0]} + (set x | x in s[1..]);
    }
  }

  lemma SubsetCardinality<T>(a: set<T>, b: set<T>)
    requires a <= b
    ensures |a| <= |b|
    ensures |b - a| == |b| - |a|
  {
    assert a + (b - a) == b;
  }

  /** Two disjoint parts that together are as large as the whole are the whole. */
  lemma PartsFill<T>(a: set<T>, b: set<T>, whole: set<T>)
    requires a !! b && a <= whole && b <= whole && |a| + |b| == |whole|
    ensures a + b == whole
  {
    assert |a + b| == |a| + |b|;
    SubsetCardinality(a + b, whole);
    assert |whole - (a + b)| == 0;
    assert whole == a + b + (whole - (a + b));
  }

  /** As many different elements of `free` as it has are all of them. */
  lemma FullSelection<T>(ids: seq<T>, free: seq<T>)
    requires NoDup(ids) && NoDup(free) && |ids| == |free|
    requires forall x :: x in ids ==> x in free
    ensures forall x :: x in free ==> x in ids
  {
    var a, b := set x | x in ids, set x | x in free;
    NoDupCardinality(ids);
    NoDupCardinality(free);
    SubsetCardinality(a, b);
    assert |b - a| == 0;
    forall x | x in free
      ensures x in ids
    {
      assert x !in b - a;
    }
  }
}
