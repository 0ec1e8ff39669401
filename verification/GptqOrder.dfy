/** The order in which columns are quantized, and the group of each original column. */
module GptqOrder {
  import opened Sequences

  type Key = nat -> real

  /** order lists 0 .. n - 1, each once. */
  ghost predicate IsPermutation(order: seq<nat>, n: nat) {
    |order| == n && NoDup(order) && forall i :: 0 <= i < n ==> order[i] < n
  }

  /** Larger keys first, equal keys by index. */
  predicate Before(x: nat, y: nat, key: Key) {
    key(x) > key(y) || (key(x) == key(y) && x < y)
  }

  ghost predicate Ordered(order: seq<nat>, key: Key) {
    forall i, j :: 0 <= i < j < |order| ==> Before(order[i], order[j], key)
  }

  /** Puts x behind everything that is not smaller. */
  function Insert(order: seq<nat>, x: nat, key: Key): (r: seq<nat>)
    ensures |r| == |order| + 1
  {
    if order == [] then [x]
    else
      var init, last := order[..|order| - 1], order[|order| - 1];
      if key(last) >= key(x) then order + [x] else Insert(init, x, key) + [last]
  }

  lemma {:induction false} InsertMembers(order: seq<nat>, x: nat, key: Key)
    ensures forall y: nat :: y in Insert(order, x, key) <==> y == x || y in order
  {
    if order != [] {
      var init, last := order[..|order| - 1], order[|order| - 1];
      assert order == init + [last];
      InsertMembers(init, x, key);
    }
  }

  lemma {:induction false} InsertOrdered(order: seq<nat>, x: nat, key: Key)
    requires Ordered(order, key) && forall i :: 0 <= i < |order| ==> order[i] < x
    ensures Ordered(Insert(order, x, key), key)
  {
    if order != [] {
      var init, last := order[..|order| - 1], order[|order| - 1];
      if key(last) < key(x) {
        InsertOrdered(init, x, key);
        InsertMembers(init, x, key);
        var r := Insert(init, x, key);
        forall i | 0 <= i < |r|
          ensures Before(r[i], last, key)
        {
          assert r[i] in r;
          if r[i] != x {
            var k :| 0 <= k < |init| && init[k] == r[i];
            assert order[k] == init[k];
          }
        }
      }
    }
  }

  /** 0 .. n - 1 sorted by descending key; the sort is stable. */
  function SortedByKey(n: nat, key: Key): (r: seq<nat>)
    ensures |r| == n
  {
    if n == 0 then [] else Insert(SortedByKey(n - 1, key), n - 1, key)
  }

  ghost predicate SortedBelow(order: seq<nat>, n: nat, key: Key) {
    Ordered(order, key) && forall i :: 0 <= i < |order| ==> order[i] < n
  }

  lemma InsertNext(order: seq<nat>, n: nat, key: Key, r: seq<nat>)
    requires SortedBelow(order, n, key) && r == Insert(order, n, key)
    ensures SortedBelow(r, n + 1, key)
  {
    InsertOrdered(order, n, key);
    InsertMembers(order, n, key);
    forall i | 0 <= i < |r|
      ensures r[i] < n + 1
    {
      assert r[i] in r;
    }
  }

  lemma {:induction false} SortedByKeyCorrect(n: nat, key: Key)
    ensures SortedBelow(SortedByKey(n, key), n, key)
  {
    if n > 0 {
      SortedByKeyCorrect(n - 1, key);
      InsertNext(SortedByKey(n - 1, key), n - 1, key, SortedByKey(n, key));
    }
  }

  lemma SortedPermutation(n: nat, key: Key)
    ensures IsPermutation(SortedByKey(n, key), n) && Ordered(SortedByKey(n, key), key)
  {
    SortedByKeyCorrect(n, key);
  }

  /** 0 .. n - 1 in order. */
  function Identity(n: nat): (r: seq<nat>)
    ensures |r| == n && forall i :: 0 <= i < n ==> r[i] == i
  {
    seq(n, i requires 0 <= i < n => i)
  }

  function ColumnOrder(n: nat, key: Key, actOrder: bool): seq<nat> {
    if actOrder then SortedByKey(n, key) else Identity(n)
  }

  /** Whatever the switch, the order is a permutation; with it, the most active columns come first. */
  lemma ColumnOrderCorrect(n: nat, key: Key, actOrder: bool)
    ensures IsPermutation(ColumnOrder(n, key, actOrder), n)
    ensures actOrder ==> Ordered(ColumnOrder(n, key, actOrder), key)
  {
    SortedPermutation(n, key);
  }

  /** Every column has its turn. */
  lemma EveryColumnOrdered(order: seq<nat>, n: nat, column: nat) returns (p: nat)
    requires IsPermutation(order, n) && column < n
    ensures p < n && order[p] == column
  {
    var all := Identity(n);
    forall x | x in order
      ensures x in all
    {
      assert all[x] == x;
    }
    FullSelection(order, all);
    assert all[column] == column && column in all && column in order;
    p :| 0 <= p < n && order[p] == column;
  }

  // ---------- groups ----------

  /** Columns are grouped by their turn, not by their index. */
  ghost predicate GroupIndex(order: seq<nat>, groupSize: nat, gIdx: seq<nat>)
    requires groupSize > 0
  {
    && |gIdx| == |order|
    && forall p :: 0 <= p < |order| ==> order[p] < |gIdx| && gIdx[order[p]] == p / groupSize
  }

  method MakeGroupIndex(inFeatures: nat, groupSize: nat, order: seq<nat>) returns (gIdx: seq<nat>)
    requires groupSize > 0 && IsPermutation(order, inFeatures)
    ensures GroupIndex(order, groupSize, gIdx)
  {
    var g := new nat[inFeatures](_ => 0);
    for p := 0 to inFeatures
      invariant forall q :: 0 <= q < p ==> g[order[q]] == q / groupSize
    {
      g[order[p]] := p / groupSize;
    }
    gIdx := g[..];
  }

  /** The number of groups is one more than the largest group, as long as there is a column. */
  method NumGroups(gIdx: seq<nat>) returns (n: nat)
    ensures gIdx == [] ==> n == 0
    ensures gIdx != [] ==> n > 0 && n - 1 in gIdx
    ensures forall i :: 0 <= i < |gIdx| ==> gIdx[i] < n
  {
    n := 0;
    for i := 0 to |gIdx|
      invariant i == 0 ==> n == 0
      invariant i > 0 ==> n > 0 && n - 1 in gIdx
      invariant forall j :: 0 <= j < i ==> gIdx[j] < n
    {
      if gIdx[i] + 1 > n {
        n := gIdx[i] + 1;
      }
    }
  }
}
