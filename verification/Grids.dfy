/** Rows of a table laid out one after another in a flat buffer. */
module Grids {
  /** Entry (i, j) of a table with `cols` columns; a default outside the buffer. */
  function Cell<T>(s: seq<T>, cols: nat, i: int, j: int, default: T): T {
    if 0 <= i && 0 <= j < cols && 0 <= i * cols + j < |s| then s[i * cols + j] else default
  }

  lemma InGrid(rows: nat, cols: nat, i: nat, j: nat)
    requires i < rows && j < cols
    ensures 0 <= i * cols + j < rows * cols
  {
    assert (i + 1) * cols <= rows * cols;
  }

  lemma FlatInjective(cols: nat, i: nat, j: nat, r: nat, c: nat)
    requires j < cols && c < cols
    ensures i * cols + j == r * cols + c <==> i == r && j == c
  {
    if i < r {
      assert (i + 1) * cols <= r * cols;
    } else if r < i {
      assert (r + 1) * cols <= i * cols;
    }
  }

  lemma MulMonotone(x: int, y: int, d: nat)
    ensures x <= y ==> x * d <= y * d
  {
    if x <= y {
      assert (y - x) * d >= 0;
    }
  }

  lemma QuotientUnique(u: nat, d: nat, q: nat, rest: nat)
    requires rest < d && u == q * d + rest
    ensures u / d == q
  {
    var p := u / d;
    assert u == p * d + u % d;
    assert (p + 1) * d == p * d + d && (q + 1) * d == q * d + d;
    MulMonotone(p + 1, q, d);
    MulMonotone(q + 1, p, d);
  }

  /** t is s with entry (i, j) set to x. */
  ghost predicate PutCell<T>(s: seq<T>, t: seq<T>, rows: nat, cols: nat, i: nat, j: nat, x: T, default: T) {
    && |t| == |s|
    && forall r, c :: 0 <= r < rows && 0 <= c < cols ==>
      Cell(t, cols, r, c, default) == if r == i && c == j then x else Cell(s, cols, r, c, default)
  }

  method StoreCell<T>(a: array<T>, rows: nat, cols: nat, i: nat, j: nat, x: T, ghost default: T)
    requires a.Length == rows * cols && i < rows && j < cols
    modifies a
    ensures PutCell(old(a[..]), a[..], rows, cols, i, j, x, default)
  {
    InGrid(rows, cols, i, j);
    ghost var s := a[..];
    a[i * cols + j] := x;
    forall r, c | 0 <= r < rows && 0 <= c < cols
      ensures Cell(a[..], cols, r, c, default) == if r == i && c == j then x else Cell(s, cols, r, c, default)
    {
      InGrid(rows, cols, r, c);
      FlatInjective(cols, i, j, r, c);
    }
  }
}
