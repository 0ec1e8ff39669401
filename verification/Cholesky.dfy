/**
 Cholesky factorisation and inversion of a symmetric matrix stored row by row in a flat buffer.
 Arithmetic is over the reals; the square root is a parameter with its defining property.
 */
module Cholesky {
  import opened Wrappers
  import opened Grids
  import opened RealSums
  import opened Matrices

  type SquareRoot = real -> real

  ghost predicate IsSquareRoot(sqrt: SquareRoot) {
    forall x :: x > 0.0 ==> sqrt(x) > 0.0 && sqrt(x) * sqrt(x) == x
  }

  datatype NotPositiveDefinite = NotPositiveDefinite

  // ---------- flat buffers ----------

  /** A buffer of n rows of n, as a matrix. */
  function View(s: seq<real>, n: nat): Mat {
    (i, j) => Cell<real>(s, n, i, j, 0.0)
  }

  function VecOf(s: seq<real>): Vec {
    i => if 0 <= i < |s| then s[i] else 0.0
  }

  /** l' is l with entry (i, j) set to x. */
  ghost predicate PutEntry(n: nat, l: Mat, l': Mat, i: nat, j: nat, x: real) {
    forall r, c :: 0 <= r < n && 0 <= c < n ==> l'(r, c) == if r == i && c == j then x else l(r, c)
  }

  // ---------- one entry of the factor ----------

  /** The matrix the factorisation reads: only the lower triangle of its argument. */
  function Lower(a: Mat): Mat {
    (i, j) => if j <= i then a(i, j) else a(j, i)
  }

  predicate Before(r: int, c: int, i: nat, j: nat) {
    r < i || (r == i && c < j)
  }

  /** Rows before i and the first j entries of row i are factored; the rest is still zero. */
  ghost predicate Factored(n: nat, a: Mat, l: Mat, i: nat, j: nat) {
    && (forall r, c :: 0 <= c <= r < n && Before(r, c, i, j) ==> Dot(n, Row(l, r), Row(l, c)) == a(r, c))
    && (forall r :: 0 <= r < i && r < n ==> l(r, r) > 0.0)
    && (forall r, c :: 0 <= r < n && 0 <= c < n && (c > r || !Before(r, c, i, j)) ==> l(r, c) == 0.0)
  }

  lemma UpdatedTerm(u: real, v: real, v': real)
    ensures u * v' == u * v + u * (v' - v)
  {
  }

  /** Two sums whose terms differ at index i alone. */
  lemma SumDiffersAt(n: nat, f: Vec, g: Vec, i: nat, x: real)
    requires i < n && forall c :: 0 <= c < n ==> f(c) == g(c) + (if c == i then x else 0.0)
    ensures Sum(n, f) == Sum(n, g) + x
  {
    var d: Vec := c => if c == i then x else 0.0;
    SumSingle(n, d, i);
    SumPlus(n, g, d);
    SumAgree(n, f, Plus(g, d));
  }

  lemma DotUpdate(n: nat, u: Vec, v: Vec, v': Vec, k: nat)
    requires k < n && forall i :: 0 <= i < n && i != k ==> v'(i) == v(i)
    ensures Dot(n, u, v') == Dot(n, u, v) + u(k) * (v'(k) - v(k))
  {
    UpdatedTerm(u(k), v(k), v'(k));
    SumDiffersAt(n, Prod(u, v'), Prod(u, v), k, u(k) * (v'(k) - v(k)));
  }

  /** The inner loop's partial product is the whole one: the rest of row i is zero. */
  lemma PartialDot(n: nat, a: Mat, l: Mat, i: nat, j: nat)
    requires Factored(n, a, l, i, j) && j <= i < n
    ensures Dot(j, Row(l, i), Row(l, j)) == Dot(n, Row(l, i), Row(l, j))
  {
    SumTail(j, n, Prod(Row(l, i), Row(l, j)));
  }

  /** Products with rows other than i, or that end before column j, do not see entry (i, j). */
  lemma OldProducts(n: nat, a: Mat, l: Mat, l': Mat, i: nat, j: nat, x: real, r: nat, c: nat)
    requires Factored(n, a, l, i, j) && j <= i < n && PutEntry(n, l, l', i, j, x)
    requires c <= r < n && Before(r, c, i, j)
    ensures Dot(n, Row(l', r), Row(l', c)) == Dot(n, Row(l, r), Row(l, c))
  {
    assert Agree(n, Row(l', c), Row(l, c));
    if r == i {
      DotUpdate(n, Row(l, c), Row(l, i), Row(l', i), j);
      DotCommutes(n, Row(l, c), Row(l, i));
      DotCommutes(n, Row(l, c), Row(l', i));
    } else {
      assert Agree(n, Row(l', r), Row(l, r));
    }
    DotAgree(n, Row(l', r), Row(l', r), Row(l', c), Row(l, c));
    DotAgree(n, Row(l', r), Row(l', r), Row(l, c), Row(l, c));
    if r != i {
      DotAgree(n, Row(l', r), Row(l, r), Row(l, c), Row(l, c));
    }
  }

  lemma LastTerm(pivot: real, v: real, v': real, x: real, before: real, after: real)
    requires v == 0.0 && v' == x && after == before + pivot * (v' - v)
    ensures after == before + pivot * x
  {
  }

  /** The product of rows i and j is A's entry once l(i, j) is set. */
  lemma NewProduct(n: nat, a: Mat, l: Mat, l': Mat, i: nat, j: nat, x: real)
    requires Factored(n, a, l, i, j) && j < i < n && PutEntry(n, l, l', i, j, x)
    requires l(j, j) * x == a(i, j) - Dot(n, Row(l, i), Row(l, j))
    ensures Dot(n, Row(l', i), Row(l', j)) == a(i, j)
  {
    DotUpdate(n, Row(l, j), Row(l, i), Row(l', i), j);
    LastTerm(l(j, j), l(i, j), l'(i, j), x, Dot(n, Row(l, j), Row(l, i)), Dot(n, Row(l, j), Row(l', i)));
    DotCommutes(n, Row(l, j), Row(l, i));
    DotCommutes(n, Row(l, j), Row(l', i));
    DotAgree(n, Row(l', i), Row(l', i), Row(l', j), Row(l, j));
  }

  lemma FactorBelowDiagonal(n: nat, a: Mat, l: Mat, l': Mat, i: nat, j: nat, x: real)
    requires Factored(n, a, l, i, j) && j < i < n && PutEntry(n, l, l', i, j, x)
    requires x == (a(i, j) - Dot(n, Row(l, i), Row(l, j))) / l(j, j)
    ensures Factored(n, a, l', i, j + 1)
  {
    assert l(j, j) * x == a(i, j) - Dot(n, Row(l, i), Row(l, j));
    forall r, c | 0 <= c <= r < n && Before(r, c, i, j + 1)
      ensures Dot(n, Row(l', r), Row(l', c)) == a(r, c)
    {
      if Before(r, c, i, j) {
        OldProducts(n, a, l, l', i, j, x, r, c);
      } else {
        NewProduct(n, a, l, l', i, j, x);
      }
    }
  }

  lemma SquareUpdate(n: nat, v: Vec, v': Vec, k: nat)
    requires k < n && v(k) == 0.0 && forall i :: 0 <= i < n && i != k ==> v'(i) == v(i)
    ensures Dot(n, v', v') == Dot(n, v, v) + v'(k) * v'(k)
  {
    DotUpdate(n, v', v, v', k);
    DotCommutes(n, v', v);
    DotUpdate(n, v, v, v', k);
  }

  lemma FactorDiagonal(n: nat, a: Mat, l: Mat, l': Mat, i: nat, x: real)
    requires Factored(n, a, l, i, i) && i < n && PutEntry(n, l, l', i, i, x)
    requires x > 0.0 && x * x == a(i, i) - Dot(n, Row(l, i), Row(l, i))
    ensures Factored(n, a, l', i + 1, 0)
  {
    forall r, c | 0 <= c <= r < n && Before(r, c, i + 1, 0)
      ensures Dot(n, Row(l', r), Row(l', c)) == a(r, c)
    {
      if Before(r, c, i, i) {
        OldProducts(n, a, l, l', i, i, x, r, c);
      } else {
        SquareUpdate(n, Row(l, i), Row(l', i), i);
      }
    }
  }

  lemma FactoredWhole(n: nat, a: Mat, l: Mat)
    requires Factored(n, a, l, n, 0)
    ensures Factors(n, l, Lower(a))
  {
    forall i, j | 0 <= i < n && 0 <= j < n
      ensures Lower(a)(i, j) == Times(n, l, Transpose(l))(i, j)
    {
      DotAgree(n, Row(l, i), Row(l, i), Col(Transpose(l), j), Row(l, j));
      DotCommutes(n, Row(l, i), Row(l, j));
    }
  }

  // ---------- the pivot ----------

  function Put(v: Vec, k: int, x: real): Vec {
    i => if i == k then x else v(i)
  }

  /** A vector with v(i) = 1, nothing past i, and orthogonal to columns k .. i - 1 of the unfinished factor. */
  ghost predicate Annihilates(n: nat, l: Mat, i: nat, k: nat, v: Vec) {
    && v(i) == 1.0
    && (forall t :: i < t < n ==> v(t) == 0.0)
    && forall t :: k <= t < i && t < n ==> Dot(n, Col(l, t), v) == 0.0
  }

  /** Back substitution against the finished rows. */
  lemma {:induction false} Annihilator(n: nat, a: Mat, l: Mat, i: nat, k: nat) returns (v: Vec)
    requires Factored(n, a, l, i, i) && k <= i < n
    ensures Annihilates(n, l, i, k, v)
    decreases i - k
  {
    if k == i {
      v := Unit(i);
    } else {
      var w := Annihilator(n, a, l, i, k + 1);
      var x := w(k) - Dot(n, Col(l, k), w) / l(k, k);
      v := Put(w, k, x);
      forall t | k <= t < i && t < n
        ensures Dot(n, Col(l, t), v) == 0.0
      {
        DotUpdate(n, Col(l, t), w, v, k);
        if t == k {
          assert l(k, k) * (x - w(k)) == -Dot(n, Col(l, k), w);
        }
      }
    }
  }

  /** L L^T takes the annihilator to zero: so does L^T already. */
  lemma AnnihilatedProduct(n: nat, a: Mat, l: Mat, i: nat, v: Vec, r: nat)
    requires Factored(n, a, l, i, i) && i < n && Annihilates(n, l, i, 0, v) && r <= i
    ensures Apply(n, Times(n, l, Transpose(l)), v)(r) == 0.0
  {
    var w := Apply(n, Transpose(l), v);
    forall t | 0 <= t < n
      ensures w(t) == 0.0
    {
      DotAgree(n, Row(Transpose(l), t), Col(l, t), v, v);
      if t >= i {
        SumZero(n, Prod(Row(Transpose(l), t), v));
      }
    }
    ApplyTimes(n, l, Transpose(l), v);
    DotZero(n, Row(l, r), w);
  }

  /** Row r of A is row r of L L^T, but for the pivot entry, wherever the annihilator is not zero. */
  lemma RowOfProduct(n: nat, a: Mat, l: Mat, i: nat, v: Vec, r: nat, c: nat)
    requires Factored(n, a, l, i, i) && i < n && Annihilates(n, l, i, 0, v) && r <= i && c < n
    ensures var pivot := if r == i && c == i then a(i, i) - Dot(n, Row(l, i), Row(l, i)) else 0.0;
      Lower(a)(r, c) * v(c) == Times(n, l, Transpose(l))(r, c) * v(c) + pivot
  {
    DotAgree(n, Row(l, r), Row(l, r), Col(Transpose(l), c), Row(l, c));
    DotCommutes(n, Row(l, r), Row(l, c));
  }

  /** Row r of A, applied to the annihilator, through the unfinished factor. */
  lemma AnnihilatedRow(n: nat, a: Mat, l: Mat, i: nat, v: Vec, r: nat)
    requires Factored(n, a, l, i, i) && i < n && Annihilates(n, l, i, 0, v) && r <= i
    ensures Apply(n, Lower(a), v)(r) ==
      if r == i then a(i, i) - Dot(n, Row(l, i), Row(l, i)) else 0.0
  {
    var llt := Times(n, l, Transpose(l));
    AnnihilatedProduct(n, a, l, i, v, r);
    var pivot := if r == i then a(i, i) - Dot(n, Row(l, i), Row(l, i)) else 0.0;
    forall c | 0 <= c < n
      ensures Prod(Row(Lower(a), r), v)(c) == Prod(Row(llt, r), v)(c) + if c == i then pivot else 0.0
    {
      RowOfProduct(n, a, l, i, v, r, c);
    }
    SumDiffersAt(n, Prod(Row(Lower(a), r), v), Prod(Row(llt, r), v), i, pivot);
  }

  /** For a positive definite matrix the pivot under the square root is positive. */
  lemma PivotPositive(n: nat, a: Mat, l: Mat, i: nat)
    requires Factored(n, a, l, i, i) && i < n && PosDef(n, Lower(a))
    ensures a(i, i) - Dot(n, Row(l, i), Row(l, i)) > 0.0
  {
    var v := Annihilator(n, a, l, i, 0);
    var av := Apply(n, Lower(a), v);
    forall r | 0 <= r < n && r != i
      ensures Prod(v, av)(r) == 0.0
    {
      if r < i {
        AnnihilatedRow(n, a, l, i, v, r);
      }
    }
    AnnihilatedRow(n, a, l, i, v, i);
    SumSingle(n, Prod(v, av), i);
    assert !Zero(n, v);
    assert Quad(n, Lower(a), v) > 0.0;
  }

  // ---------- the factorisation ----------

  /** sum - l[i][0] * l[j][0] - ... - l[i][count - 1] * l[j][count - 1] */
  method SubtractProducts(l: array<real>, n: nat, i: nat, j: nat, start: real, count: nat) returns (sum: real)
    requires l.Length == n * n && i < n && j < n && count <= n
    ensures sum == start - Dot(count, Row(View(l[..], n), i), Row(View(l[..], n), j))
  {
    sum := start;
    for k := 0 to count
      invariant sum == start - Dot(k, Row(View(l[..], n), i), Row(View(l[..], n), j))
    {
      InGrid(n, n, i, k);
      InGrid(n, n, j, k);
      sum := sum - l[i * n + k] * l[j * n + k];
    }
  }

  /** Storing one cell of the buffer is setting one entry of the matrix. */
  method WriteAt(l: array<real>, n: nat, i: nat, j: nat, x: real)
    requires l.Length == n * n && i < n && j < n
    modifies l
    ensures PutEntry(n, View(old(l[..]), n), View(l[..], n), i, j, x)
  {
    StoreCell<real>(l, n, n, i, j, x, 0.0);
  }

  /** What is left of entry (i, j) once the columns before j are accounted for. */
  method Residue(matrix: seq<real>, l: array<real>, n: nat, i: nat, j: nat) returns (sum: real)
    requires |matrix| == l.Length == n * n && j <= i < n
    requires Factored(n, View(matrix, n), View(l[..], n), i, j)
    ensures sum == View(matrix, n)(i, j) - Dot(n, Row(View(l[..], n), i), Row(View(l[..], n), j))
  {
    InGrid(n, n, i, j);
    PartialDot(n, View(matrix, n), View(l[..], n), i, j);
    sum := SubtractProducts(l, n, i, j, matrix[i * n + j], j);
  }

  /** The square root of what is left on the diagonal; fails when that is not positive. */
  method FactorPivot(matrix: seq<real>, l: array<real>, n: nat, i: nat, sqrt: SquareRoot) returns (ok: bool)
    requires |matrix| == l.Length == n * n && i < n && IsSquareRoot(sqrt)
    requires Factored(n, View(matrix, n), View(l[..], n), i, i)
    modifies l
    ensures ok ==> Factored(n, View(matrix, n), View(l[..], n), i + 1, 0)
    ensures !ok ==> !PosDef(n, Lower(View(matrix, n)))
  {
    ghost var a, before := View(matrix, n), View(l[..], n);
    var sum := Residue(matrix, l, n, i, i);
    if sum <= 0.0 {
      if PosDef(n, Lower(a)) {
        PivotPositive(n, a, before, i);
      }
      return false;
    }
    WriteAt(l, n, i, i, sqrt(sum));
    FactorDiagonal(n, a, before, View(l[..], n), i, sqrt(sum));
    return true;
  }

  /** What is left below the diagonal, over the pivot of its column. */
  method FactorBelow(matrix: seq<real>, l: array<real>, n: nat, i: nat, j: nat)
    requires |matrix| == l.Length == n * n && j < i < n
    requires Factored(n, View(matrix, n), View(l[..], n), i, j)
    modifies l
    ensures Factored(n, View(matrix, n), View(l[..], n), i, j + 1)
  {
    ghost var a, before := View(matrix, n), View(l[..], n);
    var sum := Residue(matrix, l, n, i, j);
    InGrid(n, n, j, j);
    assert before(j, j) > 0.0;
    var x := sum / l[j * n + j];
    WriteAt(l, n, i, j, x);
    FactorBelowDiagonal(n, a, before, View(l[..], n), i, j, x);
  }

  /** Row i, left to right. */
  method FactorRow(matrix: seq<real>, l: array<real>, n: nat, i: nat, sqrt: SquareRoot) returns (ok: bool)
    requires |matrix| == l.Length == n * n && i < n && IsSquareRoot(sqrt)
    requires Factored(n, View(matrix, n), View(l[..], n), i, 0)
    modifies l
    ensures ok ==> Factored(n, View(matrix, n), View(l[..], n), i + 1, 0)
    ensures !ok ==> !PosDef(n, Lower(View(matrix, n)))
  {
    for j := 0 to i + 1
      invariant j <= i ==> Factored(n, View(matrix, n), View(l[..], n), i, j)
      invariant j == i + 1 ==> Factored(n, View(matrix, n), View(l[..], n), i + 1, 0)
    {
      if i == j {
        ok := FactorPivot(matrix, l, n, i, sqrt);
        if !ok {
          return;
        }
      } else {
        FactorBelow(matrix, l, n, i, j);
      }
    }
    return true;
  }

  /**
   Succeeds exactly on positive definite matrices, and then returns the lower triangular factor.
   Only the lower triangle of the argument is read.
   */
  method Factorize(matrix: seq<real>, n: nat, sqrt: SquareRoot) returns (r: Result<seq<real>, NotPositiveDefinite>)
    requires |matrix| == n * n && IsSquareRoot(sqrt)
    ensures r.Ok? <==> PosDef(n, Lower(View(matrix, n)))
    ensures r.Ok? ==> |r.value| == n * n && Factors(n, View(r.value, n), Lower(View(matrix, n)))
  {
    ghost var a := View(matrix, n);
    var l := new real[n * n](_ => 0.0);
    assert Factored(n, a, View(l[..], n), 0, 0);
    for i := 0 to n
      invariant Factored(n, a, View(l[..], n), i, 0)
    {
      var ok := FactorRow(matrix, l, n, i, sqrt);
      if !ok {
        return Err(NotPositiveDefinite);
      }
    }
    FactoredWhole(n, a, View(l[..], n));
    FactoredPosDef(n, View(l[..], n), Lower(a));
    return Ok(l[..]);
  }
}
