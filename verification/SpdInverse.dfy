/** Inversion of a symmetric positive definite matrix: one forward and one backward substitution per column. */
module SpdInverse {
  import opened Wrappers
  import opened Grids
  import opened RealSums
  import opened Matrices
  import opened Cholesky

  /** Rows before `row` of L y = b hold, and y is still zero from `row` on. */
  ghost predicate SolvedDown(n: nat, l: Mat, b: Vec, y: Vec, row: nat) {
    && (forall r :: 0 <= r < row && r < n ==> Dot(n, Row(l, r), y) == b(r))
    && (forall k :: row <= k < n ==> y(k) == 0.0)
  }

  lemma SolveRowDown(n: nat, l: Mat, b: Vec, y: Vec, y': Vec, row: nat)
    requires LowerPositive(n, l) && row < n && SolvedDown(n, l, b, y, row)
    requires forall k :: 0 <= k < n && k != row ==> y'(k) == y(k)
    requires l(row, row) * y'(row) == b(row) - Dot(row, Row(l, row), y)
    ensures SolvedDown(n, l, b, y', row + 1)
  {
    SumTail(row, n, Prod(Row(l, row), y));
    forall r | 0 <= r < row + 1
      ensures Dot(n, Row(l, r), y') == b(r)
    {
      DotUpdate(n, Row(l, r), y, y', row);
    }
  }

  /** Rows from `row` on of U x = y hold, and x is still zero before `row`. */
  ghost predicate SolvedUp(n: nat, u: Mat, y: Vec, x: Vec, row: nat) {
    && (forall r :: row <= r < n ==> Dot(n, Row(u, r), x) == y(r))
    && (forall k :: 0 <= k < row && k < n ==> x(k) == 0.0)
  }

  lemma SolveRowUp(n: nat, l: Mat, y: Vec, x: Vec, x': Vec, row: nat)
    requires LowerPositive(n, l) && row < n && SolvedUp(n, Transpose(l), y, x, row + 1)
    requires forall k :: 0 <= k < n && k != row ==> x'(k) == x(k)
    requires l(row, row) * x'(row) == y(row) - Dot(n, Row(Transpose(l), row), x)
    ensures SolvedUp(n, Transpose(l), y, x', row)
  {
    forall r | row <= r < n
      ensures Dot(n, Row(Transpose(l), r), x') == y(r)
    {
      DotUpdate(n, Row(Transpose(l), r), x, x', row);
    }
  }

  /** The right-hand side of one row of L y = e_col, less what the earlier entries contribute. */
  method RowDown(chol: seq<real>, n: nat, col: nat, row: nat, y: array<real>) returns (sum: real)
    requires |chol| == n * n && y.Length == n && row < n
    ensures sum == Unit(col)(row) - Dot(row, Row(View(chol, n), row), VecOf(y[..]))
  {
    sum := if row == col then 1.0 else 0.0;
    for k := 0 to row
      invariant sum == Unit(col)(row) - Dot(k, Row(View(chol, n), row), VecOf(y[..]))
    {
      InGrid(n, n, row, k);
      sum := sum - chol[row * n + k] * y[k];
    }
  }

  /** Solves L y = e_col from the top. */
  method ForwardSolve(chol: seq<real>, n: nat, col: nat) returns (y: array<real>)
    requires |chol| == n * n && col < n && LowerPositive(n, View(chol, n))
    ensures fresh(y) && y.Length == n
    ensures Agree(n, Apply(n, View(chol, n), VecOf(y[..])), Unit(col))
  {
    ghost var l := View(chol, n);
    y := new real[n](_ => 0.0);
    for row := 0 to n
      invariant SolvedDown(n, l, Unit(col), VecOf(y[..]), row)
    {
      ghost var before := VecOf(y[..]);
      var sum := RowDown(chol, n, col, row, y);
      InGrid(n, n, row, row);
      assert l(row, row) > 0.0;
      Quotient(sum, l(row, row));
      y[row] := sum / chol[row * n + row];
      SolveRowDown(n, l, Unit(col), before, VecOf(y[..]), row);
    }
  }

  /** The right-hand side of one row of L^T x = y, less what the later entries contribute. */
  method RowUp(chol: seq<real>, n: nat, y: array<real>, row: nat, x: array<real>) returns (sum: real)
    requires |chol| == n * n && y.Length == x.Length == n && row < n
    requires forall k :: 0 <= k < row + 1 ==> x[k] == 0.0
    ensures sum == y[row] - Dot(n, Row(Transpose(View(chol, n)), row), VecOf(x[..]))
  {
    ghost var u := Transpose(View(chol, n));
    sum := y[row];
    SumZero(row + 1, Prod(Row(u, row), VecOf(x[..])));
    for k := row + 1 to n
      invariant sum == y[row] - Dot(k, Row(u, row), VecOf(x[..]))
    {
      InGrid(n, n, k, row);
      sum := sum - chol[k * n + row] * x[k];
    }
  }

  /** Solves L^T x = y from the bottom. */
  method BackwardSolve(chol: seq<real>, n: nat, y: array<real>) returns (x: array<real>)
    requires |chol| == n * n && y.Length == n && LowerPositive(n, View(chol, n))
    ensures fresh(x) && x.Length == n
    ensures Agree(n, Apply(n, Transpose(View(chol, n)), VecOf(x[..])), VecOf(y[..]))
  {
    ghost var l := View(chol, n);
    x := new real[n](_ => 0.0);
    for row := n downto 0
      invariant SolvedUp(n, Transpose(l), VecOf(y[..]), VecOf(x[..]), row)
    {
      ghost var before := VecOf(x[..]);
      assert forall k :: 0 <= k < row + 1 ==> x[k] == before(k) == 0.0;
      var sum := RowUp(chol, n, y, row, x);
      InGrid(n, n, row, row);
      assert l(row, row) > 0.0;
      Quotient(sum, l(row, row));
      x[row] := sum / chol[row * n + row];
      SolveRowUp(n, l, VecOf(y[..]), before, VecOf(x[..]), row);
    }
  }

  /** A x = e_col, when L y = e_col and L^T x = y. */
  lemma SolvedColumn(n: nat, l: Mat, a: Mat, x: Vec, y: Vec, col: nat)
    requires Factors(n, l, a)
    requires Agree(n, Apply(n, l, y), Unit(col)) && Agree(n, Apply(n, Transpose(l), x), y)
    ensures Agree(n, Apply(n, a, x), Unit(col))
  {
    ApplyFactored(n, l, a, x);
    ApplyAgree(n, l, l, Apply(n, Transpose(l), x), y);
  }

  /** The first `cols` columns of x are columns of the inverse. */
  ghost predicate Inverted(n: nat, a: Mat, x: Mat, cols: nat) {
    forall r, c :: 0 <= r < n && 0 <= c < cols ==> Times(n, a, x)(r, c) == Identity()(r, c)
  }

  lemma ColumnInverted(n: nat, a: Mat, x: Mat, x': Mat, v: Vec, col: nat)
    requires col < n && Inverted(n, a, x, col) && Agree(n, Apply(n, a, v), Unit(col))
    requires forall r, c :: 0 <= r < n && 0 <= c < n ==> x'(r, c) == if c == col then v(r) else x(r, c)
    ensures Inverted(n, a, x', col + 1)
  {
    forall r, c | 0 <= r < n && 0 <= c < col + 1
      ensures Times(n, a, x')(r, c) == Identity()(r, c)
    {
      if c == col {
        DotAgree(n, Row(a, r), Row(a, r), Col(x', c), v);
        assert Apply(n, a, v)(r) == Unit(col)(r);
      } else {
        DotAgree(n, Row(a, r), Row(a, r), Col(x', c), Col(x, c));
        assert Times(n, a, x)(r, c) == Identity()(r, c);
      }
    }
  }

  /** Copies a column into the inverse. */
  method StoreColumn(inv: array<real>, n: nat, col: nat, x: array<real>)
    requires inv.Length == n * n && x.Length == n && col < n && inv != x
    modifies inv
    ensures forall r, c :: 0 <= r < n && 0 <= c < n ==>
      View(inv[..], n)(r, c) == if c == col then x[r] else View(old(inv[..]), n)(r, c)
  {
    ghost var before := View(inv[..], n);
    for row := 0 to n
      invariant forall r, c :: 0 <= r < n && 0 <= c < n ==>
        View(inv[..], n)(r, c) == if c == col && r < row then x[r] else before(r, c)
    {
      ghost var l := View(inv[..], n);
      WriteAt(inv, n, row, col, x[row]);
      assert PutEntry(n, l, View(inv[..], n), row, col, x[row]);
      forall r, c | 0 <= r < n && 0 <= c < n
        ensures View(inv[..], n)(r, c) == if c == col && r < row + 1 then x[r] else before(r, c)
      {
        assert View(inv[..], n)(r, c) == if r == row && c == col then x[row] else l(r, c);
      }
    }
  }

  /** Succeeds exactly on positive definite matrices, and then returns the inverse. */
  method InvertSpd(matrix: seq<real>, n: nat, sqrt: SquareRoot) returns (r: Result<seq<real>, NotPositiveDefinite>)
    requires |matrix| == n * n && IsSquareRoot(sqrt)
    ensures r.Ok? <==> PosDef(n, Lower(View(matrix, n)))
    ensures r.Ok? ==>
      |r.value| == n * n && Same(n, Times(n, Lower(View(matrix, n)), View(r.value, n)), Identity())
  {
    ghost var a := Lower(View(matrix, n));
    var factored := Factorize(matrix, n, sqrt);
    if factored.Err? {
      return factored;
    }
    var chol := factored.value;
    var inv := new real[n * n](_ => 0.0);
    for col := 0 to n
      invariant Inverted(n, a, View(inv[..], n), col)
    {
      ghost var before := View(inv[..], n);
      var y := ForwardSolve(chol, n, col);
      var x := BackwardSolve(chol, n, y);
      SolvedColumn(n, View(chol, n), a, VecOf(x[..]), VecOf(y[..]), col);
      StoreColumn(inv, n, col, x);
      ColumnInverted(n, a, before, View(inv[..], n), VecOf(x[..]), col);
    }
    return Ok(inv[..]);
  }

  /** What the inverse of a symmetric positive definite matrix inherits, so that it can be factored in turn. */
  lemma InverseFactorable(n: nat, a: Mat, x: Mat)
    requires PosDef(n, Lower(a)) && Same(n, Times(n, Lower(a), x), Identity())
    ensures Symmetric(n, x) && PosDef(n, x) && PosDef(n, Lower(x)) && Same(n, x, Lower(x))
  {
    assert Symmetric(n, Lower(a));
    InverseSymmetric(n, Lower(a), x);
    InversePosDef(n, Lower(a), x);
    PosDefSame(n, x, Lower(x));
  }
}
