/** From the damped Hessian to the upper factor U of its inverse: invert, factor, transpose. */
module GptqFactor {
  import opened Wrappers
  import opened Grids
  import opened RealSums
  import opened Matrices
  import opened Cholesky
  import opened SpdInverse
  import opened Compensation

  /** Rows before `row`, and entries of that row before `col`, are transposed. */
  ghost predicate TransposedUpTo(n: nat, l: Mat, u: Mat, row: nat, col: nat) {
    forall i, j :: 0 <= i < n && 0 <= j < n && Before(i, j, row, col) ==> u(i, j) == l(j, i)
  }

  lemma TransposedEntry(n: nat, l: Mat, u: Mat, u': Mat, row: nat, col: nat, x: real)
    requires row < n && col < n && TransposedUpTo(n, l, u, row, col)
    requires PutEntry(n, u, u', row, col, x) && x == l(col, row)
    ensures TransposedUpTo(n, l, u', row, col + 1)
    ensures col + 1 == n ==> TransposedUpTo(n, l, u', row + 1, 0)
  {
  }

  method TransposeFactor(l: seq<real>, n: nat) returns (u: seq<real>)
    requires |l| == n * n
    ensures |u| == n * n && Same(n, Transpose(View(u, n)), View(l, n))
  {
    var upper := new real[n * n](_ => 0.0);
    for r := 0 to n
      invariant TransposedUpTo(n, View(l, n), View(upper[..], n), r, 0)
    {
      for c := 0 to n
        invariant TransposedUpTo(n, View(l, n), View(upper[..], n), r, c)
        invariant c == n ==> TransposedUpTo(n, View(l, n), View(upper[..], n), r + 1, 0)
      {
        ghost var before := View(upper[..], n);
        InGrid(n, n, c, r);
        var x := l[c * n + r];
        WriteAt(upper, n, r, c, x);
        TransposedEntry(n, View(l, n), before, View(upper[..], n), r, c, x);
      }
    }
    return upper[..];
  }

  /** The lower triangle of a symmetric matrix says it all. */
  lemma LowerOfSymmetric(n: nat, h: Mat, a: Mat)
    requires Symmetric(n, h) && PosDef(n, h) && Same(n, a, h)
    ensures Same(n, Lower(a), h) && PosDef(n, Lower(a))
  {
    PosDefSame(n, h, Lower(a));
  }

  lemma FactorOfLowerInverse(n: nat, h: Mat, a: Mat, x: Mat, l: Mat)
    requires Same(n, Lower(a), h) && PosDef(n, Lower(a))
    requires Same(n, Times(n, Lower(a), x), Identity()) && Factors(n, l, Lower(x))
    ensures InverseFactor(n, h, l)
  {
    InverseFactorable(n, a, x);
    TimesAgreeLeft(n, h, Lower(a), Lower(x));
    TimesAgree(n, Lower(a), Lower(x), x);
    FactorOfInverse(n, h, Lower(x), l);
  }

  /** Neither factorisation can fail on a positive definite matrix, and the result satisfies U^T U = H^-1. */
  method CompensationFactor(hessian: seq<real>, n: nat, sqrt: SquareRoot, ghost h: Mat)
      returns (r: Result<seq<real>, NotPositiveDefinite>)
    requires |hessian| == n * n && IsSquareRoot(sqrt)
    requires Same(n, View(hessian, n), h) && Symmetric(n, h) && PosDef(n, h)
    ensures r.Ok? && |r.value| == n * n && InverseFactor(n, h, Transpose(View(r.value, n)))
  {
    LowerOfSymmetric(n, h, View(hessian, n));
    var inverse := InvertSpd(hessian, n, sqrt);
    if inverse.Err? {
      return inverse;
    }
    InverseFactorable(n, View(hessian, n), View(inverse.value, n));
    var factor := Factorize(inverse.value, n, sqrt);
    if factor.Err? {
      return factor;
    }
    FactorOfLowerInverse(n, h, View(hessian, n), View(inverse.value, n), View(factor.value, n));
    var u := TransposeFactor(factor.value, n);
    InverseFactorAgree(n, h, View(factor.value, n), Transpose(View(u, n)));
    return Ok(u);
  }
}
