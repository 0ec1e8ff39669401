/** Square real matrices and vectors of size n, as functions of their indices. */
module Matrices {
  import opened RealSums

  function Dot(n: nat, u: Vec, v: Vec): real {
    Sum(n, Prod(u, v))
  }

  function Apply(n: nat, a: Mat, v: Vec): Vec {
    i => Dot(n, Row(a, i), v)
  }

  function Transpose(a: Mat): Mat {
    (i, j) => a(j, i)
  }

  function Times(n: nat, a: Mat, b: Mat): Mat {
    (i, j) => Dot(n, Row(a, i), Col(b, j))
  }

  /** The j-th unit vector. */
  function Unit(j: int): Vec {
    i => if i == j then 1.0 else 0.0
  }

  function Identity(): Mat {
    (i, j) => if i == j then 1.0 else 0.0
  }

  function Quad(n: nat, a: Mat, v: Vec): real {
    Dot(n, v, Apply(n, a, v))
  }

  ghost predicate Same(n: nat, a: Mat, b: Mat) {
    forall i, j :: 0 <= i < n && 0 <= j < n ==> a(i, j) == b(i, j)
  }

  ghost predicate Symmetric(n: nat, a: Mat) {
    forall i, j :: 0 <= i < n && 0 <= j < n ==> a(i, j) == a(j, i)
  }

  ghost predicate PosDef(n: nat, a: Mat) {
    forall v: Vec :: !Zero(n, v) ==> Quad(n, a, v) > 0.0
  }

  /** Zero above the diagonal, positive on it. */
  ghost predicate LowerPositive(n: nat, l: Mat) {
    && (forall i, j :: 0 <= i < j < n ==> l(i, j) == 0.0)
    && (forall i :: 0 <= i < n ==> l(i, i) > 0.0)
  }

  // ---------- congruence ----------

  lemma DotAgree(n: nat, u: Vec, u': Vec, v: Vec, v': Vec)
    requires Agree(n, u, u') && Agree(n, v, v')
    ensures Dot(n, u, v) == Dot(n, u', v')
  {
    SumAgree(n, Prod(u, v), Prod(u', v'));
  }

  lemma DotCommutes(n: nat, u: Vec, v: Vec)
    ensures Dot(n, u, v) == Dot(n, v, u)
  {
    SumAgree(n, Prod(u, v), Prod(v, u));
  }

  lemma DotZero(n: nat, u: Vec, v: Vec)
    requires Zero(n, v)
    ensures Dot(n, u, v) == 0.0
  {
    SumZero(n, Prod(u, v));
  }

  lemma DotUnit(n: nat, u: Vec, j: nat)
    requires j < n
    ensures Dot(n, u, Unit(j)) == u(j)
  {
    SumSingle(n, Prod(u, Unit(j)), j);
  }

  lemma ApplyAgree(n: nat, a: Mat, b: Mat, v: Vec, w: Vec)
    requires Same(n, a, b) && Agree(n, v, w)
    ensures Agree(n, Apply(n, a, v), Apply(n, b, w))
  {
    forall i | 0 <= i < n
      ensures Apply(n, a, v)(i) == Apply(n, b, w)(i)
    {
      DotAgree(n, Row(a, i), Row(b, i), v, w);
    }
  }

  lemma ApplyIdentity(n: nat, a: Mat, v: Vec)
    requires Same(n, a, Identity())
    ensures Agree(n, Apply(n, a, v), v)
  {
    forall i | 0 <= i < n
      ensures Apply(n, a, v)(i) == v(i)
    {
      DotAgree(n, Row(a, i), Unit(i), v, v);
      DotCommutes(n, Unit(i), v);
      DotUnit(n, v, i);
    }
  }

  lemma QuadAgree(n: nat, a: Mat, b: Mat, v: Vec, w: Vec)
    requires Same(n, a, b) && Agree(n, v, w)
    ensures Quad(n, a, v) == Quad(n, b, w)
  {
    ApplyAgree(n, a, b, v, w);
    DotAgree(n, v, w, Apply(n, a, v), Apply(n, b, w));
  }

  lemma PosDefSame(n: nat, a: Mat, b: Mat)
    requires Same(n, a, b) && PosDef(n, a)
    ensures PosDef(n, b)
  {
    forall v: Vec | !Zero(n, v)
      ensures Quad(n, b, v) > 0.0
    {
      QuadAgree(n, a, b, v, v);
    }
  }

  // ---------- adjoints and products ----------

  function Weighted(u: Vec, a: Mat, v: Vec): Mat {
    (i, j) => u(i) * a(i, j) * v(j)
  }

  lemma WeightedRows(n: nat, u: Vec, a: Mat, v: Vec)
    ensures Sum(n, RowSums(n, Weighted(u, a, v))) == Dot(n, u, Apply(n, a, v))
  {
    forall i | 0 <= i < n
      ensures RowSums(n, Weighted(u, a, v))(i) == Prod(u, Apply(n, a, v))(i)
    {
      SumScaled(n, u(i), Prod(Row(a, i), v));
      SumAgree(n, Row(Weighted(u, a, v), i), Scaled(u(i), Prod(Row(a, i), v)));
    }
    SumAgree(n, RowSums(n, Weighted(u, a, v)), Prod(u, Apply(n, a, v)));
  }

  lemma WeightedColumns(n: nat, u: Vec, a: Mat, v: Vec)
    ensures Sum(n, ColSums(n, Weighted(u, a, v))) == Dot(n, Apply(n, Transpose(a), u), v)
  {
    var w := Apply(n, Transpose(a), u);
    forall j | 0 <= j < n
      ensures ColSums(n, Weighted(u, a, v))(j) == Prod(w, v)(j)
    {
      SumScaled(n, v(j), Prod(Row(Transpose(a), j), u));
      SumAgree(n, Col(Weighted(u, a, v), j), Scaled(v(j), Prod(Row(Transpose(a), j), u)));
    }
    SumAgree(n, ColSums(n, Weighted(u, a, v)), Prod(w, v));
  }

  /** u . (A v) = (A^T u) . v */
  lemma Adjoint(n: nat, a: Mat, u: Vec, v: Vec)
    ensures Dot(n, u, Apply(n, a, v)) == Dot(n, Apply(n, Transpose(a), u), v)
  {
    WeightedRows(n, u, a, v);
    WeightedColumns(n, u, a, v);
    SumSwap(n, n, Weighted(u, a, v));
  }

  /** (A B) v = A (B v) */
  lemma ApplyTimes(n: nat, a: Mat, b: Mat, v: Vec)
    ensures Agree(n, Apply(n, Times(n, a, b), v), Apply(n, a, Apply(n, b, v)))
  {
    forall i | 0 <= i < n
      ensures Apply(n, Times(n, a, b), v)(i) == Apply(n, a, Apply(n, b, v))(i)
    {
      Adjoint(n, b, Row(a, i), v);
      forall j | 0 <= j < n
        ensures Row(Times(n, a, b), i)(j) == Apply(n, Transpose(b), Row(a, i))(j)
      {
        DotCommutes(n, Row(a, i), Col(b, j));
        DotAgree(n, Col(b, j), Row(Transpose(b), j), Row(a, i), Row(a, i));
      }
      DotAgree(n, Row(Times(n, a, b), i), Apply(n, Transpose(b), Row(a, i)), v, v);
    }
  }

  /** u . (A v) = (A u) . v for symmetric A */
  lemma SymmetricAdjoint(n: nat, a: Mat, u: Vec, v: Vec)
    requires Symmetric(n, a)
    ensures Dot(n, u, Apply(n, a, v)) == Dot(n, Apply(n, a, u), v)
  {
    Adjoint(n, a, u, v);
    assert Same(n, Transpose(a), a);
    ApplyAgree(n, Transpose(a), a, u, u);
    DotAgree(n, Apply(n, Transpose(a), u), Apply(n, a, u), v, v);
  }

  // ---------- triangular systems ----------

  /** L^T v = 0 only for v = 0. */
  lemma UpperInjective(n: nat, l: Mat, v: Vec)
    requires LowerPositive(n, l) && Zero(n, Apply(n, Transpose(l), v))
    ensures Zero(n, v)
  {
    UpperInjectiveFrom(n, l, v, 0);
  }

  lemma {:induction false} UpperInjectiveFrom(n: nat, l: Mat, v: Vec, m: nat)
    requires LowerPositive(n, l) && Zero(n, Apply(n, Transpose(l), v)) && m <= n
    ensures forall k :: m <= k < n ==> v(k) == 0.0
    decreases n - m
  {
    if m < n {
      UpperInjectiveFrom(n, l, v, m + 1);
      SumSingle(n, Prod(Row(Transpose(l), m), v), m);
      assert Apply(n, Transpose(l), v)(m) == l(m, m) * v(m);
    }
  }

  // ---------- L L^T ----------

  ghost predicate Factors(n: nat, l: Mat, a: Mat) {
    LowerPositive(n, l) && Same(n, a, Times(n, l, Transpose(l)))
  }

  /** A v = L (L^T v) */
  lemma ApplyFactored(n: nat, l: Mat, a: Mat, v: Vec)
    requires Factors(n, l, a)
    ensures Agree(n, Apply(n, a, v), Apply(n, l, Apply(n, Transpose(l), v)))
  {
    ApplyAgree(n, a, Times(n, l, Transpose(l)), v, v);
    ApplyTimes(n, l, Transpose(l), v);
  }

  /** v^T A v = |L^T v|^2 */
  lemma QuadFactored(n: nat, l: Mat, a: Mat, v: Vec)
    requires Factors(n, l, a)
    ensures var w := Apply(n, Transpose(l), v);
      Quad(n, a, v) == Dot(n, w, w)
  {
    var w := Apply(n, Transpose(l), v);
    ApplyFactored(n, l, a, v);
    DotAgree(n, v, v, Apply(n, a, v), Apply(n, l, w));
    Adjoint(n, l, v, w);
  }

  /** A matrix with a Cholesky factor is positive definite. */
  lemma FactoredPosDef(n: nat, l: Mat, a: Mat)
    requires Factors(n, l, a)
    ensures PosDef(n, a)
  {
    forall v: Vec | !Zero(n, v)
      ensures Quad(n, a, v) > 0.0
    {
      var w := Apply(n, Transpose(l), v);
      QuadFactored(n, l, a, v);
      SumSquares(n, w);
      if Zero(n, w) {
        UpperInjective(n, l, v);
      }
    }
  }

  // ---------- inverses ----------

  /** An inverse of a symmetric matrix is symmetric. */
  lemma InverseSymmetric(n: nat, a: Mat, x: Mat)
    requires Symmetric(n, a) && Same(n, Times(n, a, x), Identity())
    ensures Symmetric(n, x)
  {
    forall i, j | 0 <= i < n && 0 <= j < n
      ensures x(i, j) == x(j, i)
    {
      SymmetricAdjoint(n, a, Col(x, i), Col(x, j));
      InverseColumn(n, a, x, i);
      InverseColumn(n, a, x, j);
      DotAgree(n, Col(x, i), Col(x, i), Apply(n, a, Col(x, j)), Unit(j));
      DotAgree(n, Apply(n, a, Col(x, i)), Unit(i), Col(x, j), Col(x, j));
      DotUnit(n, Col(x, i), j);
      DotCommutes(n, Unit(i), Col(x, j));
      DotUnit(n, Col(x, j), i);
    }
  }

  lemma InverseColumn(n: nat, a: Mat, x: Mat, j: nat)
    requires j < n && Same(n, Times(n, a, x), Identity())
    ensures Agree(n, Apply(n, a, Col(x, j)), Unit(j))
  {
    forall i | 0 <= i < n
      ensures Apply(n, a, Col(x, j))(i) == Unit(j)(i)
    {
      assert Times(n, a, x)(i, j) == Identity()(i, j);
    }
  }

  /** A (X v) = v */
  lemma InverseRight(n: nat, a: Mat, x: Mat, v: Vec)
    requires Same(n, Times(n, a, x), Identity())
    ensures Agree(n, Apply(n, a, Apply(n, x, v)), v)
  {
    ApplyTimes(n, a, x, v);
    ApplyIdentity(n, Times(n, a, x), v);
  }

  /** X (A v) = v for symmetric A */
  lemma InverseLeft(n: nat, a: Mat, x: Mat, v: Vec)
    requires Symmetric(n, a) && Same(n, Times(n, a, x), Identity())
    ensures Agree(n, Apply(n, x, Apply(n, a, v)), v)
  {
    InverseSymmetric(n, a, x);
    forall i | 0 <= i < n
      ensures Apply(n, x, Apply(n, a, v))(i) == v(i)
    {
      SymmetricAdjoint(n, a, Row(x, i), v);
      ApplyAgree(n, a, a, Row(x, i), Col(x, i));
      InverseColumn(n, a, x, i);
      DotAgree(n, Apply(n, a, Row(x, i)), Unit(i), v, v);
      DotCommutes(n, Unit(i), v);
      DotUnit(n, v, i);
    }
  }

  /** The inverse of a symmetric positive definite matrix is positive definite. */
  lemma InversePosDef(n: nat, a: Mat, x: Mat)
    requires Symmetric(n, a) && PosDef(n, a) && Same(n, Times(n, a, x), Identity())
    ensures PosDef(n, x)
  {
    forall v: Vec | !Zero(n, v)
      ensures Quad(n, x, v) > 0.0
    {
      var u := Apply(n, x, v);
      InverseRight(n, a, x, v);
      if Zero(n, u) {
        forall i | 0 <= i < n
          ensures v(i) == 0.0
        {
          DotZero(n, Row(a, i), u);
          assert Apply(n, a, u)(i) == v(i);
        }
      }
      assert Quad(n, a, u) > 0.0;
      DotCommutes(n, u, Apply(n, a, u));
      DotAgree(n, Apply(n, a, u), v, u, u);
    }
  }
}
