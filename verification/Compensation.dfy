/**
 Quadratic loss e^T H e in the coordinates of a factor L of H^-1: with e = L c it is |c|^2. Fixing the first
 p entries of e fixes the first p entries of c, and the least loss leaves the others zero.
 */
module Compensation {
  import opened RealSums
  import opened Matrices

  /** L is lower triangular with positive diagonal, and L L^T is the inverse of H. */
  ghost predicate InverseFactor(n: nat, h: Mat, l: Mat) {
    LowerPositive(n, l) && Same(n, Times(n, h, Times(n, l, Transpose(l))), Identity())
  }

  lemma TimesAgree(n: nat, a: Mat, b: Mat, b': Mat)
    requires Same(n, b, b')
    ensures Same(n, Times(n, a, b), Times(n, a, b'))
  {
    forall i, j | 0 <= i < n && 0 <= j < n
      ensures Times(n, a, b)(i, j) == Times(n, a, b')(i, j)
    {
      DotAgree(n, Row(a, i), Row(a, i), Col(b, j), Col(b', j));
    }
  }

  lemma TimesAgreeLeft(n: nat, a: Mat, a': Mat, b: Mat)
    requires Same(n, a, a')
    ensures Same(n, Times(n, a, b), Times(n, a', b))
  {
    forall i, j | 0 <= i < n && 0 <= j < n
      ensures Times(n, a, b)(i, j) == Times(n, a', b)(i, j)
    {
      DotAgree(n, Row(a, i), Row(a', i), Col(b, j), Col(b, j));
    }
  }

  /** A factor of an inverse is an inverse factor. */
  lemma FactorOfInverse(n: nat, h: Mat, x: Mat, l: Mat)
    requires Same(n, Times(n, h, x), Identity()) && Factors(n, l, x)
    ensures InverseFactor(n, h, l)
  {
    TimesAgree(n, h, x, Times(n, l, Transpose(l)));
  }

  lemma InverseFactorAgree(n: nat, h: Mat, l: Mat, l': Mat)
    requires Same(n, l, l') && InverseFactor(n, h, l)
    ensures InverseFactor(n, h, l')
  {
    assert Same(n, Transpose(l), Transpose(l'));
    TimesAgree(n, l, Transpose(l), Transpose(l'));
    TimesAgreeLeft(n, l, l', Transpose(l'));
    TimesAgree(n, h, Times(n, l, Transpose(l)), Times(n, l', Transpose(l')));
  }

  /** Every e is L c for c = L^T H e, and its loss is |c|^2. */
  lemma WhitenedLoss(n: nat, h: Mat, l: Mat, e: Vec) returns (c: Vec)
    requires Symmetric(n, h) && InverseFactor(n, h, l)
    ensures Agree(n, Apply(n, l, c), e) && Quad(n, h, e) == Dot(n, c, c)
  {
    var x, y := Times(n, l, Transpose(l)), Apply(n, h, e);
    c := Apply(n, Transpose(l), y);
    InverseLeft(n, h, x, e);
    ApplyFactored(n, l, x, y);
    Adjoint(n, l, y, c);
    DotAgree(n, e, Apply(n, l, c), y, y);
    DotCommutes(n, y, Apply(n, l, c));
  }

  lemma LastCoordinate(u: Vec, c: Vec, c': Vec, i: nat)
    requires Dot(i + 1, u, c) == Dot(i + 1, u, c') && Agree(i, c, c') && u(i) > 0.0
    ensures c(i) == c'(i)
  {
    DotAgree(i, u, u, c, c');
    CancelFactor(u(i), c(i), c'(i));
  }

  /** The first p entries of L c determine the first p of c. */
  lemma {:induction false} CoordinatesUnique(n: nat, l: Mat, c: Vec, c': Vec, p: nat)
    requires LowerPositive(n, l) && p <= n && Agree(p, Apply(n, l, c), Apply(n, l, c'))
    ensures Agree(p, c, c')
  {
    if p > 0 {
      var u := Row(l, p - 1);
      CoordinatesUnique(n, l, c, c', p - 1);
      SumTail(p, n, Prod(u, c));
      SumTail(p, n, Prod(u, c'));
      assert Apply(n, l, c)(p - 1) == Apply(n, l, c')(p - 1);
      assert u(p - 1) > 0.0;
      LastCoordinate(u, c, c', p - 1);
    }
  }

  lemma CancelFactor(s: real, x: real, y: real)
    requires s > 0.0 && s * x == s * y
    ensures x == y
  {
    CancelScale(x, y, s);
    CancelScale(y, x, s);
  }

  /** The loss of e = L c is |c|^2, for any c. */
  lemma LossOfCoordinates(n: nat, h: Mat, l: Mat, e: Vec, c: Vec)
    requires Symmetric(n, h) && InverseFactor(n, h, l) && Agree(n, Apply(n, l, c), e)
    ensures Quad(n, h, e) == Dot(n, c, c)
  {
    var c' := WhitenedLoss(n, h, l, e);
    CoordinatesUnique(n, l, c, c', n);
    DotAgree(n, c, c', c, c');
  }

  function Minus(u: Vec, v: Vec): Vec {
    k => u(k) - v(k)
  }

  lemma SquareSplits(x: real, x': real)
    requires x == 0.0 || x' == x
    ensures x' * x' == x * x + (x' - x) * (x' - x)
  {
  }

  lemma Pythagoras(n: nat, c: Vec, c': Vec)
    requires forall i :: 0 <= i < n ==> c(i) == 0.0 || c'(i) == c(i)
    ensures Dot(n, c', c') == Dot(n, c, c) + Dot(n, Minus(c', c), Minus(c', c))
  {
    var d := Minus(c', c);
    forall i | 0 <= i < n
      ensures Prod(c', c')(i) == Plus(Prod(c, c), Prod(d, d))(i)
    {
      SquareSplits(c(i), c'(i));
    }
    SumAgree(n, Prod(c', c'), Plus(Prod(c, c), Prod(d, d)));
    SumPlus(n, Prod(c, c), Prod(d, d));
  }

  /**
   Among all errors with the same first p entries, L c has the least loss when c ends after p entries:
   any other has strictly more.
   */
  lemma LeastLoss(n: nat, h: Mat, l: Mat, e: Vec, c: Vec, p: nat, e': Vec)
    requires Symmetric(n, h) && InverseFactor(n, h, l) && Agree(n, Apply(n, l, c), e)
    requires p <= n && (forall i :: p <= i < n ==> c(i) == 0.0) && Agree(p, e, e')
    ensures !Agree(n, e, e') ==> Quad(n, h, e') > Quad(n, h, e)
  {
    var c' := WhitenedLoss(n, h, l, e');
    LossOfCoordinates(n, h, l, e, c);
    CoordinatesUnique(n, l, c, c', p);
    Pythagoras(n, c, c');
    SumSquares(n, Minus(c', c));
    if Zero(n, Minus(c', c)) {
      forall i | 0 <= i < n
        ensures c(i) == c'(i)
      {
        assert Minus(c', c)(i) == 0.0;
      }
      ApplyAgree(n, l, l, c, c');
    }
  }

  // ---------- pivots ----------

  lemma QuadUnit(n: nat, a: Mat, j: nat)
    requires j < n
    ensures Quad(n, a, Unit(j)) == a(j, j)
  {
    DotCommutes(n, Unit(j), Apply(n, a, Unit(j)));
    DotUnit(n, Apply(n, a, Unit(j)), j);
    DotUnit(n, Row(a, j), j);
  }

  function Origin(): Vec {
    i => 0.0
  }

  lemma ApplyOrigin(n: nat, a: Mat)
    ensures Zero(n, Apply(n, a, Origin()))
  {
    forall i | 0 <= i < n
      ensures Apply(n, a, Origin())(i) == 0.0
    {
      DotZero(n, Row(a, i), Origin());
    }
  }

  /** The coordinates of a unit vector start at its index, with the inverse of the pivot. */
  lemma UnitCoordinates(n: nat, l: Mat, c: Vec, j: nat)
    requires LowerPositive(n, l) && j < n && Agree(n, Apply(n, l, c), Unit(j))
    ensures l(j, j) * c(j) == 1.0
  {
    ApplyOrigin(n, l);
    forall i | 0 <= i < j
      ensures Apply(n, l, Origin())(i) == Apply(n, l, c)(i)
    {
      assert Unit(j)(i) == 0.0;
    }
    CoordinatesUnique(n, l, Origin(), c, j);
    forall i | 0 <= i < n && i != j
      ensures Prod(Row(l, j), c)(i) == 0.0
    {
      assert i < j ==> Origin()(i) == c(i);
    }
    SumSingle(n, Prod(Row(l, j), c), j);
    assert Apply(n, l, c)(j) == Unit(j)(j);
  }

  lemma SquaresBound(a: real, x: real, h: real)
    requires a > 0.0 && a * x == 1.0 && h >= x * x
    ensures a * a * h >= 1.0
  {
    var rest := h - x * x;
    assert a * a * h == a * a * (x * x) + a * a * rest;
    assert a * a * (x * x) == (a * x) * (a * x);
    var square := SquareOf(a);
    ProductNonnegative(square, rest);
  }

  lemma ProductNonnegative(x: real, y: real)
    requires x >= 0.0 && y >= 0.0
    ensures x * y >= 0.0
  {
  }

  /** A pivot of the factor of H^-1 is at least one over the square root of the diagonal of H. */
  lemma PivotBound(n: nat, h: Mat, l: Mat, j: nat)
    requires Symmetric(n, h) && InverseFactor(n, h, l) && j < n
    ensures l(j, j) * l(j, j) * h(j, j) >= 1.0
  {
    var c := WhitenedLoss(n, h, l, Unit(j));
    QuadUnit(n, h, j);
    UnitCoordinates(n, l, c, j);
    forall k | 0 <= k < n
      ensures Prod(c, c)(k) >= 0.0
    {
      var square := SquareOf(c(k));
    }
    TermBelowSum(n, Prod(c, c), j);
    SquaresBound(l(j, j), c(j), h(j, j));
  }

  /** With nothing else in the first row of H, the first pivot is exactly that. */
  lemma FirstPivot(n: nat, h: Mat, l: Mat)
    requires InverseFactor(n, h, l) && n > 0 && forall j :: 0 < j < n ==> h(0, j) == 0.0
    ensures h(0, 0) * (l(0, 0) * l(0, 0)) == 1.0
  {
    var x := Times(n, l, Transpose(l));
    SumSingle(n, Prod(Row(h, 0), Col(x, 0)), 0);
    SumSingle(n, Prod(Row(l, 0), Col(Transpose(l), 0)), 0);
    assert Times(n, h, x)(0, 0) == Identity()(0, 0);
  }
}
