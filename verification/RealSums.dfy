/** Finite sums of reals. */
module RealSums {
  type Vec = int -> real

  function Sum(n: nat, f: Vec): real {
    if n == 0 then 0.0 else Sum(n - 1, f) + f(n - 1)
  }

  function Plus(f: Vec, g: Vec): Vec {
    k => f(k) + g(k)
  }

  function Scaled(a: real, f: Vec): Vec {
    k => a * f(k)
  }

  function Prod(f: Vec, g: Vec): Vec {
    k => f(k) * g(k)
  }

  ghost predicate Agree(n: nat, f: Vec, g: Vec) {
    forall k :: 0 <= k < n ==> f(k) == g(k)
  }

  ghost predicate Zero(n: nat, f: Vec) {
    forall k :: 0 <= k < n ==> f(k) == 0.0
  }

  lemma {:induction false} SumAgree(n: nat, f: Vec, g: Vec)
    requires Agree(n, f, g)
    ensures Sum(n, f) == Sum(n, g)
  {
    if n > 0 {
      SumAgree(n - 1, f, g);
    }
  }

  lemma {:induction false} SumZero(n: nat, f: Vec)
    requires Zero(n, f)
    ensures Sum(n, f) == 0.0
  {
    if n > 0 {
      SumZero(n - 1, f);
    }
  }

  lemma {:induction false} SumPlus(n: nat, f: Vec, g: Vec)
    ensures Sum(n, Plus(f, g)) == Sum(n, f) + Sum(n, g)
  {
    if n > 0 {
      SumPlus(n - 1, f, g);
    }
  }

  lemma {:induction false} SumScaled(n: nat, a: real, f: Vec)
    ensures Sum(n, Scaled(a, f)) == a * Sum(n, f)
  {
    if n > 0 {
      SumScaled(n - 1, a, f);
      assert a * (Sum(n - 1, f) + f(n - 1)) == a * Sum(n - 1, f) + a * f(n - 1);
    }
  }

  /** Terms that vanish past m do not count. */
  lemma {:induction false} SumTail(m: nat, n: nat, f: Vec)
    requires m <= n && forall k :: m <= k < n ==> f(k) == 0.0
    ensures Sum(n, f) == Sum(m, f)
  {
    if m < n {
      SumTail(m, n - 1, f);
    }
  }

  /** A sum with one term that counts. */
  lemma {:induction false} SumSingle(n: nat, f: Vec, i: nat)
    requires i < n && forall k :: 0 <= k < n && k != i ==> f(k) == 0.0
    ensures Sum(n, f) == f(i)
  {
    if i == n - 1 {
      SumZero(n - 1, f);
    } else {
      SumSingle(n - 1, f, i);
    }
  }

  lemma ProductPositive(x: real, y: real, product: real)
    requires x > 0.0 && y > 0.0 && product == x * y
    ensures product > 0.0
  {
  }

  lemma Quotient(a: real, s: real)
    requires s > 0.0
    ensures a / s * s == a
  {
  }

  lemma Distribute(x: real, y: real, s: real)
    ensures (x + y) * s == x * s + y * s
  {
  }

  lemma CancelScale(x: real, y: real, s: real)
    requires s > 0.0 && x * s <= y * s
    ensures x <= y
  {
    if x > y {
      Distribute(x - y, y, s);
      ProductPositive(x - y, s, (x - y) * s);
    }
  }

  lemma CancelScaleStrictly(x: real, y: real, s: real)
    requires s > 0.0 && x * s < y * s
    ensures x < y
  {
    CancelScale(x, y, s);
  }

  /** The square of x, as a term of its own. */
  lemma SquareOf(x: real) returns (square: real)
    ensures square == x * x
    ensures x != 0.0 ==> square > 0.0
    ensures x == 0.0 ==> square == 0.0
  {
    square := x * x;
    if x > 0.0 {
      ProductPositive(x, x, square);
    } else if x < 0.0 {
      assert square == (-x) * (-x);
      ProductPositive(-x, -x, square);
    }
  }

  lemma {:induction false} SumSquares(n: nat, f: Vec)
    ensures Sum(n, Prod(f, f)) >= 0.0
    ensures !Zero(n, f) ==> Sum(n, Prod(f, f)) > 0.0
  {
    if n > 0 {
      SumSquares(n - 1, f);
      var last := f(n - 1);
      var square := SquareOf(last);
      var before, after := Sum(n - 1, Prod(f, f)), Sum(n, Prod(f, f));
      assert after == before + square;
      assert square >= 0.0;
      if last == 0.0 {
        assert Zero(n - 1, f) ==> Zero(n, f);
      }
    }
  }

  /** No term is larger than the sum of terms none of which is negative. */
  lemma {:induction false} TermBelowSum(n: nat, f: Vec, j: nat)
    requires j < n && forall k :: 0 <= k < n ==> f(k) >= 0.0
    ensures Sum(n, f) >= f(j)
  {
    if j == n - 1 {
      SumNonnegative(n - 1, f);
    } else {
      TermBelowSum(n - 1, f, j);
    }
  }

  lemma {:induction false} SumNonnegative(n: nat, f: Vec)
    requires forall k :: 0 <= k < n ==> f(k) >= 0.0
    ensures Sum(n, f) >= 0.0
  {
    if n > 0 {
      SumNonnegative(n - 1, f);
    }
  }

  // ---------- double sums ----------

  type Mat = (int, int) -> real

  function Row(a: Mat, i: int): Vec {
    j => a(i, j)
  }

  function Col(a: Mat, j: int): Vec {
    i => a(i, j)
  }

  function RowSums(n: nat, a: Mat): Vec {
    i => Sum(n, Row(a, i))
  }

  function ColSums(m: nat, a: Mat): Vec {
    j => Sum(m, Col(a, j))
  }

  /** Summing by rows or by columns is the same. */
  lemma {:induction false} SumSwap(m: nat, n: nat, a: Mat)
    ensures Sum(m, RowSums(n, a)) == Sum(n, ColSums(m, a))
  {
    if m == 0 {
      SumZero(n, ColSums(0, a));
    } else {
      SumSwap(m - 1, n, a);
      SumPlus(n, ColSums(m - 1, a), Row(a, m - 1));
      SumAgree(n, ColSums(m, a), Plus(ColSums(m - 1, a), Row(a, m - 1)));
    }
  }
}
