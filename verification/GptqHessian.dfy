/**
 Calibration: the Hessian is the sum of the outer products of the samples. Permuted and damped it is
 positive definite, so neither factorisation of the quantizer can refuse it.
 */
module GptqHessian {
  import opened Wrappers
  import opened Grids
  import opened RealSums
  import opened Matrices
  import opened Cholesky

  // ---------- sums of outer products ----------

  /** u u^T */
  function Outer(u: Vec): Mat {
    (i, j) => u(i) * u(j)
  }

  function PlusMat(a: Mat, d: Mat): Mat {
    (i, j) => a(i, j) + d(i, j)
  }

  function PlusOuter(a: Mat, u: Vec): Mat {
    PlusMat(a, Outer(u))
  }

  /** The sum of s s^T over the first k samples s. */
  function Gram(samples: seq<seq<real>>, k: nat): Mat
    requires k <= |samples|
  {
    if k == 0 then (i, j) => 0.0 else PlusOuter(Gram(samples, k - 1), VecOf(samples[k - 1]))
  }

  lemma {:induction false} GramSymmetric(samples: seq<seq<real>>, k: nat, i: int, j: int)
    requires k <= |samples|
    ensures Gram(samples, k)(i, j) == Gram(samples, k)(j, i)
  {
    if k > 0 {
      GramSymmetric(samples, k - 1, i, j);
    }
  }

  lemma {:induction false} GramExtends(samples: seq<seq<real>>, more: seq<real>, k: nat)
    requires k <= |samples|
    ensures Gram(samples + [more], k) == Gram(samples, k)
  {
    if k > 0 {
      GramExtends(samples, more, k - 1);
    }
  }

  lemma OuterTerm(a: real, x: real, y: real, z: real)
    ensures (a + x * y) * z == a * z + x * (y * z)
  {
  }

  lemma RowPlusOuter(n: nat, a: Mat, u: Vec, v: Vec, i: int)
    ensures Apply(n, PlusOuter(a, u), v)(i) == Apply(n, a, v)(i) + u(i) * Dot(n, u, v)
  {
    forall j | 0 <= j < n
      ensures Prod(Row(PlusOuter(a, u), i), v)(j) == Plus(Prod(Row(a, i), v), Scaled(u(i), Prod(u, v)))(j)
    {
      OuterTerm(a(i, j), u(i), u(j), v(j));
    }
    SumAgree(n, Prod(Row(PlusOuter(a, u), i), v), Plus(Prod(Row(a, i), v), Scaled(u(i), Prod(u, v))));
    SumPlus(n, Prod(Row(a, i), v), Scaled(u(i), Prod(u, v)));
    SumScaled(n, u(i), Prod(u, v));
  }

  /** v . w + d (u . v), when each w'(i) is w(i) + u(i) d. */
  lemma DotPlusScaled(n: nat, v: Vec, w: Vec, w': Vec, u: Vec, d: real)
    requires forall i :: 0 <= i < n ==> w'(i) == w(i) + u(i) * d
    ensures Dot(n, v, w') == Dot(n, v, w) + d * Dot(n, u, v)
  {
    forall i | 0 <= i < n
      ensures Prod(v, w')(i) == Plus(Prod(v, w), Scaled(d, Prod(u, v)))(i)
    {
      OuterTerm(w(i), u(i), d, v(i));
      assert u(i) * (d * v(i)) == d * (u(i) * v(i));
    }
    SumAgree(n, Prod(v, w'), Plus(Prod(v, w), Scaled(d, Prod(u, v))));
    SumPlus(n, Prod(v, w), Scaled(d, Prod(u, v)));
    SumScaled(n, d, Prod(u, v));
  }

  /** v^T (A + u u^T) v = v^T A v + (u . v)^2 */
  lemma QuadPlusOuter(n: nat, a: Mat, u: Vec, v: Vec)
    ensures Quad(n, PlusOuter(a, u), v) == Quad(n, a, v) + Dot(n, u, v) * Dot(n, u, v)
  {
    forall i | 0 <= i < n
      ensures Apply(n, PlusOuter(a, u), v)(i) == Apply(n, a, v)(i) + u(i) * Dot(n, u, v)
    {
      RowPlusOuter(n, a, u, v, i);
    }
    DotPlusScaled(n, v, Apply(n, a, v), Apply(n, PlusOuter(a, u), v), u, Dot(n, u, v));
  }

  // ---------- permutation and damping ----------

  function Position(order: seq<nat>, i: int): int {
    if 0 <= i < |order| then order[i] else i
  }

  function PermutedVec(v: Vec, order: seq<nat>): Vec {
    i => v(Position(order, i))
  }

  function Permuted(a: Mat, order: seq<nat>): Mat {
    (i, j) => a(Position(order, i), Position(order, j))
  }

  lemma PermutedEntry(a: Mat, order: seq<nat>, i: nat, j: nat)
    requires i < |order| && j < |order|
    ensures Permuted(a, order)(i, j) == a(order[i], order[j])
  {
    assert Position(order, i) == order[i] && Position(order, j) == order[j];
  }

  lemma PermutedOuter(n: nat, a: Mat, w: Vec, order: seq<nat>)
    ensures Same(n, Permuted(PlusOuter(a, w), order), PlusOuter(Permuted(a, order), PermutedVec(w, order)))
  {
  }

  lemma QuadZero(n: nat, a: Mat, v: Vec)
    requires forall i, j :: 0 <= i < n && 0 <= j < n ==> a(i, j) == 0.0
    ensures Quad(n, a, v) == 0.0
  {
    forall i | 0 <= i < n
      ensures Apply(n, a, v)(i) == 0.0
    {
      SumZero(n, Prod(Row(a, i), v));
    }
    DotZero(n, v, Apply(n, a, v));
  }

  /** What each sample makes of v, when the columns are taken in the given order. */
  function Outputs(n: nat, samples: seq<seq<real>>, order: seq<nat>, v: Vec): Vec {
    s => if 0 <= s < |samples| then Dot(n, PermutedVec(VecOf(samples[s]), order), v) else 0.0
  }

  /** v^T H v is the squared output over the samples, so H is positive semidefinite under any permutation. */
  lemma {:induction false} GramQuad(n: nat, samples: seq<seq<real>>, k: nat, order: seq<nat>, v: Vec)
    requires k <= |samples|
    ensures var out := Outputs(n, samples, order, v);
      Quad(n, Permuted(Gram(samples, k), order), v) == Dot(k, out, out)
  {
    if k == 0 {
      QuadZero(n, Permuted(Gram(samples, 0), order), v);
    } else {
      GramQuad(n, samples, k - 1, order, v);
      var w := VecOf(samples[k - 1]);
      var a, u := Permuted(Gram(samples, k - 1), order), PermutedVec(w, order);
      PermutedOuter(n, Gram(samples, k - 1), w, order);
      QuadAgree(n, Permuted(Gram(samples, k), order), PlusOuter(a, u), v, v);
      QuadPlusOuter(n, a, u, v);
    }
  }

  function PlusDiagonal(a: Mat, damp: real): Mat {
    (i, j) => if i == j then a(i, j) + damp else a(i, j)
  }

  lemma DiagonalTerm(a: real, damp: real, z: real)
    ensures (a + damp) * z == a * z + z * damp
  {
  }

  lemma RowPlusDiagonal(n: nat, a: Mat, damp: real, v: Vec, i: nat)
    requires i < n
    ensures Apply(n, PlusDiagonal(a, damp), v)(i) == Apply(n, a, v)(i) + v(i) * damp
  {
    var x := v(i) * damp;
    var d: Vec := j => if j == i then x else 0.0;
    SumSingle(n, d, i);
    SumPlus(n, Prod(Row(a, i), v), d);
    forall j | 0 <= j < n
      ensures Prod(Row(PlusDiagonal(a, damp), i), v)(j) == Plus(Prod(Row(a, i), v), d)(j)
    {
      if j == i {
        DiagonalTerm(a(i, i), damp, v(i));
      }
    }
    SumAgree(n, Prod(Row(PlusDiagonal(a, damp), i), v), Plus(Prod(Row(a, i), v), d));
  }

  /** v^T (A + damp I) v = v^T A v + damp |v|^2 */
  lemma QuadPlusDiagonal(n: nat, a: Mat, damp: real, v: Vec)
    ensures Quad(n, PlusDiagonal(a, damp), v) == Quad(n, a, v) + damp * Dot(n, v, v)
  {
    forall i | 0 <= i < n
      ensures Apply(n, PlusDiagonal(a, damp), v)(i) == Apply(n, a, v)(i) + v(i) * damp
    {
      RowPlusDiagonal(n, a, damp, v, i);
    }
    DotPlusScaled(n, v, Apply(n, a, v), Apply(n, PlusDiagonal(a, damp), v), v, damp);
  }

  /** 1e-8: the smallest damping, and the smallest scale. */
  const EPSILON: real := 0.00000001

  function Diagonal(a: Mat): Vec {
    i => a(i, i)
  }

  function MeanDiag(n: nat, a: Mat): real {
    if n == 0 then 0.0 else Sum(n, Diagonal(a)) / (n as real)
  }

  function AtLeastEpsilon(x: real): (r: real)
    ensures r > 0.0
  {
    if x >= EPSILON then x else EPSILON
  }

  function DampOf(n: nat, a: Mat, dampPercent: real): real {
    AtLeastEpsilon(MeanDiag(n, a) * dampPercent)
  }

  // ---------- what the entries and the damping are, sample by sample ----------

  /** What each sample adds to entry (i, j). */
  function Products(samples: seq<seq<real>>, i: int, j: int): Vec {
    s => if 0 <= s < |samples| then VecOf(samples[s])(i) * VecOf(samples[s])(j) else 0.0
  }

  lemma {:induction false} GramEntry(samples: seq<seq<real>>, k: nat, i: int, j: int)
    requires k <= |samples|
    ensures Gram(samples, k)(i, j) == Sum(k, Products(samples, i, j))
  {
    if k > 0 {
      GramEntry(samples, k - 1, i, j);
    }
  }

  /** The squared length of each sample. */
  function SquaredLengths(n: nat, samples: seq<seq<real>>): Vec {
    s => if 0 <= s < |samples| then Dot(n, VecOf(samples[s]), VecOf(samples[s])) else 0.0
  }

  lemma TraceIsSquaredLengths(n: nat, samples: seq<seq<real>>)
    ensures Sum(n, Diagonal(Gram(samples, |samples|))) == Sum(|samples|, SquaredLengths(n, samples))
  {
    var m := |samples|;
    var squares: Mat := (i, s) => Products(samples, i, i)(s);
    forall i | 0 <= i < n
      ensures Diagonal(Gram(samples, m))(i) == RowSums(m, squares)(i)
    {
      GramEntry(samples, m, i, i);
      SumAgree(m, Products(samples, i, i), Row(squares, i));
    }
    SumAgree(n, Diagonal(Gram(samples, m)), RowSums(m, squares));
    SumSwap(n, m, squares);
    forall s | 0 <= s < m
      ensures ColSums(n, squares)(s) == SquaredLengths(n, samples)(s)
    {
      var v := VecOf(samples[s]);
      forall i | 0 <= i < n
        ensures Col(squares, s)(i) == Prod(v, v)(i)
      {
        assert Products(samples, i, i)(s) == v(i) * v(i);
      }
      SumAgree(n, Col(squares, s), Prod(v, v));
    }
    SumAgree(m, ColSums(n, squares), SquaredLengths(n, samples));
  }

  /** The number of columns, and the samples' squared entries in all. */
  ghost predicate Totals(n: nat, samples: seq<seq<real>>, columns: real, total: real) {
    columns == n as real && total == Sum(|samples|, SquaredLengths(n, samples))
  }

  /** The n-th part of a percentage of the total, or 1e-8 if that is more. */
  predicate IsShare(d: real, n: real, percent: real, total: real) {
    d >= 0.00000001 && n * d >= percent * total && (d == 0.00000001 || n * d == percent * total)
  }

  /** The damping: the given share of the samples' mean squared length per column, but at least 1e-8. */
  ghost predicate IsDamp(d: real, n: nat, samples: seq<seq<real>>, dampPercent: real) {
    exists columns, total :: Totals(n, samples, columns, total) && IsShare(d, columns, dampPercent, total)
  }

  lemma StrictlyMore(n: real, x: real, y: real)
    requires n > 0.0
    ensures x < y ==> n * x < n * y
  {
    if x < y {
      ProductPositive(y - x, n, (y - x) * n);
      assert (y - x) * n == n * y - n * x;
    }
  }

  lemma ShareUnique(d: real, d': real, n: real, percent: real, total: real)
    requires n > 0.0 && IsShare(d, n, percent, total) && IsShare(d', n, percent, total)
    ensures d == d'
  {
    StrictlyMore(n, d, d');
    StrictlyMore(n, d', d);
  }

  lemma MeanShare(n: real, total: real, percent: real, mean: real)
    requires n > 0.0 && mean == total / n
    ensures n * (mean * percent) == percent * total
  {
    Quotient(total, n);
    assert n * (mean * percent) == mean * n * percent;
  }

  lemma ShareOfMean(n: real, total: real, percent: real, mean: real, d: real)
    requires n > 0.0 && mean == total / n && d == AtLeastEpsilon(mean * percent)
    ensures IsShare(d, n, percent, total)
  {
    MeanShare(n, total, percent, mean);
    StrictlyMore(n, mean * percent, EPSILON);
  }

  lemma DampShare(n: nat, samples: seq<seq<real>>, dampPercent: real) returns (columns: real, total: real)
    requires n > 0
    ensures Totals(n, samples, columns, total)
    ensures IsShare(DampOf(n, Gram(samples, |samples|), dampPercent), columns, dampPercent, total)
  {
    TraceIsSquaredLengths(n, samples);
    columns, total := n as real, Sum(n, Diagonal(Gram(samples, |samples|)));
    ShareOfMean(columns, total, dampPercent, total / columns, AtLeastEpsilon(total / columns * dampPercent));
  }

  /** The quantizer's damping is that share. */
  lemma DampExactly(n: nat, samples: seq<seq<real>>, dampPercent: real)
    requires n > 0
    ensures IsDamp(DampOf(n, Gram(samples, |samples|), dampPercent), n, samples, dampPercent)
  {
    var columns, total := DampShare(n, samples, dampPercent);
  }

  /** There is only one such amount. */
  lemma DampUnique(n: nat, samples: seq<seq<real>>, dampPercent: real, d: real, d': real)
    requires n > 0 && IsDamp(d, n, samples, dampPercent) && IsDamp(d', n, samples, dampPercent)
    ensures d == d'
  {
    var columns, total :| Totals(n, samples, columns, total) && IsShare(d, columns, dampPercent, total);
    ShareUnique(d, d', columns, dampPercent, total);
  }

  /** Entry by entry: the products of the samples' columns, and d on the diagonal. */
  ghost predicate DampedEntries(n: nat, h: Mat, samples: seq<seq<real>>, order: seq<nat>, d: real) {
    |order| == n && forall i, j :: 0 <= i < n && 0 <= j < n ==>
      h(i, j) == Sum(|samples|, Products(samples, order[i], order[j])) + if i == j then d else 0.0
  }

  lemma DampedIsEntries(n: nat, h: Mat, samples: seq<seq<real>>, order: seq<nat>, d: real)
    requires |order| == n && Same(n, h, Damped(samples, order, d))
    ensures DampedEntries(n, h, samples, order, d)
  {
    forall i, j | 0 <= i < n && 0 <= j < n
      ensures h(i, j) == Sum(|samples|, Products(samples, order[i], order[j])) + if i == j then d else 0.0
    {
      PermutedEntry(Gram(samples, |samples|), order, i, j);
      GramEntry(samples, |samples|, order[i], order[j]);
    }
  }

  /** The matrix the quantizer factors. */
  function Damped(samples: seq<seq<real>>, order: seq<nat>, damp: real): Mat {
    PlusDiagonal(Permuted(Gram(samples, |samples|), order), damp)
  }

  /** v^T H v is the squared output over the samples plus damp |v|^2. */
  lemma DampedQuad(n: nat, samples: seq<seq<real>>, order: seq<nat>, damp: real, v: Vec)
    ensures var out := Outputs(n, samples, order, v);
      Quad(n, Damped(samples, order, damp), v) == Dot(|samples|, out, out) + damp * Dot(n, v, v)
  {
    GramQuad(n, samples, |samples|, order, v);
    QuadPlusDiagonal(n, Permuted(Gram(samples, |samples|), order), damp, v);
  }

  /** v^T H v >= damp |v|^2, whatever the samples and the permutation. */
  lemma DampedDominates(n: nat, samples: seq<seq<real>>, order: seq<nat>, damp: real, v: Vec)
    ensures Quad(n, Damped(samples, order, damp), v) >= damp * Dot(n, v, v)
  {
    DampedQuad(n, samples, order, damp, v);
    SumSquares(|samples|, Outputs(n, samples, order, v));
  }

  lemma DampedPosDef(n: nat, samples: seq<seq<real>>, order: seq<nat>, damp: real)
    requires damp > 0.0
    ensures PosDef(n, Damped(samples, order, damp))
    ensures Symmetric(n, Damped(samples, order, damp))
  {
    var h := Damped(samples, order, damp);
    forall v: Vec | !Zero(n, v)
      ensures Quad(n, h, v) > 0.0
    {
      DampedDominates(n, samples, order, damp, v);
      SumSquares(n, v);
      ProductPositive(damp, Dot(n, v, v), damp * Dot(n, v, v));
    }
    forall i, j | 0 <= i < n && 0 <= j < n
      ensures h(i, j) == h(j, i)
    {
      GramSymmetric(samples, |samples|, Position(order, i), Position(order, j));
    }
  }

  // ---------- calibration ----------

  datatype CalibrationError = WidthMismatch(expected: nat, actual: nat)

  /** Entries before (row, col) have d added, the rest do not. */
  ghost predicate Added(n: nat, before: Mat, h: Mat, d: Mat, row: nat, col: nat) {
    forall i, j :: 0 <= i < n && 0 <= j < n ==>
      h(i, j) == if Before(i, j, row, col) then before(i, j) + d(i, j) else before(i, j)
  }

  lemma AddEntry(n: nat, before: Mat, h: Mat, h': Mat, d: Mat, row: nat, col: nat, x: real)
    requires row < n && col < n && Added(n, before, h, d, row, col)
    requires PutEntry(n, h, h', row, col, x) && x == h(row, col) + d(row, col)
    ensures Added(n, before, h', d, row, col + 1)
  {
  }

  lemma RowAdded(n: nat, before: Mat, h: Mat, d: Mat, row: nat)
    requires Added(n, before, h, d, row, n)
    ensures Added(n, before, h, d, row + 1, 0)
  {
  }

  lemma AllAdded(n: nat, before: Mat, a: Mat, d: Mat, h: Mat)
    requires Same(n, before, a) && Added(n, before, h, d, n, 0)
    ensures Same(n, h, PlusMat(a, d))
  {
  }

  /** Adding a sample's outer product everywhere is observing it. */
  lemma SampleAdded(n: nat, samples: seq<seq<real>>, sample: seq<real>, before: Mat, h: Mat)
    requires Same(n, before, Gram(samples, |samples|)) && Added(n, before, h, Outer(VecOf(sample)), n, 0)
    ensures Same(n, h, Gram(samples + [sample], |samples| + 1))
  {
    GramExtends(samples, sample, |samples|);
    AllAdded(n, before, Gram(samples, |samples|), Outer(VecOf(sample)), h);
  }

  lemma AllZero(n: nat, h: seq<real>)
    requires forall k :: 0 <= k < |h| ==> h[k] == 0.0
    ensures Same(n, View(h, n), Gram([], 0))
  {
    forall i, j | 0 <= i < n && 0 <= j < n
      ensures View(h, n)(i, j) == 0.0
    {
      InGrid(n, n, i, j);
    }
  }

  class GptqCalibration {
    const inFeatures: nat
    const hessian: array<real>
    var nsamples: nat
    /** Everything observed so far. */
    ghost var samples: seq<seq<real>>

    ghost predicate Valid()
      reads this, hessian
    {
      && hessian.Length == inFeatures * inFeatures
      && nsamples == |samples|
      && Same(inFeatures, View(hessian[..], inFeatures), Gram(samples, |samples|))
    }

    constructor (inFeatures: nat)
      ensures Valid() && samples == [] && this.inFeatures == inFeatures
      ensures fresh(hessian)
    {
      this.inFeatures := inFeatures;
      var h := new real[inFeatures * inFeatures](_ => 0.0);
      AllZero(inFeatures, h[..]);
      hessian, nsamples, samples := h, 0, [];
    }

    /** Adds the outer product of one sample; a sample of the wrong width changes nothing. */
    method ObserveSample(sample: seq<real>) returns (r: Result<(), CalibrationError>)
      requires Valid()
      modifies this, hessian
      ensures Valid()
      ensures r == if |sample| == inFeatures then Ok(()) else Err(WidthMismatch(inFeatures, |sample|))
      ensures samples == if |sample| == inFeatures then old(samples) + [sample] else old(samples)
    {
      if |sample| != inFeatures {
        return Err(WidthMismatch(inFeatures, |sample|));
      }
      ghost var n, d, before := inFeatures, Outer(VecOf(sample)), View(hessian[..], inFeatures);
      for row := 0 to inFeatures
        modifies hessian
        invariant Added(n, before, View(hessian[..], n), d, row, 0)
      {
        AddRow(sample, row, before, d);
      }
      SampleAdded(n, samples, sample, before, View(hessian[..], n));
      nsamples := nsamples + 1;
      samples := samples + [sample];
      return Ok(());
    }

    method AddRow(sample: seq<real>, row: nat, ghost before: Mat, ghost d: Mat)
      requires hessian.Length == inFeatures * inFeatures && |sample| == inFeatures && row < inFeatures
      requires d == Outer(VecOf(sample)) && Added(inFeatures, before, View(hessian[..], inFeatures), d, row, 0)
      modifies hessian
      ensures Added(inFeatures, before, View(hessian[..], inFeatures), d, row + 1, 0)
    {
      ghost var n := inFeatures;
      for col := 0 to inFeatures
        invariant Added(n, before, View(hessian[..], n), d, row, col)
      {
        AddProduct(sample, row, col, before, d);
      }
      RowAdded(n, before, View(hessian[..], n), d, row);
    }

    method AddProduct(sample: seq<real>, row: nat, col: nat, ghost before: Mat, ghost d: Mat)
      requires hessian.Length == inFeatures * inFeatures && |sample| == inFeatures
      requires row < inFeatures && col < inFeatures
      requires d == Outer(VecOf(sample)) && Added(inFeatures, before, View(hessian[..], inFeatures), d, row, col)
      modifies hessian
      ensures Added(inFeatures, before, View(hessian[..], inFeatures), d, row, col + 1)
    {
      ghost var n, h := inFeatures, View(hessian[..], inFeatures);
      InGrid(inFeatures, inFeatures, row, col);
      var x := hessian[row * inFeatures + col] + sample[row] * sample[col];
      WriteAt(hessian, inFeatures, row, col, x);
      AddEntry(n, before, h, View(hessian[..], n), d, row, col, x);
    }

    /** Sample k is the first of the wrong width. */
    ghost predicate FirstBad(batch: seq<seq<real>>, k: int) {
      0 <= k < |batch| && |batch[k]| != inFeatures && forall i :: 0 <= i < k ==> |batch[i]| == inFeatures
    }

    /** Stops at the first sample of the wrong width; the samples before it stay observed. */
    method Observe(batch: seq<seq<real>>) returns (r: Result<(), CalibrationError>)
      requires Valid()
      modifies this, hessian
      ensures Valid()
      ensures r.Ok? ==> samples == old(samples) + batch && forall i :: 0 <= i < |batch| ==> |batch[i]| == inFeatures
      ensures r.Err? ==> exists k :: FirstBad(batch, k) && samples == old(samples) + batch[..k]
    {
      for k := 0 to |batch|
        invariant Valid() && samples == old(samples) + batch[..k]
        invariant forall i :: 0 <= i < k ==> |batch[i]| == inFeatures
      {
        r := ObserveSample(batch[k]);
        if r.Err? {
          assert FirstBad(batch, k);
          return;
        }
        assert batch[..k + 1] == batch[..k] + [batch[k]];
      }
      assert batch[..|batch|] == batch;
      return Ok(());
    }

    method ComputeMeanDiag() returns (mean: real)
      requires Valid()
      ensures mean == MeanDiag(inFeatures, Gram(samples, |samples|))
    {
      if inFeatures == 0 {
        return 0.0;
      }
      ghost var d := Diagonal(Gram(samples, |samples|));
      var sum := 0.0;
      for i := 0 to inFeatures
        invariant sum == Sum(i, d)
      {
        var x := Entry(i, i);
        assert x == d(i) && Sum(i + 1, d) == Sum(i, d) + d(i);
        sum := sum + x;
      }
      return sum / (inFeatures as real);
    }

    method Entry(row: nat, col: nat) returns (x: real)
      requires Valid() && row < inFeatures && col < inFeatures
      ensures x == Gram(samples, |samples|)(row, col)
    {
      InGrid(inFeatures, inFeatures, row, col);
      assert View(hessian[..], inFeatures)(row, col) == Gram(samples, |samples|)(row, col);
      return hessian[row * inFeatures + col];
    }

    method CopyRow(h: array<real>, order: seq<nat>, permRow: nat, ghost a: Mat)
      requires Valid() && |order| == inFeatures && forall i :: 0 <= i < |order| ==> order[i] < inFeatures
      requires h != hessian && h.Length == inFeatures * inFeatures && permRow < inFeatures
      requires a == Permuted(Gram(samples, |samples|), order)
      requires CopiedUpTo(inFeatures, View(h[..], inFeatures), a, permRow, 0)
      modifies h
      ensures CopiedUpTo(inFeatures, View(h[..], inFeatures), a, permRow + 1, 0)
    {
      ghost var n := inFeatures;
      for permCol := 0 to inFeatures
        invariant CopiedUpTo(n, View(h[..], n), a, permRow, permCol)
      {
        ghost var before := View(h[..], n);
        var x := Entry(order[permRow], order[permCol]);
        PermutedEntry(Gram(samples, |samples|), order, permRow, permCol);
        WriteAt(h, inFeatures, permRow, permCol, x);
        CopiedEntry(n, before, View(h[..], n), a, permRow, permCol, x);
      }
    }

    /** Copies the Hessian, permuted, row by row. */
    method PermutedHessian(order: seq<nat>) returns (h: array<real>)
      requires Valid() && |order| == inFeatures && forall i :: 0 <= i < |order| ==> order[i] < inFeatures
      ensures fresh(h) && h.Length == inFeatures * inFeatures
      ensures Same(inFeatures, View(h[..], inFeatures), Permuted(Gram(samples, |samples|), order))
    {
      ghost var n, a := inFeatures, Permuted(Gram(samples, |samples|), order);
      h := new real[inFeatures * inFeatures](_ => 0.0);
      for permRow := 0 to inFeatures
        invariant CopiedUpTo(n, View(h[..], n), a, permRow, 0)
      {
        CopyRow(h, order, permRow, a);
      }
    }

    /** The permuted Hessian with its diagonal raised by the damping. */
    method DampedPermutedHessian(order: seq<nat>, dampPercent: real) returns (h: array<real>)
      requires Valid() && |order| == inFeatures && forall i :: 0 <= i < |order| ==> order[i] < inFeatures
      ensures fresh(h) && h.Length == inFeatures * inFeatures
      ensures var damp := DampOf(inFeatures, Gram(samples, |samples|), dampPercent);
        Same(inFeatures, View(h[..], inFeatures), Damped(samples, order, damp))
      ensures inFeatures > 0 ==> exists d ::
        IsDamp(d, inFeatures, samples, dampPercent)
        && DampedEntries(inFeatures, View(h[..], inFeatures), samples, order, d)
    {
      ghost var gram := Gram(samples, |samples|);
      h := PermutedHessian(order);
      var mean := ComputeMeanDiag();
      var damp := AtLeastEpsilon(mean * dampPercent);
      assert damp == DampOf(inFeatures, gram, dampPercent);
      RaiseDiagonal(h, inFeatures, damp, Permuted(gram, order));
      assert Damped(samples, order, damp) == PlusDiagonal(Permuted(gram, order), damp);
      DampedIsEntries(inFeatures, View(h[..], inFeatures), samples, order, damp);
      if inFeatures > 0 {
        DampExactly(inFeatures, samples, dampPercent);
      }
    }
  }

  method RaiseDiagonal(h: array<real>, n: nat, damp: real, ghost a: Mat)
    requires h.Length == n * n && Same(n, View(h[..], n), a)
    modifies h
    ensures Same(n, View(h[..], n), PlusDiagonal(a, damp))
  {
    for i := 0 to n
      invariant DampedUpTo(n, View(h[..], n), a, damp, i)
    {
      ghost var before := View(h[..], n);
      InGrid(n, n, i, i);
      var x := h[i * n + i] + damp;
      WriteAt(h, n, i, i, x);
      DampedEntry(n, before, View(h[..], n), a, damp, i, x);
    }
  }

  ghost predicate CopiedUpTo(n: nat, h: Mat, a: Mat, row: nat, col: nat) {
    forall i, j :: 0 <= i < n && 0 <= j < n && Before(i, j, row, col) ==> h(i, j) == a(i, j)
  }

  lemma CopiedEntry(n: nat, h: Mat, h': Mat, a: Mat, row: nat, col: nat, x: real)
    requires row < n && col < n && CopiedUpTo(n, h, a, row, col)
    requires PutEntry(n, h, h', row, col, x) && x == a(row, col)
    ensures CopiedUpTo(n, h', a, row, col + 1)
    ensures col + 1 == n ==> CopiedUpTo(n, h', a, row + 1, 0)
  {
  }

  ghost predicate DampedUpTo(n: nat, h: Mat, a: Mat, damp: real, k: nat) {
    forall i, j :: 0 <= i < n && 0 <= j < n ==> h(i, j) == if i == j && i < k then a(i, j) + damp else a(i, j)
  }

  lemma DampedEntry(n: nat, h: Mat, h': Mat, a: Mat, damp: real, k: nat, x: real)
    requires k < n && DampedUpTo(n, h, a, damp, k)
    requires PutEntry(n, h, h', k, k, x) && x == h(k, k) + damp
    ensures DampedUpTo(n, h', a, damp, k + 1)
  {
  }
}
