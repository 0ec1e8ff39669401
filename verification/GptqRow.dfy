/**
 One output row of the quantizer. Columns are taken in order; the error of each is spread over the columns
 still to come, in proportion to a row of the upper factor U of H^-1 = U^T U.
 */
module GptqRow {
  import opened Grids
  import opened RealSums
  import opened Matrices
  import opened Cholesky
  import opened Compensation
  import opened GptqQuantizer

  /** A pivot below 1e-12 is not divided by. */
  const TINY: real := 0.000000000001

  /** The working copy of the row, the current group's parameters, and what each column and each group left behind. */
  datatype RowState = RowState(work: seq<real>, params: GroupParams, codes: seq<int>, groups: seq<GroupParams>,
                               errors: seq<real>, coeffs: seq<real>)

  // ---------- groups ----------

  /** Groups that the first p columns reach. */
  function GroupCount(p: nat, groupSize: nat): nat
    requires groupSize > 0
  {
    if p == 0 then 0 else (p - 1) / groupSize + 1
  }

  /** The quotient of the number before p. */
  lemma QuotientBefore(p: nat, d: nat, q: nat, rest: nat)
    requires p > 0 && rest < d && p == q * d + rest
    ensures rest == 0 ==> q > 0
    ensures (p - 1) / d == if rest > 0 then q else q - 1
  {
    if rest > 0 {
      QuotientUnique(p - 1, d, q, rest - 1);
    } else {
      MulMonotone(q, 0, d);
      assert (q - 1) * d + d == q * d;
      QuotientUnique(p - 1, d, q - 1, d - 1);
    }
  }

  lemma GroupCountBefore(p: nat, groupSize: nat)
    requires groupSize > 0
    ensures GroupCount(p, groupSize) == if p % groupSize == 0 then p / groupSize else p / groupSize + 1
    ensures GroupCount(p + 1, groupSize) == p / groupSize + 1
    ensures p % groupSize != 0 ==> p > 0
  {
    if p > 0 {
      QuotientBefore(p, groupSize, p / groupSize, p % groupSize);
    }
  }

  /** Where the group of column p ends. */
  function GroupEnd(p: nat, groupSize: nat, n: nat): (end: nat)
    requires groupSize > 0 && p < n
    ensures p < end <= n
  {
    var q := p / groupSize;
    assert p == q * groupSize + p % groupSize && (q + 1) * groupSize == q * groupSize + groupSize;
    if (q + 1) * groupSize <= n then (q + 1) * groupSize else n
  }

  // ---------- one column ----------

  /** A group's parameters come from the working values when its first column is reached. */
  function ParamsAt(r: RowState, p: nat, groupSize: nat): GroupParams
    requires groupSize > 0 && p < |r.work|
  {
    if p % groupSize == 0 then
      var group := r.work[p..GroupEnd(p, groupSize, |r.work|)];
      ParamsOf(Minimum(group), Maximum(group))
    else r.params
  }

  function Coefficient(error: real, pivot: real): real {
    if -TINY < pivot < TINY then 0.0 else error / pivot
  }

  /** Column p is committed and the columns after it move. */
  function Spread(work: seq<real>, p: nat, committed: real, coeff: real, u: Mat): (r: seq<real>)
    ensures |r| == |work|
    ensures forall j :: 0 <= j < |work| ==>
      r[j] == if j < p then work[j] else if j == p then committed else work[j] - coeff * u(p, j)
  {
    seq(|work|, j requires 0 <= j < |work| =>
      if j < p then work[j] else if j == p then committed else work[j] - coeff * u(p, j))
  }

  function Step(r: RowState, p: nat, groupSize: nat, u: Mat): (r': RowState)
    requires groupSize > 0 && p < |r.work|
    ensures |r'.work| == |r.work|
  {
    var params := ParamsAt(r, p, groupSize);
    var code := CodeOf(r.work[p], params);
    var committed := Dequant(code, params);
    var error := r.work[p] - committed;
    var coeff := Coefficient(error, u(p, p));
    RowState(Spread(r.work, p, committed, coeff, u), params, r.codes + [code],
             if p % groupSize == 0 then r.groups + [params] else r.groups,
             r.errors + [error], r.coeffs + [coeff])
  }

  /** The first p columns of a row. */
  function Run(weights: seq<real>, groupSize: nat, u: Mat, p: nat): (r: RowState)
    requires groupSize > 0 && p <= |weights|
    ensures |r.work| == |weights|
  {
    if p == 0 then RowState(weights, Params(1.0, 1), [], [], [], [])
    else Step(Run(weights, groupSize, u, p - 1), p - 1, groupSize, u)
  }

  // ---------- what is committed ----------

  ghost predicate Shape(r: RowState, groupSize: nat, p: nat)
    requires groupSize > 0
  {
    && |r.codes| == |r.errors| == |r.coeffs| == p <= |r.work|
    && |r.groups| == GroupCount(p, groupSize)
    && (p > 0 ==> r.params == r.groups[|r.groups| - 1])
  }

  /** Every column so far stands for its code under its group's parameters. */
  ghost predicate Committed(r: RowState, groupSize: nat, p: nat)
    requires groupSize > 0
  {
    && Shape(r, groupSize, p)
    && forall i :: 0 <= i < p ==>
      i / groupSize < |r.groups| && 0 <= r.codes[i] <= QMAX && r.work[i] == Dequant(r.codes[i], r.groups[i / groupSize])
  }

  lemma StepAppends(r: RowState, p: nat, groupSize: nat, u: Mat)
    requires groupSize > 0 && p < |r.work|
    ensures var r', params := Step(r, p, groupSize, u), ParamsAt(r, p, groupSize);
      && r'.params == params && (p % groupSize != 0 ==> params == r.params)
      && r'.groups == (if p % groupSize == 0 then r.groups + [params] else r.groups)
      && |r'.codes| == |r.codes| + 1 && |r'.errors| == |r.errors| + 1 && |r'.coeffs| == |r.coeffs| + 1
      && r.codes <= r'.codes && r.errors <= r'.errors
  {
  }

  lemma StepShape(r: RowState, p: nat, groupSize: nat, u: Mat)
    requires groupSize > 0 && p < |r.work| && Shape(r, groupSize, p)
    ensures var r' := Step(r, p, groupSize, u);
      && Shape(r', groupSize, p + 1)
      && p / groupSize == |r'.groups| - 1
      && r'.groups[p / groupSize] == r'.params == ParamsAt(r, p, groupSize)
      && r.groups <= r'.groups && r.codes <= r'.codes && r.errors <= r'.errors
  {
    GroupCountBefore(p, groupSize);
    StepAppends(r, p, groupSize, u);
  }

  lemma StepCommitted(r: RowState, r': RowState, p: nat, groupSize: nat, u: Mat)
    requires groupSize > 0 && p < |r.work| && Committed(r, groupSize, p) && r' == Step(r, p, groupSize, u)
    ensures Committed(r', groupSize, p + 1)
  {
    StepShape(r, p, groupSize, u);
  }

  lemma NothingCommitted(weights: seq<real>, groupSize: nat, u: Mat)
    requires groupSize > 0
    ensures Committed(Run(weights, groupSize, u, 0), groupSize, 0)
  {
  }

  /** Each final weight is what its 4-bit code and its group's scale and zero point decode to. */
  lemma {:induction false} RunCommitted(weights: seq<real>, groupSize: nat, u: Mat, p: nat)
    requires groupSize > 0 && p <= |weights|
    ensures Committed(Run(weights, groupSize, u, p), groupSize, p)
  {
    if p == 0 {
      NothingCommitted(weights, groupSize, u);
    } else {
      RunCommitted(weights, groupSize, u, p - 1);
      StepCommitted(Run(weights, groupSize, u, p - 1), Run(weights, groupSize, u, p), p - 1, groupSize, u);
    }
  }

  /** r' goes on from r without touching its first p columns. */
  ghost predicate Continues(r: RowState, r': RowState, p: nat) {
    && r.codes <= r'.codes && r.groups <= r'.groups && r.errors <= r'.errors
    && p <= |r.work| == |r'.work|
    && forall i :: 0 <= i < p ==> r'.work[i] == r.work[i]
  }

  lemma ContinuesFurther(r: RowState, r': RowState, r'': RowState, p: nat, q: nat)
    requires p <= q && Continues(r, r', p) && Continues(r', r'', q)
    ensures Continues(r, r'', p)
  {
  }

  /** What is committed stays: codes, groups and weights of earlier columns do not change. */
  lemma {:induction false} CommitmentsLast(weights: seq<real>, groupSize: nat, u: Mat, p: nat, q: nat)
    requires groupSize > 0 && p <= q <= |weights|
    ensures Continues(Run(weights, groupSize, u, p), Run(weights, groupSize, u, q), p)
  {
    if p < q {
      var r, before := Run(weights, groupSize, u, p), Run(weights, groupSize, u, q - 1);
      CommitmentsLast(weights, groupSize, u, p, q - 1);
      RunCommitted(weights, groupSize, u, q - 1);
      StepShape(before, q - 1, groupSize, u);
      ContinuesFurther(r, before, Step(before, q - 1, groupSize, u), p, q - 1);
    }
  }

  // ---------- which values a group's parameters fit ----------

  /** The working values of the `size` columns from `start` on, as far as there are columns. */
  function GroupSlice(work: seq<real>, start: nat, size: nat): seq<real> {
    if start > |work| then [] else if start + size <= |work| then work[start..start + size] else work[start..]
  }

  lemma GroupEndIs(start: nat, groupSize: nat, g: nat, n: nat)
    requires groupSize > 0 && start == g * groupSize && start < n
    ensures start / groupSize == g && start % groupSize == 0
    ensures GroupEnd(start, groupSize, n) == if start + groupSize <= n then start + groupSize else n
  {
    QuotientUnique(start, groupSize, g, 0);
    assert (g + 1) * groupSize == start + groupSize;
  }

  lemma SliceIs(work: seq<real>, start: nat, groupSize: nat, g: nat, end: nat)
    requires groupSize > 0 && start == g * groupSize && start < |work| && end == GroupEnd(start, groupSize, |work|)
    ensures start % groupSize == 0 && work[start..end] == GroupSlice(work, start, groupSize)
  {
    GroupEndIs(start, groupSize, g, |work|);
    assert end == |work| ==> work[start..end] == work[start..];
  }

  lemma OpeningFits(r: RowState, start: nat, groupSize: nat, group: seq<real>)
    requires groupSize > 0 && start < |r.work| && start % groupSize == 0
    requires group == r.work[start..GroupEnd(start, groupSize, |r.work|)]
    ensures FitGroup(ParamsAt(r, start, groupSize), group)
  {
    RangeFits(group);
  }

  lemma OpenedFits(r: RowState, r': RowState, start: nat, groupSize: nat, u: Mat, g: nat)
    requires groupSize > 0 && start == g * groupSize && start < |r.work| && Shape(r, groupSize, start)
    requires r' == Step(r, start, groupSize, u)
    ensures g < |r'.groups| && FitGroup(r'.groups[g], GroupSlice(r.work, start, groupSize))
  {
    StepShape(r, start, groupSize, u);
    QuotientUnique(start, groupSize, g, 0);
    SliceIs(r.work, start, groupSize, g, GroupEnd(start, groupSize, |r.work|));
    OpeningFits(r, start, groupSize, GroupSlice(r.work, start, groupSize));
  }

  lemma FirstTurnFits(weights: seq<real>, groupSize: nat, u: Mat, g: nat, start: nat)
    requires groupSize > 0 && start == g * groupSize && start < |weights|
    ensures g < |Run(weights, groupSize, u, start + 1).groups|
    ensures FitGroup(Run(weights, groupSize, u, start + 1).groups[g],
                     GroupSlice(Run(weights, groupSize, u, start).work, start, groupSize))
  {
    RunCommitted(weights, groupSize, u, start);
    OpenedFits(Run(weights, groupSize, u, start), Run(weights, groupSize, u, start + 1), start, groupSize, u, g);
  }

  lemma FitStays(r: RowState, r': RowState, p: nat, g: nat, group: seq<real>)
    requires g < |r.groups| && FitGroup(r.groups[g], group) && Continues(r, r', p)
    ensures g < |r'.groups| && FitGroup(r'.groups[g], group)
  {
  }

  /**
   The parameters of group g fit the working values that the columns of the group, all of them and no others, have
   when its first column is reached.
   */
  lemma GroupFits(weights: seq<real>, groupSize: nat, u: Mat, g: nat, start: nat, p: nat)
    requires groupSize > 0 && start == g * groupSize && start < p <= |weights|
    ensures g < |Run(weights, groupSize, u, p).groups|
    ensures FitGroup(Run(weights, groupSize, u, p).groups[g],
                     GroupSlice(Run(weights, groupSize, u, start).work, start, groupSize))
  {
    FirstTurnFits(weights, groupSize, u, g, start);
    CommitmentsLast(weights, groupSize, u, start + 1, p);
    FitStays(Run(weights, groupSize, u, start + 1), Run(weights, groupSize, u, p), start + 1, g,
      GroupSlice(Run(weights, groupSize, u, start).work, start, groupSize));
  }

  // ---------- how a column is rounded ----------

  /** Column p is committed to the code of `value` under the parameters of group g. */
  ghost predicate RoundedFrom(r: RowState, p: nat, g: nat, value: real) {
    && p < |r.codes| && p < |r.work| && g < |r.groups|
    && r.codes[p] == CodeOf(value, r.groups[g]) && r.work[p] == Dequant(r.codes[p], r.groups[g])
  }

  lemma StepRounds(r: RowState, p: nat, groupSize: nat, u: Mat, g: nat)
    requires groupSize > 0 && p < |r.work| && Shape(r, groupSize, p) && g == p / groupSize
    ensures RoundedFrom(Step(r, p, groupSize, u), p, g, r.work[p])
  {
    StepShape(r, p, groupSize, u);
  }

  lemma RoundedStays(r: RowState, r': RowState, p: nat, g: nat, value: real)
    requires RoundedFrom(r, p, g, value) && Continues(r, r', p + 1)
    ensures RoundedFrom(r', p, g, value)
  {
  }

  lemma TurnRounds(weights: seq<real>, groupSize: nat, u: Mat, p: nat, g: nat)
    requires groupSize > 0 && p < |weights| && g == p / groupSize
    ensures RoundedFrom(Run(weights, groupSize, u, p + 1), p, g, Run(weights, groupSize, u, p).work[p])
  {
    RunCommitted(weights, groupSize, u, p);
    StepRounds(Run(weights, groupSize, u, p), p, groupSize, u, g);
  }

  /** The value committed for column p is what its working value has become when its turn comes, rounded. */
  lemma CommittedOnTurn(weights: seq<real>, groupSize: nat, u: Mat, p: nat, q: nat, g: nat)
    requires groupSize > 0 && p < q <= |weights| && g == p / groupSize
    ensures RoundedFrom(Run(weights, groupSize, u, q), p, g, Run(weights, groupSize, u, p).work[p])
  {
    TurnRounds(weights, groupSize, u, p, g);
    CommitmentsLast(weights, groupSize, u, p + 1, q);
    RoundedStays(Run(weights, groupSize, u, p + 1), Run(weights, groupSize, u, q), p, g,
      Run(weights, groupSize, u, p).work[p]);
  }

  /** It is within a number of steps of that value exactly when the value is that close to the codes' reach. */
  lemma RoundedExactly(r: RowState, p: nat, g: nat, value: real, steps: real)
    requires RoundedFrom(r, p, g, value) && 0.5 <= steps <= 1000000000.0
    ensures var params := r.groups[g];
      Abs(value - r.work[p]) <= steps * params.scale <==>
        -(params.zero as real) - steps <= value / params.scale <= (QMAX - params.zero) as real + steps
  {
    ValueWithinExactly(value, r.groups[g], steps);
    assert CodeError(value, r.groups[g]) == Abs(value - r.work[p]);
  }

  lemma FitIsParams(params: GroupParams, group: seq<real>, min: real, max: real)
    requires FitGroup(params, group) && IsMin(group, min) && IsMax(group, max)
    ensures params == ParamsOf(min, max)
  {
    ParamsExactly(min, max);
    ParamsUnique(params, ParamsOf(min, max), min, max);
  }

  /** When its first column is reached, the group's values range from min to max, across zero. */
  ghost predicate GroupSpans(weights: seq<real>, groupSize: nat, u: Mat, start: nat, min: real, max: real)
    requires groupSize > 0 && start <= |weights|
  {
    var group := GroupSlice(Run(weights, groupSize, u, start).work, start, groupSize);
    IsMin(group, min) && IsMax(group, max) && Spans(min, max)
  }

  lemma SameFit(p: GroupParams, q: GroupParams, group: seq<real>, min: real, max: real)
    requires FitGroup(p, group) && FitGroup(q, group) && IsMin(group, min) && IsMax(group, max)
    ensures p == q
  {
    ParamsUnique(p, q, min, max);
  }

  lemma RoundedWithinScale(r: RowState, group: seq<real>, p: nat, g: nat, min: real, max: real)
    requires group != [] && RoundedFrom(r, p, g, group[0]) && FitGroup(r.groups[g], group)
    requires IsMin(group, min) && IsMax(group, max) && Spans(min, max)
    ensures Abs(group[0] - r.work[p]) <= r.groups[g].scale
  {
    FitIsParams(r.groups[g], group, min, max);
    ErrorWithinScale(min, max, group[0]);
  }

  lemma SliceHead(work: seq<real>, start: nat, size: nat)
    requires start < |work| && size > 0
    ensures GroupSlice(work, start, size) != [] && GroupSlice(work, start, size)[0] == work[start]
  {
  }

  lemma GroupHistory(weights: seq<real>, groupSize: nat, u: Mat, g: nat, start: nat, before: RowState)
    requires groupSize > 0 && start == g * groupSize && start < |weights| && before == Run(weights, groupSize, u, start)
    ensures var r, group := Run(weights, groupSize, u, |weights|), GroupSlice(before.work, start, groupSize);
      && group != [] && group[0] == before.work[start]
      && RoundedFrom(r, start, g, group[0]) && FitGroup(r.groups[g], group)
  {
    SliceHead(before.work, start, groupSize);
    QuotientUnique(start, groupSize, g, 0);
    GroupFits(weights, groupSize, u, g, start, |weights|);
    CommittedOnTurn(weights, groupSize, u, start, |weights|, g);
  }

  /** The first column of a group that spans zero is committed within one scale. */
  lemma FirstColumnWithinScale(weights: seq<real>, groupSize: nat, u: Mat, g: nat, start: nat, min: real, max: real)
    requires groupSize > 0 && start == g * groupSize && start < |weights|
    requires GroupSpans(weights, groupSize, u, start, min, max)
    ensures var r := Run(weights, groupSize, u, |weights|);
      g < |r.groups| && Abs(Run(weights, groupSize, u, start).work[start] - r.work[start]) <= r.groups[g].scale
  {
    var before := Run(weights, groupSize, u, start);
    GroupHistory(weights, groupSize, u, g, start, before);
    RoundedWithinScale(Run(weights, groupSize, u, |weights|), GroupSlice(before.work, start, groupSize), start, g, min,
      max);
  }

  // ---------- what the compensation adds up to ----------

  /** What the compensation of column j leaves uncorrected: nothing, unless its pivot was skipped. */
  function Uncorrected(r: RowState, u: Mat, j: int): real {
    if 0 <= j < |r.errors| && j < |r.coeffs| then r.errors[j] - r.coeffs[j] * u(j, j) else 0.0
  }

  /** Every column has moved by its share of the coefficients so far. */
  ghost predicate Tracks(r: RowState, weights: seq<real>, u: Mat, p: nat) {
    && |r.work| == |weights| && |r.errors| == |r.coeffs| == p <= |weights|
    && forall j :: 0 <= j < |weights| ==>
      weights[j] - r.work[j] == Dot(p, Col(u, j), VecOf(r.coeffs)) + Uncorrected(r, u, j)
  }

  ghost predicate UpperPositive(n: nat, u: Mat) {
    LowerPositive(n, Transpose(u))
  }

  lemma DotExtends(p: nat, v: Vec, coeffs: seq<real>, c: real)
    requires |coeffs| == p
    ensures Dot(p + 1, v, VecOf(coeffs + [c])) == Dot(p, v, VecOf(coeffs)) + v(p) * c
  {
    DotAgree(p, v, v, VecOf(coeffs + [c]), VecOf(coeffs));
  }

  /** Column p leaves an error, and the columns after it move by a multiple of row p of U. */
  ghost predicate Moves(r: RowState, r': RowState, u: Mat, p: nat) {
    && p < |r.work| == |r'.work| && |r.errors| == |r.coeffs| == p
    && |r'.errors| == |r'.coeffs| == p + 1
    && r'.errors == r.errors + [r.work[p] - r'.work[p]] && r'.coeffs == r.coeffs + [r'.coeffs[p]]
    && (forall j :: 0 <= j < p ==> r'.work[j] == r.work[j])
    && (forall j :: p < j < |r.work| ==> r'.work[j] == r.work[j] - r'.coeffs[p] * u(p, j))
  }

  lemma StepMoves(r: RowState, groupSize: nat, u: Mat, p: nat)
    requires groupSize > 0 && p < |r.work| && |r.errors| == |r.coeffs| == p
    ensures Moves(r, Step(r, p, groupSize, u), u, p)
  {
  }

  lemma MovesTracksColumn(r: RowState, r': RowState, weights: seq<real>, u: Mat, p: nat, j: nat)
    requires Tracks(r, weights, u, p) && Moves(r, r', u, p) && UpperPositive(|weights|, u) && j < |weights|
    ensures weights[j] - r'.work[j] == Dot(p + 1, Col(u, j), VecOf(r'.coeffs)) + Uncorrected(r', u, j)
  {
    var c := r'.coeffs[p];
    DotExtends(p, Col(u, j), r.coeffs, c);
    assert weights[j] - r.work[j] == Dot(p, Col(u, j), VecOf(r.coeffs)) + Uncorrected(r, u, j);
    if j < p {
      assert Transpose(u)(j, p) == 0.0;
      assert r'.errors[j] == r.errors[j] && r'.coeffs[j] == r.coeffs[j];
    } else if j == p {
      assert r'.errors[p] == r.work[p] - r'.work[p];
    } else {
      assert r'.work[j] == r.work[j] - c * u(p, j);
    }
  }

  lemma MovesTracks(r: RowState, r': RowState, weights: seq<real>, u: Mat, p: nat)
    requires Tracks(r, weights, u, p) && Moves(r, r', u, p) && UpperPositive(|weights|, u)
    ensures Tracks(r', weights, u, p + 1)
  {
    forall j | 0 <= j < |weights|
      ensures weights[j] - r'.work[j] == Dot(p + 1, Col(u, j), VecOf(r'.coeffs)) + Uncorrected(r', u, j)
    {
      MovesTracksColumn(r, r', weights, u, p, j);
    }
  }

  lemma {:induction false} RunTracks(weights: seq<real>, groupSize: nat, u: Mat, p: nat)
    requires groupSize > 0 && p <= |weights| && UpperPositive(|weights|, u)
    ensures Tracks(Run(weights, groupSize, u, p), weights, u, p)
  {
    if p > 0 {
      RunTracks(weights, groupSize, u, p - 1);
      var r := Run(weights, groupSize, u, p - 1);
      StepMoves(r, groupSize, u, p - 1);
      MovesTracks(r, Step(r, p - 1, groupSize, u), weights, u, p - 1);
    }
  }

  /** No column with a pivot too small to divide by had anything to hand on. */
  ghost predicate NothingSkipped(r: RowState, u: Mat) {
    forall j :: 0 <= j < |r.errors| ==> u(j, j) >= TINY || r.errors[j] == 0.0
  }

  /** How far the working row is from the weights. */
  function Deviation(weights: seq<real>, r: RowState): Vec {
    Minus(VecOf(weights), VecOf(r.work))
  }

  lemma CoefficientCorrects(error: real, pivot: real)
    requires pivot > 0.0
    ensures error - Coefficient(error, pivot) * pivot == 0.0 <==> pivot >= TINY || error == 0.0
  {
    if pivot >= TINY {
      Quotient(error, pivot);
    }
  }

  ghost predicate Coefficients(r: RowState, u: Mat, p: nat) {
    && |r.errors| == |r.coeffs| == p
    && forall j :: 0 <= j < p ==> r.coeffs[j] == Coefficient(r.errors[j], u(j, j))
  }

  lemma StepCoefficients(r: RowState, groupSize: nat, u: Mat, p: nat)
    requires groupSize > 0 && p < |r.work| && Coefficients(r, u, p)
    ensures Coefficients(Step(r, p, groupSize, u), u, p + 1)
  {
  }

  lemma {:induction false} RunCoefficients(weights: seq<real>, groupSize: nat, u: Mat, p: nat)
    requires groupSize > 0 && p <= |weights|
    ensures Coefficients(Run(weights, groupSize, u, p), u, p)
  {
    if p > 0 {
      RunCoefficients(weights, groupSize, u, p - 1);
      StepCoefficients(Run(weights, groupSize, u, p - 1), groupSize, u, p - 1);
    }
  }

  lemma UncorrectedExactly(r: RowState, u: Mat, p: nat, n: nat)
    requires p <= n && UpperPositive(n, u) && Coefficients(r, u, p)
    ensures NothingSkipped(r, u) <==> forall j :: 0 <= j < n ==> Uncorrected(r, u, j) == 0.0
  {
    forall j | 0 <= j < p
      ensures Uncorrected(r, u, j) == 0.0 <==> u(j, j) >= TINY || r.errors[j] == 0.0
    {
      assert Transpose(u)(j, j) > 0.0;
      CoefficientCorrects(r.errors[j], u(j, j));
    }
    assert forall j :: p <= j < n ==> Uncorrected(r, u, j) == 0.0;
  }

  /**
   After any number of columns the row has moved by U^T times the coefficients, exactly when no column was
   skipped with an error left.
   */
  lemma DeviationExactly(weights: seq<real>, groupSize: nat, u: Mat, p: nat)
    requires groupSize > 0 && p <= |weights| && UpperPositive(|weights|, u)
    ensures var n, r := |weights|, Run(weights, groupSize, u, p);
      Agree(n, Apply(n, Transpose(u), VecOf(r.coeffs)), Deviation(weights, r)) <==> NothingSkipped(r, u)
  {
    var n, r := |weights|, Run(weights, groupSize, u, p);
    RunTracks(weights, groupSize, u, p);
    RunCoefficients(weights, groupSize, u, p);
    UncorrectedExactly(r, u, p, n);
    forall j | 0 <= j < n
      ensures Deviation(weights, r)(j) == Apply(n, Transpose(u), VecOf(r.coeffs))(j) + Uncorrected(r, u, j)
    {
      SumTail(p, n, Prod(Row(Transpose(u), j), VecOf(r.coeffs)));
      DotAgree(p, Col(u, j), Row(Transpose(u), j), VecOf(r.coeffs), VecOf(r.coeffs));
      assert weights[j] - r.work[j] == Dot(p, Col(u, j), VecOf(r.coeffs)) + Uncorrected(r, u, j);
    }
  }

  // ---------- the loss ----------

  /** The loss is the sum of the squared coefficients, one term per column. */
  lemma UnskippedLoss(weights: seq<real>, groupSize: nat, h: Mat, u: Mat, p: nat)
    requires groupSize > 0 && p <= |weights|
    requires Symmetric(|weights|, h) && InverseFactor(|weights|, h, Transpose(u))
    requires NothingSkipped(Run(weights, groupSize, u, p), u)
    ensures var r := Run(weights, groupSize, u, p);
      Quad(|weights|, h, Deviation(weights, r)) == Dot(p, VecOf(r.coeffs), VecOf(r.coeffs))
  {
    var n, r := |weights|, Run(weights, groupSize, u, p);
    RunCoefficients(weights, groupSize, u, p);
    DeviationExactly(weights, groupSize, u, p);
    LossOfCoordinates(n, h, Transpose(u), Deviation(weights, r), VecOf(r.coeffs));
    SumTail(p, n, Prod(VecOf(r.coeffs), VecOf(r.coeffs)));
  }

  /**
   The compensation is optimal: once p columns are committed, no other choice of the remaining weights has as
   little loss as the working row.
   */
  lemma UnskippedOptimal(weights: seq<real>, groupSize: nat, h: Mat, u: Mat, p: nat, other: Vec)
    requires groupSize > 0 && p <= |weights|
    requires Symmetric(|weights|, h) && InverseFactor(|weights|, h, Transpose(u))
    requires NothingSkipped(Run(weights, groupSize, u, p), u)
    requires Agree(p, other, VecOf(Run(weights, groupSize, u, p).work))
    requires !Agree(|weights|, other, VecOf(Run(weights, groupSize, u, p).work))
    ensures Quad(|weights|, h, Minus(VecOf(weights), other))
      > Quad(|weights|, h, Deviation(weights, Run(weights, groupSize, u, p)))
  {
    var n, r := |weights|, Run(weights, groupSize, u, p);
    RunCoefficients(weights, groupSize, u, p);
    DeviationExactly(weights, groupSize, u, p);
    var e, e' := Deviation(weights, r), Minus(VecOf(weights), other);
    var i :| 0 <= i < n && other(i) != VecOf(r.work)(i);
    assert e(i) != e'(i);
    LeastLoss(n, h, Transpose(u), e, VecOf(r.coeffs), p, e');
  }

  // ---------- pivots large enough to divide by ----------

  ghost predicate PivotsLarge(n: nat, u: Mat) {
    forall j :: 0 <= j < n ==> u(j, j) >= TINY
  }

  /** Nothing is skipped, whatever the weights. */
  lemma LargePivotsUnskipped(weights: seq<real>, groupSize: nat, u: Mat, p: nat)
    requires groupSize > 0 && p <= |weights| && PivotsLarge(|weights|, u)
    ensures NothingSkipped(Run(weights, groupSize, u, p), u)
  {
    RunCoefficients(weights, groupSize, u, p);
  }

  /** The loss after p columns is the sum of their squared coefficients. */
  lemma RunLoss(weights: seq<real>, groupSize: nat, h: Mat, u: Mat, p: nat)
    requires groupSize > 0 && p <= |weights| && PivotsLarge(|weights|, u)
    requires Symmetric(|weights|, h) && InverseFactor(|weights|, h, Transpose(u))
    ensures var r := Run(weights, groupSize, u, p);
      Quad(|weights|, h, Deviation(weights, r)) == Dot(p, VecOf(r.coeffs), VecOf(r.coeffs))
  {
    LargePivotsUnskipped(weights, groupSize, u, p);
    UnskippedLoss(weights, groupSize, h, u, p);
  }

  /** With p columns committed, any other choice of the remaining weights has a larger loss than the working row. */
  lemma RunOptimal(weights: seq<real>, groupSize: nat, h: Mat, u: Mat, p: nat, other: Vec)
    requires groupSize > 0 && p <= |weights| && PivotsLarge(|weights|, u)
    requires Symmetric(|weights|, h) && InverseFactor(|weights|, h, Transpose(u))
    requires Agree(p, other, VecOf(Run(weights, groupSize, u, p).work))
    requires !Agree(|weights|, other, VecOf(Run(weights, groupSize, u, p).work))
    ensures Quad(|weights|, h, Minus(VecOf(weights), other))
      > Quad(|weights|, h, Deviation(weights, Run(weights, groupSize, u, p)))
  {
    LargePivotsUnskipped(weights, groupSize, u, p);
    UnskippedOptimal(weights, groupSize, h, u, p, other);
  }

  /** The largest diagonal for which no pivot can be too small: 1e24. */
  const LARGEST_DIAGONAL: real := 1000000000000000000000000.0

  lemma PivotFromDiagonal(pivot: real, diagonal: real)
    requires pivot > 0.0 && pivot * pivot * diagonal >= 1.0 && diagonal <= LARGEST_DIAGONAL
    ensures pivot >= TINY
  {
    var square := SquareOf(pivot);
    var rest := square * (LARGEST_DIAGONAL - diagonal);
    ProductNonnegative(square, LARGEST_DIAGONAL - diagonal);
    assert square * LARGEST_DIAGONAL == pivot * pivot * diagonal + rest;
    assert (TINY - pivot) * (TINY + pivot) == TINY * TINY - square;
    if pivot < TINY {
      ProductPositive(TINY - pivot, TINY + pivot, (TINY - pivot) * (TINY + pivot));
    }
  }

  /** A condition on the matrix alone: a bounded diagonal makes every pivot large enough. */
  lemma BoundedDiagonalPivots(n: nat, h: Mat, u: Mat)
    requires Symmetric(n, h) && InverseFactor(n, h, Transpose(u))
    requires forall j :: 0 <= j < n ==> h(j, j) <= LARGEST_DIAGONAL
    ensures PivotsLarge(n, u)
  {
    forall j | 0 <= j < n
      ensures u(j, j) >= TINY
    {
      PivotBound(n, h, Transpose(u), j);
      assert Transpose(u)(j, j) > 0.0;
      PivotFromDiagonal(u(j, j), h(j, j));
    }
  }

  // ---------- a skipped pivot shows ----------

  /** 15 in column j, 0 elsewhere. */
  function Spike(n: nat, j: nat): (weights: seq<real>)
    ensures |weights| == n && forall i :: 0 <= i < n ==> weights[i] == if i == j then 15.0 else 0.0
  {
    seq(n, i requires 0 <= i < n => if i == j then 15.0 else 0.0)
  }

  predicate SpikeParams(params: Params) {
    params == Params(1.0, 8) || params == Params(1.0, 1)
  }

  /** Any group of such weights is rounded in steps of 1. */
  lemma GroupOfSpike(group: seq<real>)
    requires group != [] && forall i :: 0 <= i < |group| ==> group[i] == 0.0 || group[i] == 15.0
    ensures SpikeParams(ParamsOf(Minimum(group), Maximum(group)))
  {
    var min, max := Minimum(group), Maximum(group);
    assert 15.0 / 15.0 == 1.0 && -0.0 / 1.0 == 0.0;
  }

  lemma SpikeCodes(params: GroupParams)
    requires SpikeParams(params)
    ensures Dequant(CodeOf(0.0, params), params) == 0.0
    ensures Dequant(CodeOf(15.0, params), params) != 15.0
  {
    assert 0.0 / 1.0 == 0.0 && 15.0 / 1.0 == 15.0;
  }

  lemma SpikeParamsAt(r: RowState, n: nat, j: nat, p: nat, groupSize: nat)
    requires groupSize > 0 && p < n && r.work == Spike(n, j) && (p > 0 ==> SpikeParams(r.params))
    ensures SpikeParams(ParamsAt(r, p, groupSize))
  {
    if p % groupSize == 0 {
      GroupOfSpike(r.work[p..GroupEnd(p, groupSize, n)]);
    }
  }

  lemma NothingToSpread(work: seq<real>, p: nat, pivot: real, u: Mat)
    requires p < |work| && work[p] == 0.0
    ensures Coefficient(0.0, pivot) == 0.0 && Spread(work, p, 0.0, 0.0, u) == work
  {
    if pivot != 0.0 {
      assert 0.0 / pivot == 0.0;
    }
  }

  lemma SpikeStep(r: RowState, n: nat, j: nat, p: nat, groupSize: nat, u: Mat)
    requires groupSize > 0 && p < j < n && r.work == Spike(n, j) && (p > 0 ==> SpikeParams(r.params))
    ensures Step(r, p, groupSize, u).work == r.work && SpikeParams(Step(r, p, groupSize, u).params)
  {
    SpikeParamsAt(r, n, j, p, groupSize);
    SpikeCodes(ParamsAt(r, p, groupSize));
    NothingToSpread(r.work, p, u(p, p), u);
  }

  /** Up to the spike, every column is rounded exactly and nothing moves. */
  lemma {:induction false} SpikeUntouched(n: nat, j: nat, groupSize: nat, u: Mat, p: nat)
    requires groupSize > 0 && p <= j < n
    ensures var r := Run(Spike(n, j), groupSize, u, p);
      r.work == Spike(n, j) && (p > 0 ==> SpikeParams(r.params))
  {
    if p > 0 {
      SpikeUntouched(n, j, groupSize, u, p - 1);
      SpikeStep(Run(Spike(n, j), groupSize, u, p - 1), n, j, p - 1, groupSize, u);
    }
  }

  /** The spike itself leaves an error. */
  lemma SpikeError(n: nat, j: nat, groupSize: nat, u: Mat)
    requires groupSize > 0 && j < n
    ensures var r := Run(Spike(n, j), groupSize, u, n);
      |r.errors| == n && r.errors[j] != 0.0
  {
    SpikeUntouched(n, j, groupSize, u, j);
    var r := Run(Spike(n, j), groupSize, u, j);
    SpikeParamsAt(r, n, j, j, groupSize);
    SpikeCodes(ParamsAt(r, j, groupSize));
    RunCoefficients(Spike(n, j), groupSize, u, j);
    RunCoefficients(Spike(n, j), groupSize, u, n);
    CommitmentsLast(Spike(n, j), groupSize, u, j + 1, n);
    assert Run(Spike(n, j), groupSize, u, j + 1).errors[j] != 0.0;
  }

  /** Every row is compensated completely exactly when no pivot is below 1e-12. */
  lemma PivotsExactly(n: nat, groupSize: nat, u: Mat)
    requires groupSize > 0
    ensures PivotsLarge(n, u) <==>
      forall weights: seq<real> :: |weights| == n ==> NothingSkipped(Run(weights, groupSize, u, n), u)
  {
    if PivotsLarge(n, u) {
      forall weights: seq<real> | |weights| == n
        ensures NothingSkipped(Run(weights, groupSize, u, n), u)
      {
        LargePivotsUnskipped(weights, groupSize, u, n);
      }
    } else {
      var j :| 0 <= j < n && u(j, j) < TINY;
      SpikeError(n, j, groupSize, u);
    }
  }
}
