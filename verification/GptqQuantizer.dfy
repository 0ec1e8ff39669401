/** Scale, zero point and code of a weight, in exact arithmetic. Codes have 4 bits. */
module GptqQuantizer {
  import opened Wrappers
  import GptqHessian
  import opened RealSums

  const QMAX: int := 15

  /** To the nearest integer, halves away from zero. */
  function Round(x: real): int {
    if x >= 0.0 then (x + 0.5).Floor else -((0.5 - x).Floor)
  }

  function Clamp(x: int, lo: int, hi: int): int
    requires lo <= hi
  {
    if x < lo then lo else if x > hi then hi else x
  }

  /** A float-to-i32 conversion saturates. */
  function SaturateI32(x: int): int {
    Clamp(x, -0x8000_0000, 0x7fff_ffff)
  }

  /** i32 addition wraps around. */
  function WrapI32(x: int): int {
    if x > 0x7fff_ffff then x - 0x1_0000_0000
    else if x < -0x8000_0000 then x + 0x1_0000_0000
    else x
  }

  datatype Params = Params(scale: real, zero: int)

  /** What a group's range always yields. */
  type GroupParams = p: Params | p.scale > 0.0 && 1 <= p.zero <= QMAX + 1 witness Params(1.0, 1)

  /** The degenerate range is 1e-12. */
  const NARROW: real := 0.000000000001

  function ParamsOf(min: real, max: real): (p: Params)
    ensures p.scale > 0.0 && 1 <= p.zero <= QMAX + 1
  {
    if max - min < NARROW && min - max < NARROW then Params(1.0, (QMAX + 2) / 2)
    else
      var scale := GptqHessian.AtLeastEpsilon((max - min) / (QMAX as real));
      Params(scale, Clamp(Round(-min / scale), 1, QMAX + 1))
  }

  /** The code of a value that is x steps of the scale. */
  function UnitCode(x: real, zero: int): (q: int)
    ensures 0 <= q <= QMAX
  {
    Clamp(WrapI32(SaturateI32(Round(x)) + zero), 0, QMAX)
  }

  function CodeOf(value: real, p: Params): (q: int)
    requires p.scale > 0.0
    ensures 0 <= q <= QMAX
  {
    UnitCode(value / p.scale, p.zero)
  }

  function Dequant(q: int, p: Params): real {
    ((q - p.zero) as real) * p.scale
  }

  // ---------- rounding ----------

  lemma RoundNear(x: real)
    ensures -0.5 <= Round(x) as real - x <= 0.5
  {
  }

  // ---------- range of a group ----------

  predicate IsMin(s: seq<real>, m: real) {
    m in s && forall i :: 0 <= i < |s| ==> m <= s[i]
  }

  predicate IsMax(s: seq<real>, m: real) {
    m in s && forall i :: 0 <= i < |s| ==> s[i] <= m
  }

  function Minimum(s: seq<real>): (m: real)
    requires s != []
    ensures IsMin(s, m)
  {
    if |s| == 1 then s[0]
    else
      var m, last := Minimum(s[..|s| - 1]), s[|s| - 1];
      if last < m then last else m
  }

  function Maximum(s: seq<real>): (m: real)
    requires s != []
    ensures IsMax(s, m)
  {
    if |s| == 1 then s[0]
    else
      var m, last := Maximum(s[..|s| - 1]), s[|s| - 1];
      if last > m then last else m
  }

  /** min and max are those of the first k values. */
  ghost predicate RangeOf(s: seq<real>, k: nat, min: real, max: real) {
    0 < k <= |s| && min == Minimum(s[..k]) && max == Maximum(s[..k])
  }

  lemma RangeStep(s: seq<real>, k: nat, min: real, max: real)
    requires RangeOf(s, k, min, max) && k < |s|
    ensures RangeOf(s, k + 1, if s[k] < min then s[k] else min, if s[k] > max then s[k] else max)
  {
    assert s[..k + 1][..k] == s[..k] && s[..k + 1][k] == s[k];
  }

  // ---------- what the parameters are ----------

  lemma RoundExactly(x: real, k: int)
    ensures Round(x) == k <==>
      if x >= 0.0 then k as real - 0.5 <= x < k as real + 0.5 else k as real - 0.5 < x <= k as real + 0.5
  {
  }

  /** A fifteenth of the width, or 1e-8 if that is more. */
  predicate IsScale(scale: real, width: real) {
    scale >= 0.00000001 && 15.0 * scale >= width && (scale == 0.00000001 || 15.0 * scale == width)
  }

  /** The integer of 1 .. 16 nearest to x, the larger one of two. */
  predicate IsNearestZero(zero: int, x: real) {
    && 1 <= zero <= 16
    && (zero == 1 || zero as real - 0.5 <= x)
    && (zero == 16 || x < zero as real + 0.5)
  }

  /**
   A group narrower than 1e-12 has scale 1 and zero point 8. Any other has a fifteenth of its width as scale, and as
   zero point the number of steps from its minimum up to 0, to the nearest and within 1 .. 16.
   */
  predicate ParamsFit(p: GroupParams, min: real, max: real) {
    if max - min < 0.000000000001 then p == Params(1.0, 8)
    else IsScale(p.scale, max - min) && IsNearestZero(p.zero, -min / p.scale)
  }

  lemma ScaleExactly(width: real)
    ensures IsScale(GptqHessian.AtLeastEpsilon(width / 15.0), width)
  {
    Quotient(width, 15.0);
  }

  lemma ZeroExactly(x: real)
    ensures IsNearestZero(Clamp(Round(x), 1, QMAX + 1), x)
  {
    RoundNear(x);
  }

  lemma ParamsExactly(min: real, max: real)
    requires min <= max
    ensures ParamsFit(ParamsOf(min, max), min, max)
  {
    var p := ParamsOf(min, max);
    if max - min >= NARROW {
      ScaleExactly(max - min);
      ZeroExactly(-min / p.scale);
    }
  }

  /** No other parameters fit. */
  lemma ParamsUnique(p: GroupParams, q: GroupParams, min: real, max: real)
    requires min <= max && ParamsFit(p, min, max) && ParamsFit(q, min, max)
    ensures p == q
  {
    if max - min >= NARROW {
      assert p.scale == q.scale;
      NearestUnique(p.zero, q.zero, -min / p.scale);
    }
  }

  lemma NearestUnique(a: int, b: int, x: real)
    requires IsNearestZero(a, x) && IsNearestZero(b, x)
    ensures a == b
  {
  }

  /** The parameters fit the range of the values. */
  ghost predicate FitGroup(p: GroupParams, group: seq<real>) {
    forall min, max :: IsMin(group, min) && IsMax(group, max) ==> ParamsFit(p, min, max)
  }

  lemma RangeFits(group: seq<real>)
    requires group != []
    ensures FitGroup(ParamsOf(Minimum(group), Maximum(group)), group)
  {
    forall min, max | IsMin(group, min) && IsMax(group, max)
      ensures ParamsFit(ParamsOf(Minimum(group), Maximum(group)), min, max)
    {
      assert min == Minimum(group) && max == Maximum(group);
      assert group[0] in group;
      ParamsExactly(min, max);
    }
  }

  datatype ParamsError = EmptyGroup

  /** One pass over the group for its range. An empty group has none. */
  method QuantParams(group: seq<real>) returns (r: Result<GroupParams, ParamsError>)
    ensures group == [] ==> r == Err(EmptyGroup)
    ensures group != [] ==> r == Ok(ParamsOf(Minimum(group), Maximum(group)))
    ensures group != [] ==> r.Ok? && FitGroup(r.value, group)
  {
    if group == [] {
      return Err(EmptyGroup);
    }
    var min, max := group[0], group[0];
    assert RangeOf(group, 1, min, max);
    for i := 1 to |group|
      invariant RangeOf(group, i, min, max)
    {
      RangeStep(group, i, min, max);
      min, max := if group[i] < min then group[i] else min, if group[i] > max then group[i] else max;
    }
    assert group[..|group|] == group;
    RangeFits(group);
    return Ok(ParamsOf(min, max));
  }

  function Abs(x: real): real {
    if x >= 0.0 then x else -x
  }

  // ---------- in units of the scale ----------

  /** How many steps the code is off. */
  function UnitError(x: real, zero: int): real {
    Abs(x - ((UnitCode(x, zero) - zero) as real))
  }

  /**
   The steps that 16 codes can name reach from -zero to 15 - zero; beyond, a value is as far off as it is outside.
   The bound on `steps` keeps clear of values that wrap around in 32 bits.
   */
  lemma UnitErrorExactly(x: real, zero: int, steps: real)
    requires 1 <= zero <= QMAX + 1 && 0.5 <= steps <= 1000000000.0
    ensures UnitError(x, zero) <= steps <==>
      -(zero as real) - steps <= x <= (QMAX - zero) as real + steps
  {
    RoundNear(x);
  }

  /** The code is the rounded number of steps past the zero point, cut to 0 .. 15; but huge values wrap around to 0. */
  lemma CodeExactly(x: real, zero: int)
    requires 1 <= zero <= QMAX + 1
    ensures var k := Round(x) + zero;
      UnitCode(x, zero) == if k < 0 || k > 0x7fff_ffff then 0 else if k > 15 then 15 else k
  {
  }

  lemma ScaledError(x: real, k: real, scale: real, bound: real)
    requires scale > 0.0
    ensures Abs(x - k) <= bound <==> Abs(x * scale - k * scale) <= bound * scale
  {
    var d := x - k;
    assert x * scale - k * scale == d * scale;
    if d >= 0.0 {
      ScaleCompare(d, bound, scale);
    } else {
      ScaleCompare(-d, bound, scale);
      assert -(d * scale) == (-d) * scale;
    }
  }

  lemma ScaleCompare(d: real, bound: real, scale: real)
    requires scale > 0.0 && d >= 0.0
    ensures d <= bound <==> d * scale <= bound * scale
    ensures d * scale >= 0.0
  {
    assert bound * scale - d * scale == (bound - d) * scale;
  }

  // ---------- the bound, for any group ----------

  /** How far a value is from what its code stands for. */
  function CodeError(value: real, p: Params): real
    requires p.scale > 0.0
  {
    Abs(value - Dequant(CodeOf(value, p), p))
  }

  predicate Within(value: real, p: Params, steps: real)
    requires p.scale > 0.0
  {
    CodeError(value, p) <= steps * p.scale
  }

  lemma DequantError(value: real, p: GroupParams, q: int, x: real, steps: real)
    requires x * p.scale == value
    ensures Abs(value - Dequant(q, p)) <= steps * p.scale <==> Abs(x - ((q - p.zero) as real)) <= steps
  {
    ScaledError(x, (q - p.zero) as real, p.scale, steps);
  }

  /** A code off by so many steps, whatever the value's division by the scale looks like. */
  lemma WithinInUnits(value: real, p: GroupParams, q: int, x: real, steps: real)
    requires x * p.scale == value && q == CodeOf(value, p)
    ensures Within(value, p, steps) <==> Abs(x - ((q - p.zero) as real)) <= steps
  {
    DequantError(value, p, q, x, steps);
  }

  /** A value comes back within a number of steps exactly when it is at most as many steps outside the codes' reach. */
  lemma ValueWithinExactly(value: real, p: GroupParams, steps: real)
    requires 0.5 <= steps <= 1000000000.0
    ensures Within(value, p, steps) <==>
      -(p.zero as real) - steps <= value / p.scale <= (QMAX - p.zero) as real + steps
  {
    var x := value / p.scale;
    Quotient(value, p.scale);
    WithinInUnits(value, p, UnitCode(x, p.zero), x, steps);
    UnitErrorExactly(x, p.zero, steps);
  }

  lemma QuotientMonotone(x: real, y: real, s: real)
    requires s > 0.0 && x <= y
    ensures x / s <= y / s
  {
    Quotient(x, s);
    Quotient(y, s);
    CancelScale(x / s, y / s, s);
  }

  /** The codes reach from min to max, up to so many steps at either end. */
  predicate Reaches(min: real, max: real, steps: real) {
    var p := ParamsOf(min, max);
    -(p.zero as real) - steps <= min / p.scale && max / p.scale <= (QMAX - p.zero) as real + steps
  }

  /** Any group, wherever it lies: all its values come back within so many steps exactly when its ends are in reach. */
  lemma ErrorWithinExactly(min: real, max: real, steps: real)
    requires min <= max && 0.5 <= steps <= 1000000000.0
    ensures var p := ParamsOf(min, max);
      (forall value :: min <= value <= max ==> Within(value, p, steps)) <==> Reaches(min, max, steps)
  {
    var p := ParamsOf(min, max);
    ValueWithinExactly(min, p, steps);
    ValueWithinExactly(max, p, steps);
    QuotientMonotone(min, max, p.scale);
    if Reaches(min, max, steps) {
      forall value | min <= value <= max
        ensures Within(value, p, steps)
      {
        ValueWithinExactly(value, p, steps);
        QuotientMonotone(min, value, p.scale);
        QuotientMonotone(value, max, p.scale);
      }
    } else {
      assert !Within(min, p, steps) || !Within(max, p, steps);
    }
  }

  // ---------- groups that span zero ----------

  /** A group that spans zero and is not degenerate. */
  predicate Spans(min: real, max: real) {
    min <= 0.0 <= max && max - min >= NARROW
  }

  /** The zero point for a range that reaches down to -down. */
  function ZeroFor(down: real): int {
    Clamp(Round(down), 1, QMAX + 1)
  }

  /** With 15 steps across, the ends are in reach up to a step, or half a step when the zero point is not clamped. */
  lemma UnitReach(down: real, up: real)
    requires 0.0 <= down && 0.0 <= up && down + up <= 15.0
    ensures var zero := ZeroFor(down) as real;
      && -zero - 0.5 <= -down && up <= 16.0 - zero
      && (up <= 15.5 - zero <==> down >= 0.5 || up <= 14.5)
  {
    RoundNear(down);
  }

  lemma ScaleCoversRange(min: real, max: real)
    requires Spans(min, max)
    ensures max - min <= 15.0 * ParamsOf(min, max).scale
  {
    Quotient(max - min, 15.0);
  }

  lemma NonnegativeQuotient(a: real, s: real)
    requires s > 0.0 && a >= 0.0
    ensures a / s >= 0.0
  {
    Quotient(a, s);
    CancelScale(0.0, a / s, s);
  }

  lemma Opposite(x: real, y: real, s: real)
    requires s > 0.0 && x * s == -(y * s)
    ensures x == -y
  {
    Distribute(x, y, s);
    CancelScale(x + y, 0.0, s);
    CancelScale(0.0, x + y, s);
  }

  lemma OppositeQuotients(a: real, s: real)
    requires s > 0.0
    ensures -a / s == -(a / s)
  {
    Quotient(a, s);
    Quotient(-a, s);
    Opposite(-a / s, a / s, s);
  }

  lemma SumOfQuotients(a: real, b: real, s: real, bound: real)
    requires s > 0.0 && a + b <= bound * s
    ensures a / s + b / s <= bound
  {
    Quotient(a, s);
    Quotient(b, s);
    Distribute(a / s, b / s, s);
    CancelScale(a / s + b / s, bound, s);
  }

  /** The ends in units of the scale. */
  lemma InUnits(min: real, max: real, s: real, down: real, up: real)
    requires Spans(min, max) && s == ParamsOf(min, max).scale && down == -min / s && up == max / s
    ensures 0.0 <= down && 0.0 <= up && down + up <= 15.0 && min / s == -down
  {
    NonnegativeQuotient(-min, s);
    NonnegativeQuotient(max, s);
    OppositeQuotients(min, s);
    ScaleCoversRange(min, max);
    SumOfQuotients(-min, max, s, 15.0);
  }

  lemma SpanReach(min: real, max: real)
    requires Spans(min, max)
    ensures Reaches(min, max, 1.0)
    ensures var s := ParamsOf(min, max).scale;
      Reaches(min, max, 0.5) <==> -min / s >= 0.5 || max / s <= 14.5
  {
    var s := ParamsOf(min, max).scale;
    InUnits(min, max, s, -min / s, max / s);
    UnitReach(-min / s, max / s);
    assert ParamsOf(min, max).zero == ZeroFor(-min / s);
  }

  /** Any value of such a group comes back within one step of the scale. */
  lemma ErrorWithinScale(min: real, max: real, value: real)
    requires Spans(min, max) && min <= value <= max
    ensures Within(value, ParamsOf(min, max), 1.0)
  {
    SpanReach(min, max);
    ErrorWithinExactly(min, max, 1.0);
  }

  /** Every value comes back within half a step exactly when the zero point is unclamped, or the range stops short. */
  lemma ErrorWithinHalfScaleExactly(min: real, max: real)
    requires Spans(min, max)
    ensures var p := ParamsOf(min, max);
      (forall value :: min <= value <= max ==> Within(value, p, 0.5)) <==>
        -min / p.scale >= 0.5 || max / p.scale <= 14.5
  {
    SpanReach(min, max);
    ErrorWithinExactly(min, max, 0.5);
  }

  // ---------- degenerate groups ----------

  /** A group of equal values comes back within half a step exactly when it lies between -8.5 and 7.5. */
  lemma DegenerateWithinExactly(min: real, max: real)
    requires min <= max < min + NARROW
    ensures var p := ParamsOf(min, max);
      && p == Params(1.0, 8)
      && ((forall value :: min <= value <= max ==> Within(value, p, 0.5)) <==> -8.5 <= min && max <= 7.5)
  {
    ErrorWithinExactly(min, max, 0.5);
  }

  // ---------- groups away from zero ----------

  /** A group far from zero is clamped: in [10, 11] the top is missed by 151 steps. */
  lemma FarGroupExample()
    ensures !Within(11.0, ParamsOf(10.0, 11.0), 150.0) && Within(11.0, ParamsOf(10.0, 11.0), 151.0)
  {
    var p := ParamsOf(10.0, 11.0);
    assert p.scale == 1.0 / 15.0;
    assert -10.0 / p.scale == -150.0;
    assert 11.0 / p.scale == 165.0;
    assert Round(-150.0) == -150;
    assert p.zero == 1;
    ValueWithinExactly(11.0, p, 150.0);
    ValueWithinExactly(11.0, p, 151.0);
  }

  /** But a group need not span zero to be in reach: in [-16, -1] no value misses by more than half a step. */
  lemma NearGroupExample(value: real)
    requires -16.0 <= value <= -1.0
    ensures Within(value, ParamsOf(-16.0, -1.0), 0.5)
  {
    assert ParamsOf(-16.0, -1.0) == Params(1.0, 16);
    ErrorWithinExactly(-16.0, -1.0, 0.5);
  }
}
