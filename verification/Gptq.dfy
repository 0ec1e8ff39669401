/**
 The whole quantizer, and the decoder that reads its result. A well-formed request never fails, and what the
 decoder makes of the packed layer is, weight for weight, what the quantizer committed.
 */
module Gptq {
  import opened Wrappers
  import opened Grids
  import opened RealSums
  import opened Matrices
  import Cholesky
  import opened Compensation
  import opened GptqHessian
  import opened GptqOrder
  import opened GptqQuantizer
  import opened GptqPacking
  import opened GptqDecoder
  import opened GptqFactor
  import opened GptqRow
  import opened GptqLayerRow

  // ---------- requests ----------

  datatype Config = Config(bits: nat, groupSize: nat, dampPercent: real, actOrder: bool)

  datatype GptqError =
    | UnsupportedBits(bits: nat)
    | EmptyGroups
    | DampingOutOfRange(dampPercent: real)
    | EmptyLayer
    | RaggedInputs(inFeatures: nat)
    | RaggedOutputs(outFeatures: nat)
    | WeightCount(actual: nat, expected: nat)
    | CalibrationWidth(expected: nat, actual: nat)
    | NoSamples
    | NotFactorable

  function ConfigError(config: Config): Option<GptqError> {
    if config.bits != SUPPORTED_BITS then Some(UnsupportedBits(config.bits))
    else if config.groupSize == 0 then Some(EmptyGroups)
    else if !(0.0 <= config.dampPercent < 1.0) then Some(DampingOutOfRange(config.dampPercent))
    else None
  }

  function LayerError(weights: nat, outFeatures: nat, inFeatures: nat): Option<GptqError> {
    if inFeatures == 0 || outFeatures == 0 then Some(EmptyLayer)
    else if inFeatures % PACK_FACTOR != 0 then Some(RaggedInputs(inFeatures))
    else if outFeatures % PACK_FACTOR != 0 then Some(RaggedOutputs(outFeatures))
    else if weights != outFeatures * inFeatures then Some(WeightCount(weights, outFeatures * inFeatures))
    else None
  }

  /** The complaint is true of the request. */
  predicate Applies(e: GptqError, config: Config, weights: nat, outFeatures: nat, inFeatures: nat,
                    calibratedWidth: nat, samples: nat) {
    match e
    case UnsupportedBits(bits) => bits == config.bits != SUPPORTED_BITS
    case EmptyGroups => config.groupSize == 0
    case DampingOutOfRange(damp) => damp == config.dampPercent && (damp < 0.0 || damp >= 1.0)
    case EmptyLayer => inFeatures * outFeatures == 0
    case RaggedInputs(n) => n == inFeatures && n % PACK_FACTOR != 0
    case RaggedOutputs(n) => n == outFeatures && n % PACK_FACTOR != 0
    case WeightCount(actual, expected) => actual == weights != expected == outFeatures * inFeatures
    case CalibrationWidth(expected, actual) => actual == calibratedWidth != expected == inFeatures
    case NoSamples => samples == 0
    case NotFactorable => false
  }

  /** The order in which the checks are made. */
  function Rank(e: GptqError): nat {
    match e
    case UnsupportedBits(_) => 0
    case EmptyGroups => 1
    case DampingOutOfRange(_) => 2
    case EmptyLayer => 3
    case RaggedInputs(_) => 4
    case RaggedOutputs(_) => 5
    case WeightCount(_, _) => 6
    case CalibrationWidth(_, _) => 7
    case NoSamples => 8
    case NotFactorable => 9
  }

  /** The first complaint about a request, in the order the checks are made. */
  function RequestError(config: Config, weights: nat, outFeatures: nat, inFeatures: nat,
                        calibratedWidth: nat, samples: nat): (e: Option<GptqError>)
    ensures e.None? <==>
      && config.bits == SUPPORTED_BITS && config.groupSize > 0 && 0.0 <= config.dampPercent < 1.0
      && inFeatures > 0 && inFeatures % PACK_FACTOR == 0 && outFeatures > 0 && outFeatures % PACK_FACTOR == 0
      && weights == outFeatures * inFeatures && calibratedWidth == inFeatures && samples > 0
    ensures e.Some? ==> Applies(e.value, config, weights, outFeatures, inFeatures, calibratedWidth, samples)
    ensures e.Some? ==> forall other ::
      Applies(other, config, weights, outFeatures, inFeatures, calibratedWidth, samples) ==>
        Rank(e.value) <= Rank(other)
  {
    var configError, layerError := ConfigError(config), LayerError(weights, outFeatures, inFeatures);
    if configError.Some? then configError
    else if layerError.Some? then layerError
    else if calibratedWidth != inFeatures then Some(CalibrationWidth(inFeatures, calibratedWidth))
    else if samples == 0 then Some(NoSamples)
    else None
  }

  // ---------- column order ----------

  /** A permutation: by descending diagonal of the Hessian when asked for, else as is. */
  ghost predicate OrderFor(order: seq<nat>, n: nat, gram: Mat, actOrder: bool) {
    && IsPermutation(order, n)
    && (actOrder ==> Ordered(order, (i: nat) => gram(i, i)))
    && (!actOrder ==> order == GptqOrder.Identity(n))
  }

  lemma OrderedAgree(order: seq<nat>, n: nat, key: Key, key': Key)
    requires IsPermutation(order, n) && Ordered(order, key) && forall i: nat :: i < n ==> key(i) == key'(i)
    ensures Ordered(order, key')
  {
    forall i, j | 0 <= i < j < |order|
      ensures GptqOrder.Before(order[i], order[j], key')
    {
      assert GptqOrder.Before(order[i], order[j], key);
    }
  }

  method ComputeColumnOrder(calibration: GptqCalibration, actOrder: bool) returns (order: seq<nat>)
    requires calibration.Valid()
    ensures OrderFor(order, calibration.inFeatures, Gram(calibration.samples, |calibration.samples|), actOrder)
  {
    var n, h := calibration.inFeatures, calibration.hessian[..];
    ghost var gram := Gram(calibration.samples, |calibration.samples|);
    var key: Key := i => Cholesky.View(h, n)(i, i);
    order := ColumnOrder(n, key, actOrder);
    ColumnOrderCorrect(n, key, actOrder);
    forall i: nat | i < n
      ensures key(i) == gram(i, i)
    {
      assert Cholesky.View(h, n)(i, i) == gram(i, i);
    }
    if actOrder {
      OrderedAgree(order, n, key, (i: nat) => gram(i, i));
    }
  }

  // ---------- all rows ----------

  /** The weights of one output. */
  function WeightRow(weights: seq<real>, inFeatures: nat, c: nat): (row: seq<real>)
    ensures |row| == inFeatures
  {
    seq(inFeatures, i requires 0 <= i < inFeatures => Cell<real>(weights, inFeatures, c, i, 0.0))
  }

  lemma RowSlice(weights: seq<real>, rows: nat, inFeatures: nat, c: nat)
    requires |weights| == rows * inFeatures && c < rows
    ensures 0 <= c * inFeatures <= c * inFeatures + inFeatures <= |weights|
    ensures weights[c * inFeatures..c * inFeatures + inFeatures] == WeightRow(weights, inFeatures, c)
  {
    MulMonotone(c + 1, rows, inFeatures);
    assert (c + 1) * inFeatures == c * inFeatures + inFeatures;
    forall i | 0 <= i < inFeatures
      ensures weights[c * inFeatures + i] == Cell<real>(weights, inFeatures, c, i, 0.0)
    {
      InGrid(rows, inFeatures, c, i);
    }
  }

  /** The weights of one output, in the order their columns are taken. */
  ghost function TakenRow(weights: seq<real>, n: nat, order: seq<nat>, c: nat): (row: seq<real>)
    requires IsPermutation(order, n)
    ensures |row| == n
  {
    PermutedRow(WeightRow(weights, n, c), order)
  }

  /** The complete run of one output's row. */
  ghost function RowRun(weights: seq<real>, n: nat, groupSize: nat, order: seq<nat>, u: Mat, c: nat): RowState
    requires groupSize > 0 && IsPermutation(order, n)
  {
    Run(TakenRow(weights, n, order, c), groupSize, u, n)
  }

  /** The outputs before `count` are quantized. */
  ghost predicate RowsStored(t: Tables, d: Dims, weights: seq<real>, groupSize: nat, order: seq<nat>, u: Mat,
                             count: nat)
    requires groupSize > 0 && IsPermutation(order, d.inFeatures)
  {
    forall c :: 0 <= c < count ==> Stored(t, d, c, order, RowRun(weights, d.inFeatures, groupSize, order, u, c))
  }

  lemma RowGroups(weights: seq<real>, d: Dims, c: nat, groupSize: nat, order: seq<nat>,
                  gIdx: seq<nat>, u: seq<real>, o: nat)
    requires Setting(d, c, groupSize, order, gIdx, u)
    ensures |RowRun(weights, d.inFeatures, groupSize, order, Cholesky.View(u, d.inFeatures), o).groups| <= d.numGroups
  {
    RunCommitted(TakenRow(weights, d.inFeatures, order, o), groupSize, Cholesky.View(u, d.inFeatures), d.inFeatures);
    if d.inFeatures > 0 {
      GroupKnown(d, c, groupSize, order, gIdx, u, d.inFeatures - 1);
    }
  }

  lemma RowsStoredMore(t: Tables, t': Tables, weights: seq<real>, d: Dims, c: nat, groupSize: nat, order: seq<nat>,
                       gIdx: seq<nat>, u: seq<real>)
    requires Setting(d, c, groupSize, order, gIdx, u)
    requires RowsStored(t, d, weights, groupSize, order, Cholesky.View(u, d.inFeatures), c)
    requires Stored(t', d, c, order, RowRun(weights, d.inFeatures, groupSize, order, Cholesky.View(u, d.inFeatures), c))
    requires OnlyOutput(t, t', d, c)
    ensures RowsStored(t', d, weights, groupSize, order, Cholesky.View(u, d.inFeatures), c + 1)
  {
    var n, v := d.inFeatures, Cholesky.View(u, d.inFeatures);
    forall o | 0 <= o < c
      ensures Stored(t', d, o, order, RowRun(weights, n, groupSize, order, v, o))
    {
      RowGroups(weights, d, c, groupSize, order, gIdx, u, o);
      StoredKept(t, t', d, c, o, order, RowRun(weights, n, groupSize, order, v, o));
    }
  }

  method QuantizeRows(weights: seq<real>, d: Dims, groupSize: nat, order: seq<nat>, gIdx: seq<nat>, u: seq<real>)
      returns (t: Tables)
    requires d.outFeatures > 0 && Setting(d, 0, groupSize, order, gIdx, u)
    requires |weights| == d.outFeatures * d.inFeatures
    ensures Fits(t, d)
    ensures RowsStored(t, d, weights, groupSize, order, Cholesky.View(u, d.inFeatures), d.outFeatures)
  {
    var q := new Code[d.inFeatures * d.outFeatures](_ => 0);
    var scales := new real[d.numGroups * d.outFeatures](_ => 0.0);
    var zeros := new Byte[d.numGroups * d.outFeatures](_ => 0);
    for c := 0 to d.outFeatures
      invariant RowsStored(Tables(q[..], scales[..], zeros[..]), d, weights, groupSize, order,
                           Cholesky.View(u, d.inFeatures), c)
    {
      ghost var before := Tables(q[..], scales[..], zeros[..]);
      RowSlice(weights, d.outFeatures, d.inFeatures, c);
      var row := weights[c * d.inFeatures..c * d.inFeatures + d.inFeatures];
      QuantizeRow(row, d, c, groupSize, order, gIdx, u, q, scales, zeros);
      RowsStoredMore(before, Tables(q[..], scales[..], zeros[..]), weights, d, c, groupSize, order, gIdx, u);
    }
    t := Tables(q[..], scales[..], zeros[..]);
  }

  // ---------- round trip ----------

  /** Packed words that give back every code, and every zero point in 1 .. 16. */
  ghost predicate Unpacks(layer: QuantizedGptqLayer, t: Tables, d: Dims) {
    && layer.inFeatures == d.inFeatures && layer.outFeatures == d.outFeatures && layer.numGroups == d.numGroups
    && layer.scales == t.scales && d.outFeatures % PACK_FACTOR == 0
    && (forall i: nat, c: nat :: i < d.inFeatures && c < d.outFeatures ==>
      UnpackedCode(layer.qweight, d.outFeatures, i, c) == CodeAt(t.q, d.outFeatures, i, c))
    && (forall g: nat, col: nat | g < d.numGroups && col < d.outFeatures / PACK_FACTOR ::
      WordInRange(t.zeros, d.outFeatures, g, col) ==> WordRecovered(t.zeros, d.outFeatures, layer.qzeros, g, col))
  }

  lemma CodeDecodes(layer: QuantizedGptqLayer, t: Tables, d: Dims, c: nat, order: seq<nat>, r: RowState, p: nat)
    requires IsPermutation(order, d.inFeatures) && Unpacks(layer, t, d) && c < d.outFeatures
    requires Stored(t, d, c, order, r) && p < |r.codes|
    ensures UnpackedCode(layer.qweight, layer.outFeatures, order[p], c) == r.codes[p]
  {
    assert CodeAt(t.q, d.outFeatures, order[p], c) == r.codes[p];
  }

  /** The zero point of a group that the columns reach is one that the quantizer produces. */
  lemma ZeroInRange(t: Tables, d: Dims, weights: seq<real>, groupSize: nat, order: seq<nat>, u: Mat, g: nat, o: nat)
    requires groupSize > 0 && IsPermutation(order, d.inFeatures) && o < d.outFeatures
    requires RowsStored(t, d, weights, groupSize, order, u, d.outFeatures) && g < GroupCount(d.inFeatures, groupSize)
    ensures 1 <= ZeroAt(t.zeros, d.outFeatures, g, o) <= 16
  {
    RunCommitted(TakenRow(weights, d.inFeatures, order, o), groupSize, u, d.inFeatures);
    var r := RowRun(weights, d.inFeatures, groupSize, order, u, o);
    assert Stored(t, d, o, order, r) && g < |r.groups|;
    assert ZeroAt(t.zeros, d.outFeatures, g, o) == r.groups[g].zero;
  }

  /** So all zero points of its words come back. */
  lemma ZeroDecodes(layer: QuantizedGptqLayer, t: Tables, d: Dims, weights: seq<real>, groupSize: nat, order: seq<nat>,
                    u: Mat, g: nat, c: nat)
    requires groupSize > 0 && IsPermutation(order, d.inFeatures) && Unpacks(layer, t, d)
    requires RowsStored(t, d, weights, groupSize, order, u, d.outFeatures)
    requires g < GroupCount(d.inFeatures, groupSize) && g < d.numGroups && c < d.outFeatures
    ensures UnpackedZero(layer.qzeros, d.outFeatures, g, c) == ZeroAt(t.zeros, d.outFeatures, g, c)
  {
    var col: nat := c / PACK_FACTOR;
    forall i: nat | i < PACK_FACTOR
      ensures 1 <= WordZero(t.zeros, d.outFeatures, g, col, i) <= 16
    {
      ZeroInRange(t, d, weights, groupSize, order, u, g, PACK_FACTOR * col + i);
    }
    assert WordInRange(t.zeros, d.outFeatures, g, col);
    ZeroRecovered(layer.qzeros, t.zeros, d.outFeatures, g, c);
  }

  lemma ZeroRecovered(qzeros: seq<int>, zeros: seq<Byte>, outFeatures: nat, g: nat, c: nat)
    requires WordRecovered(zeros, outFeatures, qzeros, g, c / PACK_FACTOR)
    ensures UnpackedZero(qzeros, outFeatures, g, c) == ZeroAt(zeros, outFeatures, g, c)
  {
    var col, k: nat := c / PACK_FACTOR, c % PACK_FACTOR;
    assert UnpackedZero(qzeros, outFeatures, g, PACK_FACTOR * col + k) == WordZero(zeros, outFeatures, g, col, k);
  }

  /** The decoder sees the zero points of the first `groups` groups of an output. */
  ghost predicate ZerosDecode(layer: QuantizedGptqLayer, t: Tables, d: Dims, groups: nat, c: nat) {
    forall g: nat :: g < groups ==>
      UnpackedZero(layer.qzeros, d.outFeatures, g, c) == ZeroAt(t.zeros, d.outFeatures, g, c)
  }

  lemma ParamsDecode(layer: QuantizedGptqLayer, t: Tables, d: Dims, c: nat, order: seq<nat>, r: RowState, g: nat)
    requires Unpacks(layer, t, d) && ZerosDecode(layer, t, d, |r.groups|, c)
    requires Stored(t, d, c, order, r) && g < |r.groups|
    ensures UnpackedZero(layer.qzeros, layer.outFeatures, g, c) == r.groups[g].zero
    ensures Cell<real>(layer.scales, layer.outFeatures, g, c, 0.0) == r.groups[g].scale
  {
    assert ZeroAt(t.zeros, d.outFeatures, g, c) == r.groups[g].zero;
  }

  lemma GroupOfColumn(order: seq<nat>, groupSize: nat, gIdx: seq<nat>, p: nat)
    requires groupSize > 0 && GroupIndex(order, groupSize, gIdx) && p < |order|
    ensures order[p] < |gIdx| && gIdx[order[p]] == p / groupSize
  {
  }

  lemma DecodedValue(layer: QuantizedGptqLayer, c: nat, i: nat, g: nat, code: int, params: GroupParams)
    requires i < |layer.gIdx| && layer.gIdx[i] == g
    requires UnpackedCode(layer.qweight, layer.outFeatures, i, c) == code
    requires UnpackedZero(layer.qzeros, layer.outFeatures, g, c) == params.zero
    requires Cell<real>(layer.scales, layer.outFeatures, g, c, 0.0) == params.scale
    ensures DecodedWeight(layer, c, i) == Dequant(code, params)
  {
  }

  lemma CommittedAt(r: RowState, groupSize: nat, n: nat, p: nat, g: nat)
    requires groupSize > 0 && Committed(r, groupSize, n) && p < n && g == p / groupSize
    ensures g < |r.groups| && p < |r.codes| && r.work[p] == Dequant(r.codes[p], r.groups[g])
  {
  }

  /** Decoding column order[p] of an output gives the weight its run committed at turn p. */
  lemma DecodesCommitted(layer: QuantizedGptqLayer, t: Tables, d: Dims, c: nat, groupSize: nat, order: seq<nat>,
                         u: seq<real>, r: RowState, p: nat)
    requires Setting(d, c, groupSize, order, layer.gIdx, u) && Unpacks(layer, t, d)
    requires ZerosDecode(layer, t, d, |r.groups|, c)
    requires Stored(t, d, c, order, r) && Committed(r, groupSize, d.inFeatures) && p < d.inFeatures
    ensures DecodedWeight(layer, c, order[p]) == r.work[p]
  {
    GroupKnown(d, c, groupSize, order, layer.gIdx, u, p);
    GroupOfColumn(order, groupSize, layer.gIdx, p);
    var g := layer.gIdx[order[p]];
    CommittedAt(r, groupSize, d.inFeatures, p, g);
    CodeDecodes(layer, t, d, c, order, r, p);
    ParamsDecode(layer, t, d, c, order, r, g);
    DecodedValue(layer, c, order[p], g, r.codes[p], r.groups[g]);
  }

  /**
   The layer's scale and zero point for group g of an output fit the working values that the group's columns, from
   `start` on, have when the first of them is reached.
   */
  ghost predicate LayerGroupFits(layer: QuantizedGptqLayer, row: seq<real>, groupSize: nat, u: Mat, c: nat, g: nat,
                                 start: nat)
    requires groupSize > 0 && start <= |row|
  {
    var scale := Cell<real>(layer.scales, layer.outFeatures, g, c, 0.0);
    var zero := UnpackedZero(layer.qzeros, layer.outFeatures, g, c);
    && scale > 0.0 && 1 <= zero <= 16
    && FitGroup(Params(scale, zero), GroupSlice(Run(row, groupSize, u, start).work, start, groupSize))
  }

  /** What the quantizer promises about its result. */
  ghost predicate QuantizedBy(layer: QuantizedGptqLayer, weights: seq<real>, samples: seq<seq<real>>, config: Config,
                              order: seq<nat>, u: Mat) {
    var n, gram := layer.inFeatures, Gram(samples, |samples|);
    && layer.bits == config.bits == SUPPORTED_BITS && layer.groupSize == config.groupSize > 0
    && OrderFor(order, n, gram, config.actOrder) && GroupIndex(order, config.groupSize, layer.gIdx)
    && InverseFactor(n, Damped(samples, order, DampOf(n, gram, config.dampPercent)), Transpose(u))
    && (forall c, p :: 0 <= c < layer.outFeatures && 0 <= p < n ==>
      DecodedWeight(layer, c, order[p]) == RowRun(weights, n, config.groupSize, order, u, c).work[p])
    && forall c: nat, g: nat, start: nat | c < layer.outFeatures && start == g * config.groupSize && start < n ::
      LayerGroupFits(layer, TakenRow(weights, n, order, c), config.groupSize, u, c, g, start)
  }

  /** The decoder sees every zero point of an output. */
  lemma RowZerosDecode(layer: QuantizedGptqLayer, t: Tables, d: Dims, weights: seq<real>, groupSize: nat,
                       order: seq<nat>, u: seq<real>, c: nat)
    requires Setting(d, c, groupSize, order, layer.gIdx, u) && Unpacks(layer, t, d)
    requires RowsStored(t, d, weights, groupSize, order, Cholesky.View(u, d.inFeatures), d.outFeatures)
    ensures var r := RowRun(weights, d.inFeatures, groupSize, order, Cholesky.View(u, d.inFeatures), c);
      Stored(t, d, c, order, r) && Committed(r, groupSize, d.inFeatures) && ZerosDecode(layer, t, d, |r.groups|, c)
  {
    var v := Cholesky.View(u, d.inFeatures);
    var r := RowRun(weights, d.inFeatures, groupSize, order, v, c);
    RunCommitted(TakenRow(weights, d.inFeatures, order, c), groupSize, v, d.inFeatures);
    RowGroups(weights, d, c, groupSize, order, layer.gIdx, u, c);
    forall g: nat | g < |r.groups|
      ensures UnpackedZero(layer.qzeros, d.outFeatures, g, c) == ZeroAt(t.zeros, d.outFeatures, g, c)
    {
      ZeroDecodes(layer, t, d, weights, groupSize, order, v, g, c);
    }
  }

  lemma RowDecodes(layer: QuantizedGptqLayer, t: Tables, d: Dims, weights: seq<real>, groupSize: nat, order: seq<nat>,
                   u: seq<real>, c: nat, p: nat)
    requires Setting(d, c, groupSize, order, layer.gIdx, u) && Unpacks(layer, t, d)
    requires RowsStored(t, d, weights, groupSize, order, Cholesky.View(u, d.inFeatures), d.outFeatures)
    requires p < d.inFeatures
    ensures DecodedWeight(layer, c, order[p])
      == RowRun(weights, d.inFeatures, groupSize, order, Cholesky.View(u, d.inFeatures), c).work[p]
  {
    var r := RowRun(weights, d.inFeatures, groupSize, order, Cholesky.View(u, d.inFeatures), c);
    RowZerosDecode(layer, t, d, weights, groupSize, order, u, c);
    DecodesCommitted(layer, t, d, c, groupSize, order, u, r, p);
  }

  lemma RowGroupFits(layer: QuantizedGptqLayer, t: Tables, d: Dims, weights: seq<real>, groupSize: nat,
                     order: seq<nat>, u: seq<real>, c: nat, g: nat, start: nat)
    requires Setting(d, c, groupSize, order, layer.gIdx, u) && Unpacks(layer, t, d)
    requires RowsStored(t, d, weights, groupSize, order, Cholesky.View(u, d.inFeatures), d.outFeatures)
    requires start == g * groupSize && start < d.inFeatures
    ensures LayerGroupFits(layer, TakenRow(weights, d.inFeatures, order, c), groupSize,
                           Cholesky.View(u, d.inFeatures), c, g, start)
  {
    var v, row := Cholesky.View(u, d.inFeatures), TakenRow(weights, d.inFeatures, order, c);
    RowZerosDecode(layer, t, d, weights, groupSize, order, u, c);
    GroupFits(row, groupSize, v, g, start, d.inFeatures);
    ParamsDecode(layer, t, d, c, order, RowRun(weights, d.inFeatures, groupSize, order, v, c), g);
  }

  lemma RoundTrip(layer: QuantizedGptqLayer, t: Tables, d: Dims, weights: seq<real>, groupSize: nat, order: seq<nat>,
                  u: seq<real>)
    requires Setting(d, 0, groupSize, order, layer.gIdx, u) && Unpacks(layer, t, d)
    requires RowsStored(t, d, weights, groupSize, order, Cholesky.View(u, d.inFeatures), d.outFeatures)
    ensures forall c, p :: 0 <= c < d.outFeatures && 0 <= p < d.inFeatures ==>
      DecodedWeight(layer, c, order[p])
        == RowRun(weights, d.inFeatures, groupSize, order, Cholesky.View(u, d.inFeatures), c).work[p]
    ensures forall c: nat, g: nat, start: nat | c < d.outFeatures && start == g * groupSize && start < d.inFeatures ::
      LayerGroupFits(layer, TakenRow(weights, d.inFeatures, order, c), groupSize,
                     Cholesky.View(u, d.inFeatures), c, g, start)
  {
    forall c, p | 0 <= c < d.outFeatures && 0 <= p < d.inFeatures
      ensures DecodedWeight(layer, c, order[p])
        == RowRun(weights, d.inFeatures, groupSize, order, Cholesky.View(u, d.inFeatures), c).work[p]
    {
      RowDecodes(layer, t, d, weights, groupSize, order, u, c, p);
    }
    forall c: nat, g: nat, start: nat | c < d.outFeatures && start == g * groupSize && start < d.inFeatures
      ensures LayerGroupFits(layer, TakenRow(weights, d.inFeatures, order, c), groupSize,
                             Cholesky.View(u, d.inFeatures), c, g, start)
    {
      RowGroupFits(layer, t, d, weights, groupSize, order, u, c, g, start);
    }
  }

  // ---------- the quantizer ----------

  method PackLayer(t: Tables, d: Dims, gIdx: seq<nat>, config: Config)
      returns (r: Result<QuantizedGptqLayer, PackError>)
    requires Fits(t, d) && d.inFeatures % PACK_FACTOR == 0 && d.outFeatures % PACK_FACTOR == 0
    ensures r.Ok? && Unpacks(r.value, t, d)
    ensures |r.value.qweight| == d.inFeatures / PACK_FACTOR * d.outFeatures
    ensures |r.value.qzeros| == d.numGroups * (d.outFeatures / PACK_FACTOR)
    ensures r.value.numGroups == d.numGroups
    ensures r.value.gIdx == gIdx && r.value.bits == config.bits && r.value.groupSize == config.groupSize
  {
    var qweight := PackQweight(t.q, d.inFeatures, d.outFeatures);
    var qzeros := PackQzeros(t.zeros, d.numGroups, d.outFeatures);
    if qzeros.Err? {
      return Err(RaggedOutput(d.outFeatures));
    }
    return Ok(QuantizedGptqLayer(qweight, qzeros.value, t.scales, gIdx,
      d.inFeatures, d.outFeatures, d.numGroups, config.bits, config.groupSize));
  }

  /** Fails exactly on a malformed request: the factorisations and the packers never refuse. */
  method QuantizeGptq(weights: seq<real>, outFeatures: nat, inFeatures: nat, calibration: GptqCalibration,
                      config: Config, sqrt: Cholesky.SquareRoot) returns (r: Result<QuantizedGptqLayer, GptqError>)
    requires calibration.Valid() && Cholesky.IsSquareRoot(sqrt)
    ensures var e := RequestError(config, |weights|, outFeatures, inFeatures,
                                  calibration.inFeatures, |calibration.samples|);
      if e.Some? then r == Err(e.value) else r.Ok?
    ensures r.Ok? ==> r.value.inFeatures == inFeatures && r.value.outFeatures == outFeatures && Shaped(r.value)
    ensures r.Ok? ==> r.value.numGroups > 0 && r.value.numGroups - 1 in r.value.gIdx
    ensures r.Ok? ==> exists order, u :: QuantizedBy(r.value, weights, calibration.samples, config, order, u)
  {
    var e := RequestError(config, |weights|, outFeatures, inFeatures, calibration.inFeatures, calibration.nsamples);
    if e.Some? {
      return Err(e.value);
    }
    ghost var samples := calibration.samples;
    var order := ComputeColumnOrder(calibration, config.actOrder);
    var hessian := calibration.DampedPermutedHessian(order, config.dampPercent);
    ghost var damp := DampOf(inFeatures, Gram(samples, |samples|), config.dampPercent);
    DampedPosDef(inFeatures, samples, order, damp);
    var factor := CompensationFactor(hessian[..], inFeatures, sqrt, Damped(samples, order, damp));
    if factor.Err? {
      return Err(NotFactorable);
    }
    var gIdx := MakeGroupIndex(inFeatures, config.groupSize, order);
    var numGroups := NumGroups(gIdx);
    var d := Dims(inFeatures, outFeatures, numGroups);
    var t := QuantizeRows(weights, d, config.groupSize, order, gIdx, factor.value);
    var packed := PackLayer(t, d, gIdx, config);
    if packed.Err? {
      return Err(RaggedOutputs(outFeatures));
    }
    RoundTrip(packed.value, t, d, weights, config.groupSize, order, factor.value);
    assert QuantizedBy(packed.value, weights, samples, config, order, Cholesky.View(factor.value, inFeatures));
    return Ok(packed.value);
  }
}
