/** What a quantized layer is worth: the objective it reaches, and that its compensation is the best there is. */
module GptqLoss {
  import opened Wrappers
  import opened Grids
  import opened RealSums
  import opened Matrices
  import Cholesky
  import opened Compensation
  import opened GptqHessian
  import opened GptqOrder
  import opened GptqQuantizer
  import opened GptqPacking
  import opened GptqDecoder
  import opened GptqRow
  import opened GptqLayerRow
  import opened Gptq

  /** Every original column has a turn, and the decoded weight there is the one committed on it. */
  lemma EveryWeightDecodes(layer: QuantizedGptqLayer, weights: seq<real>, samples: seq<seq<real>>, config: Config,
                           order: seq<nat>, u: Mat, decoded: seq<seq<real>>, c: nat, i: nat) returns (p: nat)
    requires QuantizedBy(layer, weights, samples, config, order, u) && c < layer.outFeatures && i < layer.inFeatures
    requires IsDecoded(layer, decoded)
    ensures p < layer.inFeatures && order[p] == i
    ensures decoded[c][i] == RowRun(weights, layer.inFeatures, config.groupSize, order, u, c).work[p]
  {
    p := EveryColumnOrdered(order, layer.inFeatures, i);
  }

  lemma LayerScaleIs(layer: QuantizedGptqLayer, row: seq<real>, groupSize: nat, u: Mat, c: nat, g: nat, start: nat,
                     min: real, max: real)
    requires groupSize > 0 && start == g * groupSize && start < |row|
    requires LayerGroupFits(layer, row, groupSize, u, c, g, start) && GroupSpans(row, groupSize, u, start, min, max)
    ensures var r := Run(row, groupSize, u, |row|);
      g < |r.groups| && Cell<real>(layer.scales, layer.outFeatures, g, c, 0.0) == r.groups[g].scale
  {
    GroupFits(row, groupSize, u, g, start, |row|);
    SameFit(Params(Cell<real>(layer.scales, layer.outFeatures, g, c, 0.0),
                   UnpackedZero(layer.qzeros, layer.outFeatures, g, c)),
            Run(row, groupSize, u, |row|).groups[g],
            GroupSlice(Run(row, groupSize, u, start).work, start, groupSize), min, max);
  }

  /** The first column taken of a group that spans zero is committed within one scale, the scale the layer stores. */
  lemma FirstColumnWithinLayerScale(layer: QuantizedGptqLayer, row: seq<real>, groupSize: nat, u: Mat, c: nat, g: nat,
                                    start: nat, min: real, max: real)
    requires groupSize > 0 && start == g * groupSize && start < |row|
    requires LayerGroupFits(layer, row, groupSize, u, c, g, start) && GroupSpans(row, groupSize, u, start, min, max)
    ensures Abs(Run(row, groupSize, u, start).work[start] - Run(row, groupSize, u, |row|).work[start])
      <= Cell<real>(layer.scales, layer.outFeatures, g, c, 0.0)
  {
    LayerScaleIs(layer, row, groupSize, u, c, g, start, min, max);
    FirstColumnWithinScale(row, groupSize, u, g, start, min, max);
  }

  /** How far the decoded weights of an output are from the given ones, in the order the columns are taken. */
  ghost function DecodedError(layer: QuantizedGptqLayer, weights: seq<real>, order: seq<nat>, c: nat): Vec {
    p =>
      if 0 <= p < |order| then
        Cell<real>(weights, layer.inFeatures, c, order[p], 0.0) - DecodedWeight(layer, c, order[p])
      else 0.0
  }

  lemma DecodedErrorIsDeviation(layer: QuantizedGptqLayer, weights: seq<real>, samples: seq<seq<real>>, config: Config,
                                order: seq<nat>, u: Mat, c: nat)
    requires QuantizedBy(layer, weights, samples, config, order, u) && c < layer.outFeatures
    ensures var row := TakenRow(weights, layer.inFeatures, order, c);
      Agree(layer.inFeatures, Deviation(row, RowRun(weights, layer.inFeatures, config.groupSize, order, u, c)),
            DecodedError(layer, weights, order, c))
  {
    var n, row := layer.inFeatures, TakenRow(weights, layer.inFeatures, order, c);
    var r := RowRun(weights, n, config.groupSize, order, u, c);
    forall p | 0 <= p < n
      ensures Deviation(row, r)(p) == DecodedError(layer, weights, order, c)(p)
    {
      assert DecodedWeight(layer, c, order[p]) == r.work[p];
      assert row[p] == WeightRow(weights, n, c)[order[p]];
    }
  }

  /** What is minimised: the squared output error over the samples, plus the damping times the squared weight error. */
  ghost function Objective(n: nat, samples: seq<seq<real>>, order: seq<nat>, damp: real, e: Vec): real {
    var out := Outputs(n, samples, order, e);
    Dot(|samples|, out, out) + damp * Dot(n, e, e)
  }

  lemma ObjectiveIsQuad(n: nat, samples: seq<seq<real>>, order: seq<nat>, damp: real, e: Vec, e': Vec)
    requires Agree(n, e, e')
    ensures Objective(n, samples, order, damp, e) == Quad(n, Damped(samples, order, damp), e')
  {
    DampedQuad(n, samples, order, damp, e);
    QuadAgree(n, Damped(samples, order, damp), Damped(samples, order, damp), e, e');
  }

  // ---------- under a bound on the calibration ----------

  /** The damping that a request uses. */
  ghost function DampFor(n: nat, samples: seq<seq<real>>, config: Config): real {
    DampOf(n, Gram(samples, |samples|), config.dampPercent)
  }

  /** A condition on the calibration alone: the damped diagonal of the Hessian is at most 1e24. */
  ghost predicate DiagonalBounded(n: nat, samples: seq<seq<real>>, damp: real) {
    forall i :: 0 <= i < n ==> Gram(samples, |samples|)(i, i) + damp <= LARGEST_DIAGONAL
  }

  /** With a bounded diagonal no pivot is skipped, whatever the weights. */
  lemma BoundedPivots(layer: QuantizedGptqLayer, weights: seq<real>, samples: seq<seq<real>>, config: Config,
                      order: seq<nat>, u: Mat)
    requires QuantizedBy(layer, weights, samples, config, order, u)
    requires DiagonalBounded(layer.inFeatures, samples, DampFor(layer.inFeatures, samples, config))
    ensures PivotsLarge(layer.inFeatures, u)
  {
    var n, damp := layer.inFeatures, DampFor(layer.inFeatures, samples, config);
    var h := Damped(samples, order, damp);
    DampedPosDef(n, samples, order, damp);
    forall j | 0 <= j < n
      ensures h(j, j) <= LARGEST_DIAGONAL
    {
      PermutedEntry(Gram(samples, |samples|), order, j, j);
      assert order[j] < n;
    }
    BoundedDiagonalPivots(n, h, u);
  }

  /** The objective at the decoded weights is the sum of the squared compensation coefficients. */
  lemma LayerLoss(layer: QuantizedGptqLayer, weights: seq<real>, samples: seq<seq<real>>, config: Config,
                  order: seq<nat>, u: Mat, c: nat)
    requires QuantizedBy(layer, weights, samples, config, order, u) && c < layer.outFeatures
    requires DiagonalBounded(layer.inFeatures, samples, DampFor(layer.inFeatures, samples, config))
    ensures var n, damp := layer.inFeatures, DampFor(layer.inFeatures, samples, config);
      var coeffs := Cholesky.VecOf(RowRun(weights, n, config.groupSize, order, u, c).coeffs);
      Objective(n, samples, order, damp, DecodedError(layer, weights, order, c)) == Dot(n, coeffs, coeffs)
  {
    BoundedPivots(layer, weights, samples, config, order, u);
    var n, row := layer.inFeatures, TakenRow(weights, layer.inFeatures, order, c);
    var damp := DampFor(n, samples, config);
    DampedPosDef(n, samples, order, damp);
    RunLoss(row, config.groupSize, Damped(samples, order, damp), u, n);
    DecodedErrorIsDeviation(layer, weights, samples, config, order, u, c);
    ObjectiveIsQuad(n, samples, order, damp, DecodedError(layer, weights, order, c),
      Deviation(row, RowRun(weights, n, config.groupSize, order, u, c)));
  }

  /**
   At every turn the compensated row is the one and only best choice: any other weights that agree on the
   columns committed so far have a larger objective.
   */
  lemma CompensationOptimal(layer: QuantizedGptqLayer, weights: seq<real>, samples: seq<seq<real>>, config: Config,
                            order: seq<nat>, u: Mat, c: nat, p: nat, other: Vec)
    requires QuantizedBy(layer, weights, samples, config, order, u) && c < layer.outFeatures && p <= layer.inFeatures
    requires DiagonalBounded(layer.inFeatures, samples, DampFor(layer.inFeatures, samples, config))
    requires var r := Run(TakenRow(weights, layer.inFeatures, order, c), config.groupSize, u, p);
      Agree(p, other, Cholesky.VecOf(r.work)) && !Agree(layer.inFeatures, other, Cholesky.VecOf(r.work))
    ensures var n, row := layer.inFeatures, TakenRow(weights, layer.inFeatures, order, c);
      var damp := DampFor(n, samples, config);
      Objective(n, samples, order, damp, Minus(Cholesky.VecOf(row), other))
        > Objective(n, samples, order, damp, Deviation(row, Run(row, config.groupSize, u, p)))
  {
    BoundedPivots(layer, weights, samples, config, order, u);
    var n, row := layer.inFeatures, TakenRow(weights, layer.inFeatures, order, c);
    var r := Run(row, config.groupSize, u, p);
    var damp := DampFor(n, samples, config);
    DampedPosDef(n, samples, order, damp);
    RunOptimal(row, config.groupSize, Damped(samples, order, damp), u, p, other);
    ObjectiveIsQuad(n, samples, order, damp, Minus(Cholesky.VecOf(row), other), Minus(Cholesky.VecOf(row), other));
    ObjectiveIsQuad(n, samples, order, damp, Deviation(row, r), Deviation(row, r));
  }

  // ---------- a request that skips a pivot ----------

  /** A sample that is zero outside its first entry. */
  function LoudSample(n: nat, x: real): (sample: seq<real>)
    ensures |sample| == n && forall i :: 0 <= i < n ==> sample[i] == if i == 0 then x else 0.0
  {
    seq(n, i requires 0 <= i < n => if i == 0 then x else 0.0)
  }

  const SKIPPING_CONFIG: Config := Config(4, 8, 0.0, false)

  /** Its Hessian has nothing off the diagonal of its first row. */
  lemma LoudHessian(n: nat, x: real, damp: real, i: nat, j: nat)
    requires i < n && j < n
    ensures var h := Damped([LoudSample(n, x)], GptqOrder.Identity(n), damp);
      h(i, j) == (if i == 0 && j == 0 then x * x else 0.0) + (if i == j then damp else 0.0)
  {
    var samples := [LoudSample(n, x)];
    assert Gram(samples, 1) == PlusOuter(Gram(samples, 0), Cholesky.VecOf(samples[0]));
    PermutedEntry(Gram(samples, 1), GptqOrder.Identity(n), i, j);
    var a, b := Cholesky.VecOf(samples[0])(i), Cholesky.VecOf(samples[0])(j);
    assert a == (if i == 0 then x else 0.0) && b == (if j == 0 then x else 0.0);
    assert Gram(samples, 1)(i, j) == 0.0 + a * b;
  }

  lemma SmallPivot(pivot: real, diagonal: real)
    requires pivot > 0.0 && diagonal * (pivot * pivot) == 1.0 && diagonal > LARGEST_DIAGONAL
    ensures pivot < TINY
  {
    var square := SquareOf(pivot);
    var rest := (diagonal - LARGEST_DIAGONAL) * square;
    ProductPositive(diagonal - LARGEST_DIAGONAL, square, rest);
    assert diagonal * square == LARGEST_DIAGONAL * square + rest;
    assert (pivot - TINY) * (pivot + TINY) == square - TINY * TINY;
    if pivot >= TINY {
      ProductNonnegative(pivot - TINY, pivot + TINY);
    }
  }

  lemma LoudPivot(n: nat, x: real, damp: real, u: Mat)
    requires n > 0 && damp > 0.0 && x * x >= LARGEST_DIAGONAL
    requires InverseFactor(n, Damped([LoudSample(n, x)], GptqOrder.Identity(n), damp), Transpose(u))
    ensures u(0, 0) < TINY
  {
    var h := Damped([LoudSample(n, x)], GptqOrder.Identity(n), damp);
    LoudHessian(n, x, damp, 0, 0);
    forall j | 0 < j < n
      ensures h(0, j) == 0.0
    {
      LoudHessian(n, x, damp, 0, j);
    }
    FirstPivot(n, h, Transpose(u));
    assert Transpose(u)(0, 0) > 0.0;
    SmallPivot(u(0, 0), h(0, 0));
  }

  lemma FirstRowIsSpike()
    ensures IsPermutation(GptqOrder.Identity(8), 8)
    ensures TakenRow(Spike(64, 0), 8, GptqOrder.Identity(8), 0) == Spike(8, 0)
  {
    forall i | 0 <= i < 8
      ensures WeightRow(Spike(64, 0), 8, 0)[i] == Spike(8, 0)[i]
    {
    }
  }

  /**
   A well-formed request whose compensation is incomplete: one calibration sample of 1e12 in the first column, and a
   weight of 15 there. Whatever factor the quantizer uses, the first pivot is below 1e-12 and its error is dropped.
   */
  lemma SkippedRequestExample(layer: QuantizedGptqLayer, samples: seq<seq<real>>, order: seq<nat>, u: Mat)
    requires samples == [LoudSample(8, 1000000000000.0)] && layer.inFeatures == 8 && layer.outFeatures == 8
    requires QuantizedBy(layer, Spike(64, 0), samples, SKIPPING_CONFIG, order, u)
    ensures RequestError(SKIPPING_CONFIG, 64, 8, 8, 8, 1) == None
    ensures var row := TakenRow(Spike(64, 0), 8, order, 0);
      var r := Run(row, 8, u, 8);
      !NothingSkipped(r, u) && !Agree(8, Apply(8, Transpose(u), Cholesky.VecOf(r.coeffs)), Deviation(row, r))
  {
    var damp := DampFor(8, samples, SKIPPING_CONFIG);
    LoudPivot(8, 1000000000000.0, damp, u);
    FirstRowIsSpike();
    SpikeError(8, 0, 8, u);
    DeviationExactly(Spike(8, 0), 8, u, 8);
  }
}
