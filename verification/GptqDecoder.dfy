/**
 The packed layer, and the decoder that reads it: eight planes of nibbles, stacked next to each other, reshaped,
 and combined weight by weight with the scale and the zero point of the column's group.
 */
module GptqDecoder {
  import opened Wrappers
  import opened Grids
  import opened GptqPacking

  const SUPPORTED_BITS: nat := 4

  datatype QuantizedGptqLayer = QuantizedGptqLayer(
    qweight: seq<int>, qzeros: seq<int>, scales: seq<real>, gIdx: seq<nat>,
    inFeatures: nat, outFeatures: nat, numGroups: nat, bits: nat, groupSize: nat)

  datatype DecodeError = OnlyFourBits(bits: nat) | ShapeMismatch

  /** The buffers fill tensors of the shapes the layer declares, and every column's group exists. */
  predicate Shaped(layer: QuantizedGptqLayer) {
    && layer.inFeatures % PACK_FACTOR == 0 && layer.outFeatures % PACK_FACTOR == 0
    && |layer.qweight| == layer.inFeatures / PACK_FACTOR * layer.outFeatures
    && |layer.qzeros| == layer.numGroups * (layer.outFeatures / PACK_FACTOR)
    && |layer.scales| == layer.numGroups * layer.outFeatures
    && |layer.gIdx| == layer.inFeatures && forall i :: 0 <= i < |layer.gIdx| ==> layer.gIdx[i] < layer.numGroups
  }

  /** (code - zero) * scale, with the group looked up by original column. */
  function DecodedWeight(layer: QuantizedGptqLayer, c: nat, i: nat): real {
    var g := if i < |layer.gIdx| then layer.gIdx[i] else 0;
    var code := UnpackedCode(layer.qweight, layer.outFeatures, i, c);
    var zero := UnpackedZero(layer.qzeros, layer.outFeatures, g, c);
    ((code - zero) as real) * Cell<real>(layer.scales, layer.outFeatures, g, c, 0.0)
  }

  // ---------- planes ----------

  type Planes = p: seq<seq<int>> | |p| == PACK_FACTOR witness [[], [], [], [], [], [], [], []]

  /** Plane k holds nibble k of every word, plus an offset. */
  ghost predicate ArePlanes(planes: Planes, packed: seq<int>, offset: int) {
    forall k: nat :: k < PACK_FACTOR ==> IsPlane(planes[k], packed, offset, k)
  }

  ghost predicate IsPlane(plane: seq<int>, packed: seq<int>, offset: int, k: nat) {
    |plane| == |packed| && forall x :: 0 <= x < |packed| ==> plane[x] == Nibble(packed[x], k) + offset
  }

  method Unpack(packed: seq<int>, offset: int) returns (planes: Planes)
    ensures ArePlanes(planes, packed, offset)
  {
    var unpacked: seq<seq<int>> := [];
    for i := 0 to PACK_FACTOR
      invariant |unpacked| == i && forall k: nat :: k < i ==> IsPlane(unpacked[k], packed, offset, k)
    {
      var masked := seq(|packed|, x requires 0 <= x < |packed| => Nibble(packed[x], i) + offset);
      unpacked := unpacked + [masked];
    }
    planes := unpacked;
  }

  // ---------- stacking ----------

  /** A table one row longer. */
  lemma RowAppended(flat: seq<int>, row: seq<int>, cols: nat, n: nat, i: nat, c: nat)
    requires |flat| == n * cols && |row| == cols && c < cols && i <= n
    ensures Cell(flat + row, cols, i, c, 0) == if i == n then row[c] else Cell(flat, cols, i, c, 0)
  {
    if i < n {
      InGrid(n, cols, i, c);
    }
  }

  /** Row 8 r + k of the reshaped stack is row r of plane k. */
  ghost predicate StackedUpTo(flat: seq<int>, planes: Planes, cols: nat, n: nat) {
    && |flat| == n * cols
    && forall i: nat, c: nat :: i < n && c < cols ==>
      Cell(flat, cols, i, c, 0) == Cell(planes[i % PACK_FACTOR], cols, i / PACK_FACTOR, c, 0)
  }

  lemma StackRow(flat: seq<int>, planes: Planes, rows: nat, cols: nat, r: nat, k: nat, row: seq<int>)
    requires r < rows && k < PACK_FACTOR && StackedUpTo(flat, planes, cols, r * PACK_FACTOR + k)
    requires |planes[k]| == rows * cols && 0 <= r * cols <= r * cols + cols <= |planes[k]|
    requires row == planes[k][r * cols..r * cols + cols]
    ensures StackedUpTo(flat + row, planes, cols, r * PACK_FACTOR + k + 1)
  {
    var n := r * PACK_FACTOR + k;
    assert (n + 1) * cols == n * cols + cols;
    assert n / PACK_FACTOR == r && n % PACK_FACTOR == k;
    forall i: nat, c: nat | i < n + 1 && c < cols
      ensures Cell(flat + row, cols, i, c, 0) == Cell(planes[i % PACK_FACTOR], cols, i / PACK_FACTOR, c, 0)
    {
      RowAppended(flat, row, cols, n, i, c);
      InGrid(rows, cols, r, c);
    }
  }

  /** Stacks the planes on the second of three dimensions and reads the result as rows of `cols`. */
  method StackRows(planes: Planes, rows: nat, cols: nat) returns (flat: seq<int>)
    requires forall k: nat :: k < PACK_FACTOR ==> |planes[k]| == rows * cols
    ensures StackedUpTo(flat, planes, cols, rows * PACK_FACTOR)
  {
    flat := [];
    for r := 0 to rows
      invariant StackedUpTo(flat, planes, cols, r * PACK_FACTOR)
    {
      MulMonotone(r + 1, rows, cols);
      assert (r + 1) * cols == r * cols + cols;
      for k := 0 to PACK_FACTOR
        invariant StackedUpTo(flat, planes, cols, r * PACK_FACTOR + k)
      {
        var row := planes[k][r * cols..r * cols + cols];
        StackRow(flat, planes, rows, cols, r, k, row);
        flat := flat + row;
      }
    }
  }

  /** Entries 8 x .. 8 x + 7 are entry x of the eight planes. */
  ghost predicate InterleavedUpTo(flat: seq<int>, planes: Planes, n: nat) {
    && |flat| == n * PACK_FACTOR
    && forall x: nat, k: nat :: x < n && k < PACK_FACTOR && x < |planes[k]| ==>
      Cell(flat, PACK_FACTOR, x, k, 0) == planes[k][x]
  }

  /** Stacks the planes on the last dimension. */
  method StackEntries(planes: Planes, count: nat) returns (flat: seq<int>)
    requires forall k: nat :: k < PACK_FACTOR ==> |planes[k]| == count
    ensures InterleavedUpTo(flat, planes, count)
  {
    flat := [];
    for x := 0 to count
      invariant InterleavedUpTo(flat, planes, x)
    {
      var entry := seq(PACK_FACTOR, k requires 0 <= k < PACK_FACTOR => planes[k][x]);
      InterleaveEntry(flat, planes, count, x, entry);
      flat := flat + entry;
    }
  }

  lemma InterleaveEntry(flat: seq<int>, planes: Planes, count: nat, x: nat, entry: seq<int>)
    requires x < count && InterleavedUpTo(flat, planes, x) && |entry| == PACK_FACTOR
    requires forall k: nat :: k < PACK_FACTOR ==> |planes[k]| == count && entry[k] == planes[k][x]
    ensures InterleavedUpTo(flat + entry, planes, x + 1)
  {
    forall y: nat, k: nat | y < x + 1 && k < PACK_FACTOR && y < |planes[k]|
      ensures Cell(flat + entry, PACK_FACTOR, y, k, 0) == planes[k][y]
    {
      RowAppended(flat, entry, PACK_FACTOR, x, y, k);
    }
  }

  // ---------- reshaped tables ----------

  /** Reshaped to one row per input, the codes are where the packer's layout has them. */
  lemma ReshapedCodes(flat: seq<int>, planes: Planes, packed: seq<int>, rows: nat, cols: nat, i: nat, c: nat)
    requires StackedUpTo(flat, planes, cols, rows * PACK_FACTOR) && ArePlanes(planes, packed, 0)
    requires |packed| == rows * cols && i < rows * PACK_FACTOR && c < cols
    ensures Cell(flat, cols, i, c, 0) == UnpackedCode(packed, cols, i, c)
  {
    var r, k: nat := i / PACK_FACTOR, i % PACK_FACTOR;
    InGrid(rows, cols, r, c);
    assert IsPlane(planes[k], packed, 0, k);
  }

  /** Reshaped to one row per group, the zero points are where the packer's layout has them. */
  lemma ReshapedZeros(flat: seq<int>, planes: Planes, packed: seq<int>, rows: nat, words: nat, g: nat, c: nat)
    requires InterleavedUpTo(flat, planes, rows * words) && ArePlanes(planes, packed, 1)
    requires |packed| == rows * words && g < rows && c < PACK_FACTOR * words
    ensures Cell(flat, PACK_FACTOR * words, g, c, 0) == UnpackedZero(packed, PACK_FACTOR * words, g, c)
  {
    var col, k: nat := c / PACK_FACTOR, c % PACK_FACTOR;
    InGrid(rows, words, g, col);
    InGrid(rows, PACK_FACTOR * words, g, c);
    var x := g * words + col;
    assert g * (PACK_FACTOR * words) + c == x * PACK_FACTOR + k;
    assert IsPlane(planes[k], packed, 1, k);
    assert Cell(flat, PACK_FACTOR, x, k, 0) == planes[k][x];
  }

  // ---------- the decoder ----------

  /** The decoded weights, one row per output: what the layer's words say, entry by entry. */
  ghost predicate IsDecoded(layer: QuantizedGptqLayer, weights: seq<seq<real>>) {
    && |weights| == layer.outFeatures
    && (forall c :: 0 <= c < |weights| ==> |weights[c]| == layer.inFeatures)
    && forall c: nat, i: nat | c < |weights| && i < |weights[c]| :: weights[c][i] == DecodedWeight(layer, c, i)
  }

  /**
   The weight of output c and column i, read straight from the buffers: the code from word (i / 8, c), the zero point,
   stored less one, from word (g, c / 8), the scale from entry (g, c), where g is the column's group.
   */
  ghost predicate ReadsWeight(layer: QuantizedGptqLayer, c: nat, i: nat, weight: real) {
    && i < |layer.gIdx|
    && var g, outs := layer.gIdx[i], layer.outFeatures;
    var code, zero, scale := i / 8 * outs + c, g * (outs / 8) + c / 8, g * outs + c;
    && 0 <= code < |layer.qweight| && 0 <= zero < |layer.qzeros| && 0 <= scale < |layer.scales|
    && weight == ((Bits(layer.qweight[code], i % 8) - (Bits(layer.qzeros[zero], c % 8) + 1)) as real)
         * layer.scales[scale]
  }

  lemma DecodedReads(layer: QuantizedGptqLayer, c: nat, i: nat)
    requires Shaped(layer) && c < layer.outFeatures && i < layer.inFeatures
    ensures ReadsWeight(layer, c, i, DecodedWeight(layer, c, i))
  {
    var g, outs := layer.gIdx[i], layer.outFeatures;
    InGrid(layer.inFeatures / PACK_FACTOR, outs, i / PACK_FACTOR, c);
    InGrid(layer.numGroups, outs / PACK_FACTOR, g, c / PACK_FACTOR);
    InGrid(layer.numGroups, outs, g, c);
    NibbleIsBits(layer.qweight[i / PACK_FACTOR * outs + c], i % PACK_FACTOR);
    NibbleIsBits(layer.qzeros[g * (outs / PACK_FACTOR) + c / PACK_FACTOR], c % PACK_FACTOR);
  }

  method UnpackCodes(layer: QuantizedGptqLayer) returns (codes: seq<int>)
    requires Shaped(layer)
    ensures forall i: nat, c: nat :: i < layer.inFeatures && c < layer.outFeatures ==>
      Cell(codes, layer.outFeatures, i, c, 0) == UnpackedCode(layer.qweight, layer.outFeatures, i, c)
  {
    var rows := layer.inFeatures / PACK_FACTOR;
    var planes := Unpack(layer.qweight, 0);
    assert forall k: nat :: k < PACK_FACTOR ==> IsPlane(planes[k], layer.qweight, 0, k);
    codes := StackRows(planes, rows, layer.outFeatures);
    forall i: nat, c: nat | i < layer.inFeatures && c < layer.outFeatures
      ensures Cell(codes, layer.outFeatures, i, c, 0) == UnpackedCode(layer.qweight, layer.outFeatures, i, c)
    {
      ReshapedCodes(codes, planes, layer.qweight, rows, layer.outFeatures, i, c);
    }
  }

  method UnpackZeros(layer: QuantizedGptqLayer) returns (zeros: seq<int>)
    requires Shaped(layer)
    ensures forall g: nat, c: nat :: g < layer.numGroups && c < layer.outFeatures ==>
      Cell(zeros, layer.outFeatures, g, c, 0) == UnpackedZero(layer.qzeros, layer.outFeatures, g, c)
  {
    var words := layer.outFeatures / PACK_FACTOR;
    assert layer.outFeatures == PACK_FACTOR * words;
    var planes := Unpack(layer.qzeros, 1);
    assert forall k: nat :: k < PACK_FACTOR ==> IsPlane(planes[k], layer.qzeros, 1, k);
    zeros := StackEntries(planes, layer.numGroups * words);
    forall g: nat, c: nat | g < layer.numGroups && c < layer.outFeatures
      ensures Cell(zeros, layer.outFeatures, g, c, 0) == UnpackedZero(layer.qzeros, layer.outFeatures, g, c)
    {
      ReshapedZeros(zeros, planes, layer.qzeros, layer.numGroups, words, g, c);
    }
  }

  /** (code - zero) * scale from the unpacked tables, with zero and scale selected by the column's group. */
  function Combined(layer: QuantizedGptqLayer, codes: seq<int>, zeros: seq<int>, c: nat, i: nat): real
    requires i < |layer.gIdx|
  {
    var g, outs := layer.gIdx[i], layer.outFeatures;
    ((Cell(codes, outs, i, c, 0) - Cell(zeros, outs, g, c, 0)) as real) * Cell<real>(layer.scales, outs, g, c, 0.0)
  }

  lemma CombinedIsDecoded(layer: QuantizedGptqLayer, codes: seq<int>, zeros: seq<int>, c: nat, i: nat)
    requires i < |layer.gIdx|
    requires var outs := layer.outFeatures;
      && Cell(codes, outs, i, c, 0) == UnpackedCode(layer.qweight, outs, i, c)
      && Cell(zeros, outs, layer.gIdx[i], c, 0) == UnpackedZero(layer.qzeros, outs, layer.gIdx[i], c)
    ensures Combined(layer, codes, zeros, c, i) == DecodedWeight(layer, c, i)
  {
  }

  /** Weight by weight, transposed to one row per output. */
  function Combine(layer: QuantizedGptqLayer, codes: seq<int>, zeros: seq<int>): (weights: seq<seq<real>>)
    requires Shaped(layer)
    ensures |weights| == layer.outFeatures
    ensures forall c :: 0 <= c < |weights| ==> |weights[c]| == layer.inFeatures
    ensures forall c: nat, i: nat | c < |weights| && i < |weights[c]| ::
      weights[c][i] == Combined(layer, codes, zeros, c, i)
  {
    seq(layer.outFeatures, c requires 0 <= c < layer.outFeatures =>
      seq(layer.inFeatures, i requires 0 <= i < |layer.gIdx| => Combined(layer, codes, zeros, c, i)))
  }

  /** Only 4-bit layers whose buffers have the declared shapes decode, and then to what their words say. */
  method Dequantize(layer: QuantizedGptqLayer) returns (r: Result<seq<seq<real>>, DecodeError>)
    ensures r.Ok? <==> layer.bits == SUPPORTED_BITS && Shaped(layer)
    ensures layer.bits != SUPPORTED_BITS ==> r == Err(OnlyFourBits(layer.bits))
    ensures r.Ok? ==> IsDecoded(layer, r.value)
    ensures r.Ok? ==> forall c: nat, i: nat | c < layer.outFeatures && i < layer.inFeatures ::
      ReadsWeight(layer, c, i, r.value[c][i])
  {
    if layer.bits != SUPPORTED_BITS {
      return Err(OnlyFourBits(layer.bits));
    }
    if !Shaped(layer) {
      return Err(ShapeMismatch);
    }
    var codes := UnpackCodes(layer);
    var zeros := UnpackZeros(layer);
    var weights := Combine(layer, codes, zeros);
    forall c: nat, i: nat | c < |weights| && i < |weights[c]|
      ensures weights[c][i] == DecodedWeight(layer, c, i)
    {
      CombinedIsDecoded(layer, codes, zeros, c, i);
    }
    forall c: nat, i: nat | c < layer.outFeatures && i < layer.inFeatures
      ensures ReadsWeight(layer, c, i, weights[c][i])
    {
      DecodedReads(layer, c, i);
    }
    return Ok(weights);
  }
}
