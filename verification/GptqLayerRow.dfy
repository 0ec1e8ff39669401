/** Quantizing one output row in place: its column of the code, scale and zero tables, and no other. */
module GptqLayerRow {
  import opened Grids
  import opened RealSums
  import opened Cholesky
  import opened GptqOrder
  import opened GptqQuantizer
  import opened GptqPacking
  import opened GptqRow

  // ---------- one column ----------

  /** Hands a multiple of row p of U to the columns after p. */
  method SpreadError(work: array<real>, n: nat, p: nat, coeff: real, u: seq<real>)
    requires work.Length == n && p < n && |u| == n * n
    modifies work
    ensures work[..] == Spread(old(work[..]), p, old(work[p]), coeff, View(u, n))
  {
    ghost var after := Spread(work[..], p, work[p], coeff, View(u, n));
    for j := p + 1 to n
      invariant forall k :: 0 <= k < j ==> work[k] == after[k]
      invariant forall k :: j <= k < n ==> work[k] == old(work[k])
    {
      InGrid(n, n, p, j);
      work[j] := work[j] - coeff * u[p * n + j];
    }
    assert work[..] == after;
  }

  /** Rounds column p, commits it, and hands its error on, unless the pivot is too small. */
  method CommitColumn(work: array<real>, n: nat, p: nat, params: GroupParams, u: seq<real>) returns (q: Code)
    requires work.Length == n && p < n && |u| == n * n
    modifies work
    ensures q == CodeOf(old(work[p]), params)
    ensures var committed := Dequant(q, params);
      var coeff := Coefficient(old(work[p]) - committed, View(u, n)(p, p));
      work[..] == Spread(old(work[..]), p, committed, coeff, View(u, n))
  {
    ghost var before := work[..];
    q := CodeOf(work[p], params);
    var committed := Dequant(q, params);
    var error := work[p] - committed;
    work[p] := committed;
    InGrid(n, n, p, p);
    var pivot := u[p * n + p];
    if -TINY < pivot < TINY {
      assert work[..] == Spread(before, p, committed, 0.0, View(u, n));
      return;
    }
    var coeff := error / pivot;
    ghost var placed := work[..];
    SpreadError(work, n, p, coeff, u);
    assert Spread(placed, p, committed, coeff, View(u, n)) == Spread(before, p, committed, coeff, View(u, n));
  }

  // ---------- tables ----------

  datatype Tables = Tables(q: seq<Code>, scales: seq<real>, zeros: seq<Byte>)

  /** The sizes of a layer's tables. */
  datatype Dims = Dims(inFeatures: nat, outFeatures: nat, numGroups: nat)

  ghost predicate Fits(t: Tables, d: Dims) {
    && |t.q| == d.inFeatures * d.outFeatures
    && |t.scales| == |t.zeros| == d.numGroups * d.outFeatures
  }

  /** Output c of the tables is what the row state has produced so far. */
  ghost predicate Stored(t: Tables, d: Dims, c: nat, order: seq<nat>, r: RowState) {
    && |r.codes| <= |order|
    && (forall p :: 0 <= p < |r.codes| ==> CodeAt(t.q, d.outFeatures, order[p], c) == r.codes[p])
    && (forall g :: 0 <= g < |r.groups| ==>
      && Cell(t.scales, d.outFeatures, g, c, 0.0) == r.groups[g].scale
      && ZeroAt(t.zeros, d.outFeatures, g, c) == r.groups[g].zero)
  }

  /** The tables differ at most in output c. */
  ghost predicate OnlyOutput(t: Tables, t': Tables, d: Dims, c: nat) {
    && (forall i, o :: 0 <= i < d.inFeatures && 0 <= o < d.outFeatures && o != c ==>
      CodeAt(t'.q, d.outFeatures, i, o) == CodeAt(t.q, d.outFeatures, i, o))
    && (forall g, o :: 0 <= g < d.numGroups && 0 <= o < d.outFeatures && o != c ==>
      && Cell(t'.scales, d.outFeatures, g, o, 0.0) == Cell(t.scales, d.outFeatures, g, o, 0.0)
      && ZeroAt(t'.zeros, d.outFeatures, g, o) == ZeroAt(t.zeros, d.outFeatures, g, o))
  }

  lemma OnlyOutputTwice(t: Tables, t': Tables, t'': Tables, d: Dims, c: nat)
    requires OnlyOutput(t, t', d, c) && OnlyOutput(t', t'', d, c)
    ensures OnlyOutput(t, t'', d, c)
  {
  }

  /** Quantizing another output leaves this one as it was. */
  lemma StoredKept(t: Tables, t': Tables, d: Dims, c: nat, o: nat, order: seq<nat>, r: RowState)
    requires Stored(t, d, o, order, r) && OnlyOutput(t, t', d, c) && o != c && o < d.outFeatures
    requires IsPermutation(order, d.inFeatures) && |r.groups| <= d.numGroups
    ensures Stored(t', d, o, order, r)
  {
  }

  /** The parameters of group g are stored. */
  ghost predicate PutParams(t: Tables, t': Tables, d: Dims, g: nat, c: nat, params: GroupParams) {
    && t'.q == t.q
    && PutCell(t.scales, t'.scales, d.numGroups, d.outFeatures, g, c, params.scale, 0.0)
    && PutCell<Byte>(t.zeros, t'.zeros, d.numGroups, d.outFeatures, g, c, params.zero, 0)
  }

  ghost predicate PutCode(t: Tables, t': Tables, d: Dims, i: nat, c: nat, q: Code) {
    && t'.scales == t.scales && t'.zeros == t.zeros
    && PutCell<Code>(t.q, t'.q, d.inFeatures, d.outFeatures, i, c, q, 0)
  }

  /** The row state as it stands between choosing a group's parameters and rounding its first column. */
  function Opened(r: RowState, p: nat, groupSize: nat): RowState
    requires groupSize > 0 && p < |r.work|
  {
    var params := ParamsAt(r, p, groupSize);
    if p % groupSize == 0 then r.(params := params, groups := r.groups + [params]) else r
  }

  lemma OpenedStored(t: Tables, t': Tables, d: Dims, c: nat, order: seq<nat>, r: RowState, p: nat, groupSize: nat)
    requires groupSize > 0 && p < |r.work| && p % groupSize == 0 && c < d.outFeatures
    requires Stored(t, d, c, order, r) && |r.groups| == p / groupSize < d.numGroups
    requires PutParams(t, t', d, p / groupSize, c, ParamsAt(r, p, groupSize))
    ensures Stored(t', d, c, order, Opened(r, p, groupSize)) && OnlyOutput(t, t', d, c)
  {
  }

  lemma CodeStored(t: Tables, t': Tables, d: Dims, c: nat, order: seq<nat>, r: RowState, r': RowState, p: nat, q: Code)
    requires IsPermutation(order, d.inFeatures) && p == |r.codes| < d.inFeatures && c < d.outFeatures
    requires Stored(t, d, c, order, r) && PutCode(t, t', d, order[p], c, q)
    requires r'.codes == r.codes + [q] && r'.groups == r.groups && |r.groups| <= d.numGroups
    ensures Stored(t', d, c, order, r') && OnlyOutput(t, t', d, c)
  {
    forall k | 0 <= k < p + 1
      ensures CodeAt(t'.q, d.outFeatures, order[k], c) == r'.codes[k]
    {
      assert k < p ==> order[k] != order[p];
    }
  }

  // ---------- one row ----------

  /** The group of the column before p; -1 before the first column. */
  function LastGroup(p: nat, groupSize: nat): int
    requires groupSize > 0
  {
    GroupCount(p, groupSize) - 1
  }

  /** A new group starts exactly where the group index changes. */
  lemma GroupTurns(p: nat, groupSize: nat)
    requires groupSize > 0
    ensures p % groupSize == 0 <==> p / groupSize != LastGroup(p, groupSize)
    ensures p % groupSize == 0 ==> GroupCount(p, groupSize) == p / groupSize
    ensures LastGroup(p + 1, groupSize) == p / groupSize
  {
    GroupCountBefore(p, groupSize);
  }

  /** Derives and stores the parameters of the group that starts at column p. */
  method OpenGroup(work: array<real>, d: Dims, p: nat, c: nat, groupSize: nat, group: nat,
                   scales: array<real>, zeros: array<Byte>, ghost r: RowState) returns (params: GroupParams)
    requires groupSize > 0 && p < d.inFeatures == work.Length && c < d.outFeatures
    requires work[..] == r.work && p % groupSize == 0 && group == p / groupSize < d.numGroups
    requires scales.Length == zeros.Length == d.numGroups * d.outFeatures && scales != work
    modifies scales, zeros
    ensures params == ParamsAt(r, p, groupSize)
    ensures PutCell(old(scales[..]), scales[..], d.numGroups, d.outFeatures, group, c, params.scale, 0.0)
    ensures PutCell<Byte>(old(zeros[..]), zeros[..], d.numGroups, d.outFeatures, group, c, params.zero, 0)
  {
    var end := GroupEnd(p, groupSize, d.inFeatures);
    var found := QuantParams(work[p..end]);
    params := found.value;
    assert work[p..end] == r.work[p..end];
    StoreCell(scales, d.numGroups, d.outFeatures, group, c, params.scale, 0.0);
    StoreCell<Byte>(zeros, d.numGroups, d.outFeatures, group, c, params.zero, 0);
  }

  /** What a row's loop needs to know about its fixed arguments. */
  ghost predicate Setting(d: Dims, c: nat, groupSize: nat, order: seq<nat>, gIdx: seq<nat>, u: seq<real>) {
    && groupSize > 0 && c < d.outFeatures && |u| == d.inFeatures * d.inFeatures
    && IsPermutation(order, d.inFeatures) && GroupIndex(order, groupSize, gIdx)
    && forall i :: 0 <= i < |gIdx| ==> gIdx[i] < d.numGroups
  }

  lemma GroupKnown(d: Dims, c: nat, groupSize: nat, order: seq<nat>, gIdx: seq<nat>, u: seq<real>, p: nat)
    requires Setting(d, c, groupSize, order, gIdx, u) && p < d.inFeatures
    ensures p / groupSize < d.numGroups
  {
    var i := order[p];
    assert i < |gIdx| && gIdx[i] == p / groupSize;
  }

  /** Keeps the current group's parameters, or opens the next group. */
  method ChooseGroup(work: array<real>, d: Dims, p: nat, c: nat, groupSize: nat, order: seq<nat>, gIdx: seq<nat>,
                     ghost q: seq<Code>, scales: array<real>, zeros: array<Byte>,
                     current: int, params: GroupParams, ghost r: RowState)
      returns (group: nat, params': GroupParams)
    requires groupSize > 0 && p < d.inFeatures == work.Length && c < d.outFeatures
    requires |order| == d.inFeatures && GroupIndex(order, groupSize, gIdx) && p / groupSize < d.numGroups
    requires scales.Length == zeros.Length == d.numGroups * d.outFeatures && scales != work
    requires work[..] == r.work && Shape(r, groupSize, p) && current == LastGroup(p, groupSize)
    requires p > 0 ==> params == r.params
    requires Stored(Tables(q, scales[..], zeros[..]), d, c, order, r)
    modifies scales, zeros
    ensures group == p / groupSize && params' == ParamsAt(r, p, groupSize)
    ensures Stored(Tables(q, scales[..], zeros[..]), d, c, order, Opened(r, p, groupSize))
    ensures OnlyOutput(old(Tables(q, scales[..], zeros[..])), Tables(q, scales[..], zeros[..]), d, c)
  {
    ghost var t := Tables(q, scales[..], zeros[..]);
    GroupTurns(p, groupSize);
    group, params' := gIdx[order[p]], params;
    if group != current {
      params' := OpenGroup(work, d, p, c, groupSize, group, scales, zeros, r);
      OpenedStored(t, Tables(q, scales[..], zeros[..]), d, c, order, r, p, groupSize);
    }
  }

  /** r' is the opened state o once column p is rounded and its error handed on. */
  ghost predicate Commits(o: RowState, r': RowState, p: nat, params: GroupParams, u: Mat) {
    && p < |o.work|
    && var code := CodeOf(o.work[p], params);
    var committed := Dequant(code, params);
    && r'.codes == o.codes + [code] && r'.groups == o.groups
    && r'.work == Spread(o.work, p, committed, Coefficient(o.work[p] - committed, u(p, p)), u)
  }

  lemma StepCommits(r: RowState, p: nat, groupSize: nat, u: Mat)
    requires groupSize > 0 && p < |r.work|
    ensures Commits(Opened(r, p, groupSize), Step(r, p, groupSize, u), p, ParamsAt(r, p, groupSize), u)
  {
  }

  /** Commits column p and stores its code. */
  method StoreColumn(work: array<real>, d: Dims, p: nat, c: nat, order: seq<nat>, params: GroupParams, u: seq<real>,
                     q: array<Code>, ghost scales: seq<real>, ghost zeros: seq<Byte>,
                     ghost o: RowState, ghost r': RowState)
    requires IsPermutation(order, d.inFeatures) && p < d.inFeatures == work.Length && c < d.outFeatures
    requires |u| == d.inFeatures * d.inFeatures && q.Length == d.inFeatures * d.outFeatures
    requires work[..] == o.work && p == |o.codes| && |o.groups| <= d.numGroups
    requires Commits(o, r', p, params, View(u, d.inFeatures))
    requires Stored(Tables(q[..], scales, zeros), d, c, order, o)
    modifies work, q
    ensures work[..] == r'.work && Stored(Tables(q[..], scales, zeros), d, c, order, r')
    ensures OnlyOutput(old(Tables(q[..], scales, zeros)), Tables(q[..], scales, zeros), d, c)
  {
    ghost var before := Tables(q[..], scales, zeros);
    var code := CommitColumn(work, d.inFeatures, p, params, u);
    StoreCell<Code>(q, d.inFeatures, d.outFeatures, order[p], c, code, 0);
    CodeStored(before, Tables(q[..], scales, zeros), d, c, order, o, r', p, code);
  }

  /** One turn of the row's loop: a step of the row state, stored in the tables. */
  method QuantizeColumn(work: array<real>, d: Dims, p: nat, c: nat, groupSize: nat, order: seq<nat>, gIdx: seq<nat>,
                        u: seq<real>, q: array<Code>, scales: array<real>, zeros: array<Byte>,
                        current: int, params: GroupParams, ghost r: RowState)
      returns (group: nat, params': GroupParams)
    requires Setting(d, c, groupSize, order, gIdx, u) && p < d.inFeatures == work.Length
    requires Fits(Tables(q[..], scales[..], zeros[..]), d) && scales != work && q as object != zeros as object
    requires work[..] == r.work && Shape(r, groupSize, p) && current == LastGroup(p, groupSize)
    requires p > 0 ==> params == r.params
    requires Stored(Tables(q[..], scales[..], zeros[..]), d, c, order, r)
    modifies work, q, scales, zeros
    ensures group == LastGroup(p + 1, groupSize)
    ensures var r' := Step(r, p, groupSize, View(u, d.inFeatures));
      work[..] == r'.work && params' == r'.params && Stored(Tables(q[..], scales[..], zeros[..]), d, c, order, r')
    ensures OnlyOutput(old(Tables(q[..], scales[..], zeros[..])), Tables(q[..], scales[..], zeros[..]), d, c)
  {
    ghost var t, codes, v := Tables(q[..], scales[..], zeros[..]), q[..], View(u, d.inFeatures);
    StepShape(r, p, groupSize, v);
    StepCommits(r, p, groupSize, v);
    GroupKnown(d, c, groupSize, order, gIdx, u, p);
    GroupTurns(p, groupSize);
    group, params' := ChooseGroup(work, d, p, c, groupSize, order, gIdx, codes, scales, zeros, current, params, r);
    ghost var chosen := Tables(codes, scales[..], zeros[..]);
    StoreColumn(work, d, p, c, order, params', u, q, scales[..], zeros[..],
      Opened(r, p, groupSize), Step(r, p, groupSize, v));
    OnlyOutputTwice(t, chosen, Tables(q[..], scales[..], zeros[..]), d, c);
  }

  /** A row of weights, in the order its columns are taken. */
  function PermutedRow(row: seq<real>, order: seq<nat>): (r: seq<real>)
    requires forall i :: 0 <= i < |order| ==> order[i] < |row|
    ensures |r| == |order| && forall i :: 0 <= i < |order| ==> r[i] == row[order[i]]
  {
    seq(|order|, i requires 0 <= i < |order| => row[order[i]])
  }

  /** Column by column; what ends up in the tables is the whole run of the row. */
  method QuantizeRow(row: seq<real>, d: Dims, c: nat, groupSize: nat, order: seq<nat>, gIdx: seq<nat>, u: seq<real>,
                     q: array<Code>, scales: array<real>, zeros: array<Byte>)
    requires Setting(d, c, groupSize, order, gIdx, u) && |row| == d.inFeatures
    requires Fits(Tables(q[..], scales[..], zeros[..]), d) && q as object != zeros as object
    modifies q, scales, zeros
    ensures Stored(Tables(q[..], scales[..], zeros[..]), d, c, order,
                   Run(PermutedRow(row, order), groupSize, View(u, d.inFeatures), d.inFeatures))
    ensures OnlyOutput(old(Tables(q[..], scales[..], zeros[..])), Tables(q[..], scales[..], zeros[..]), d, c)
  {
    ghost var weights, t := PermutedRow(row, order), Tables(q[..], scales[..], zeros[..]);
    var work := new real[d.inFeatures](i requires 0 <= i < |order| => assert order[i] < |row|; row[order[i]]);
    assert work[..] == weights;
    var current: int, params: GroupParams := -1, Params(1.0, 1);
    for p := 0 to d.inFeatures
      invariant Fits(Tables(q[..], scales[..], zeros[..]), d)
      invariant var r := Run(weights, groupSize, View(u, d.inFeatures), p);
        && work[..] == r.work && (p > 0 ==> params == r.params) && current == LastGroup(p, groupSize)
        && Stored(Tables(q[..], scales[..], zeros[..]), d, c, order, r)
      invariant OnlyOutput(t, Tables(q[..], scales[..], zeros[..]), d, c)
    {
      ghost var before := Tables(q[..], scales[..], zeros[..]);
      RunCommitted(weights, groupSize, View(u, d.inFeatures), p);
      current, params := QuantizeColumn(work, d, p, c, groupSize, order, gIdx, u, q, scales, zeros, current, params,
        Run(weights, groupSize, View(u, d.inFeatures), p));
      OnlyOutputTwice(t, before, Tables(q[..], scales[..], zeros[..]), d, c);
    }
  }
}
