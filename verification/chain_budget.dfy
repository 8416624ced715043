/**
 * The rows and bytes a chain reserves for one tile, and the rows it needs.
 *
 * A chain sizes its bands stage by stage from a composed receptive field: the
 * stage's stride and effective kernel. Inside a stage it divides the input
 * rows back down operator by operator. Need is what an unclamped tile really
 * reads; the difference between the two is Surplus, which the operators'
 * kernels and strides alone decide.
 */
module ChainBudget {
  import opened Rows
  import opened BandPlan
  import opened BandRanges

  /** A composed receptive field: a stage reads (h - 1) * stride + span rows for h rows, from os * stride - pad. */
  datatype Field = Field(stride: int, span: int, pad: int)

  /** Stage c of a chain holds operators cuts[c] up to cuts[c + 1]. */
  predicate Stages(p: Plan, cuts: seq<nat>) {
    && |cuts| >= 2 && cuts[0] == 0 && cuts[|cuts| - 1] == |p.ops|
    && (forall c, d :: 0 <= c <= d < |cuts| ==> cuts[c] <= cuts[d])
  }

  predicate ValidWindows(p: Plan) {
    forall j :: 0 <= j < |p.ops| ==> ValidWindow(p.ops[j])
  }

  predicate ValidWindow(op: Op) {
    op.kernel.Spatial? ==> op.kernel.w.Valid()
  }

  /** The receptive field of operators lo up to hi, composed in schedule order. */
  function Compose(p: Plan, lo: nat, hi: nat): Field
    requires lo <= hi <= |p.ops|
    decreases hi
  {
    if lo == hi then Field(1, 1, 0)
    else ComposeOp(Compose(p, lo, hi - 1), p.ops[hi - 1])
  }

  function ComposeOp(f: Field, op: Op): Field {
    match op.kernel
    case Pointwise(_, _, _) => f
    case Spatial(w, _) =>
      Field(f.stride * w.stride, f.span + (w.Span() - 1) * f.stride, f.pad + w.padTop * f.stride)
  }

  /** The rows one operator reads for the band b when nothing is clamped. */
  function FreeBack(op: Op, b: Band): Band {
    match op.kernel
    case Pointwise(_, _, _) => b
    case Spatial(w, _) =>
      Band(b.lo * w.stride - w.padTop, (b.hi - 1) * w.stride - w.padTop + w.Span())
  }

  /** The unclamped rows operators lo up to hi read for the band b. */
  function FreeBand(p: Plan, lo: nat, hi: nat, b: Band): Band
    requires lo <= hi <= |p.ops|
    decreases hi
  {
    if lo == hi then b else FreeBand(p, lo, hi - 1, FreeBack(p.ops[hi - 1], b))
  }

  /** The composed field is the receptive field: it gives both ends of the rows a run of operators reads. */
  lemma {:induction false} ComposedField(p: Plan, lo: nat, hi: nat, b: Band)
    requires lo <= hi <= |p.ops|
    ensures var f := Compose(p, lo, hi);
      FreeBand(p, lo, hi, b) == Band(b.lo * f.stride - f.pad, (b.hi - 1) * f.stride - f.pad + f.span)
    decreases hi
  {
    if lo < hi {
      var f := Compose(p, lo, hi - 1);
      ComposedField(p, lo, hi - 1, FreeBack(p.ops[hi - 1], b));
      match p.ops[hi - 1].kernel
      case Pointwise(_, _, _) =>
      case Spatial(w, _) =>
        MulAssoc(b.lo, w.stride, f.stride);
        MulAssoc(b.hi - 1, w.stride, f.stride);
        assert w.stride * f.stride == f.stride * w.stride;
        MulSub(b.lo * w.stride, w.padTop, f.stride);
        MulSub((b.hi - 1) * w.stride + w.Span() - 1, w.padTop, f.stride);
        MulSub((b.hi - 1) * w.stride, -(w.Span() - 1), f.stride);
    }
  }

  /** The rows of an unclamped tile ahead of operator k, for h rows of the last output. */
  function Need(p: Plan, k: nat, h: int): int
    requires k <= |p.ops|
    decreases |p.ops| - k
  {
    if k == |p.ops| then h else NeedOp(p.ops[k], Need(p, k + 1, h))
  }

  function NeedOp(op: Op, h: int): int {
    match op.kernel
    case Pointwise(_, _, _) => h
    case Spatial(w, _) => (h - 1) * w.stride + w.Span()
  }

  lemma {:induction false} NeedPositive(p: Plan, k: nat, h: int)
    requires ValidWindows(p) && k <= |p.ops| && h >= 1
    ensures Need(p, k, h) >= 1
    decreases |p.ops| - k
  {
    if k < |p.ops| {
      NeedPositive(p, k + 1, h);
      assert ValidWindow(p.ops[k]);
      match p.ops[k].kernel
      case Pointwise(_, _, _) =>
      case Spatial(w, _) => MulNonNegative(Need(p, k + 1, h) - 1, w.stride); MulNonNegative(w.taps - 1, w.dilation);
    }
  }

  lemma {:induction false} NeedGrows(p: Plan, k: nat, g: int, h: int)
    requires k <= |p.ops| && g <= h
    ensures Need(p, k, g) <= Need(p, k, h)
    decreases |p.ops| - k
  {
    if k < |p.ops| {
      NeedGrows(p, k + 1, g, h);
      match p.ops[k].kernel
      case Pointwise(_, _, _) =>
      case Spatial(w, _) => MulOrder(Need(p, k + 1, g) - 1, Need(p, k + 1, h) - 1, w.stride);
    }
  }

  /** No tile reads more rows than an unclamped one of its height: clamping only shrinks. */
  lemma {:induction false} TileWithinNeed(p: Plan, k: nat, outH: nat, last: Band)
    requires InRange(p) && Fits(p, outH) && last.Inside(outH) && k <= |p.ops|
    ensures BandAt(p, k, last).Rows() <= Need(p, k, last.Rows())
    decreases |p.ops| - k
  {
    if k < |p.ops| {
      TileWithinNeed(p, k + 1, outH, last);
      BandInside(p, k + 1, outH, last);
      assert FitsAt(p, k, outH);
      match p.ops[k].kernel
      case Pointwise(_, _, _) =>
      case Spatial(w, _) =>
        var b := BandAt(p, k + 1, last);
        MulSub(b.hi - 1, b.lo, w.stride);
        MulOrder(b.Rows() - 1, Need(p, k + 1, last.Rows()) - 1, w.stride);
    }
  }

  /** Need through a run of operators, in one step by its composed field. */
  lemma {:induction false} NeedComposed(p: Plan, lo: nat, hi: nat, h: int)
    requires lo <= hi <= |p.ops|
    ensures Need(p, lo, h) == (Need(p, hi, h) - 1) * Compose(p, lo, hi).stride + Compose(p, lo, hi).span
    decreases hi
  {
    if lo < hi {
      NeedComposed(p, lo, hi - 1, h);
      var f := Compose(p, lo, hi - 1);
      var n := Need(p, hi, h);
      match p.ops[hi - 1].kernel
      case Pointwise(_, _, _) =>
      case Spatial(w, _) =>
        FieldStep(n - 1, w.stride, w.Span() - 1, f.stride);
    }
  }

  lemma FieldStep(n: int, s: int, t: int, stride: int)
    ensures (n * s + t) * stride == n * (s * stride) + t * stride && s * stride == stride * s
  {
    MulAssoc(n, s, stride);
    MulSub(n * s, -t, stride);
    MulNegate(t, stride);
  }

  // What the chain reserves.

  /** Rows ahead of stage c, back-propagated from h rows of the last stage's output. */
  function StageRows(p: Plan, cuts: seq<nat>, c: nat, h: int): int
    requires Stages(p, cuts) && c < |cuts|
    decreases |cuts| - c
  {
    if c == |cuts| - 1 then h
    else
      var f := Compose(p, cuts[c], cuts[c + 1]);
      StageRows(p, cuts, c + 1, h) * f.stride + Max(0, f.span - f.stride)
  }

  /** Rows left by one operator of `cur` rows ahead of it. */
  function Shrink(op: Op, cur: int): int
    requires ValidWindow(op)
  {
    match op.kernel
    case Pointwise(_, _, _) => cur
    case Spatial(w, _) => (cur - Max(0, w.Span() - w.stride)) / w.stride
  }

  /** Rows left after operators lo up to j, of `cur` rows ahead of lo. */
  function RowsAfter(p: Plan, lo: nat, j: nat, cur: int): int
    requires ValidWindows(p) && lo <= j <= |p.ops|
    decreases j
  {
    if lo == j then cur
    else
      assert ValidWindow(p.ops[j - 1]);
      Shrink(p.ops[j - 1], RowsAfter(p, lo, j - 1, cur))
  }

  // The difference, from kernels and strides alone.

  function StageSurplus(p: Plan, cuts: seq<nat>, c: nat): int
    requires Stages(p, cuts) && c < |cuts|
    decreases |cuts| - c
  {
    if c == |cuts| - 1 then 0
    else
      var f := Compose(p, cuts[c], cuts[c + 1]);
      StageSurplus(p, cuts, c + 1) * f.stride + Max(0, f.stride - f.span)
  }

  function ShrinkSurplus(op: Op, u: int): int
    requires ValidWindow(op)
  {
    match op.kernel
    case Pointwise(_, _, _) => u
    case Spatial(w, _) => (u + Min(w.stride, w.Span())) / w.stride - 1
  }

  /** The surplus left after operators lo up to j, of u spare rows ahead of lo. */
  function Surplus(p: Plan, lo: nat, j: nat, u: int): int
    requires ValidWindows(p) && lo <= j <= |p.ops|
    decreases j
  {
    if lo == j then u
    else
      assert ValidWindow(p.ops[j - 1]);
      ShrinkSurplus(p.ops[j - 1], Surplus(p, lo, j - 1, u))
  }

  lemma StageSurplusNonNegative(p: Plan, cuts: seq<nat>, c: nat)
    requires Stages(p, cuts) && ValidWindows(p) && c < |cuts|
    ensures StageSurplus(p, cuts, c) >= 0
    decreases |cuts| - c
  {
    if c < |cuts| - 1 {
      StageSurplusNonNegative(p, cuts, c + 1);
      ComposePositive(p, cuts[c], cuts[c + 1]);
      MulNonNegative(StageSurplus(p, cuts, c + 1), Compose(p, cuts[c], cuts[c + 1]).stride);
    }
  }

  lemma {:induction false} ComposePositive(p: Plan, lo: nat, hi: nat)
    requires ValidWindows(p) && lo <= hi <= |p.ops|
    ensures Compose(p, lo, hi).stride >= 1 && Compose(p, lo, hi).span >= 1
    decreases hi
  {
    if lo < hi {
      ComposePositive(p, lo, hi - 1);
      assert ValidWindow(p.ops[hi - 1]);
      match p.ops[hi - 1].kernel
      case Pointwise(_, _, _) =>
      case Spatial(w, _) =>
        MulOrder(1, Compose(p, lo, hi - 1).stride, w.stride);
        MulNonNegative(w.taps - 1, w.dilation);
        MulNonNegative(w.Span() - 1, Compose(p, lo, hi - 1).stride);
    }
  }

  lemma StageAlgebra(n: int, v: int, s: int, e: int)
    ensures (n + v) * s + Max(0, e - s) == (n - 1) * s + e + (v * s + Max(0, s - e))
  {
    MulSub(n, -v, s);
    MulSub(n, 1, s);
  }

  /** The back-propagated stage rows are the rows needed plus the stage's surplus. */
  lemma {:induction false} StageRowsExact(p: Plan, cuts: seq<nat>, c: nat, h: int)
    requires Stages(p, cuts) && c < |cuts|
    ensures StageRows(p, cuts, c, h) == Need(p, cuts[c], h) + StageSurplus(p, cuts, c)
    decreases |cuts| - c
  {
    if c < |cuts| - 1 {
      StageRowsExact(p, cuts, c + 1, h);
      NeedComposed(p, cuts[c], cuts[c + 1], h);
      var f := Compose(p, cuts[c], cuts[c + 1]);
      StageAlgebra(Need(p, cuts[c + 1], h), StageSurplus(p, cuts, c + 1), f.stride, f.span);
    }
  }

  lemma DivShift(a: int, q: int, d: nat)
    requires d >= 1
    ensures (a + q * d) / d == a / d + q
  {
    var r := a - (a / d) * d;
    assert 0 <= r < d;
    assert (a + q * d) == (a / d + q) * d + r by { MulSub(a / d, -q, d); }
    DivUnique(a + q * d, a / d + q, r, d);
  }

  /** Inside a stage the same: rows reserved are rows needed plus the surplus, at every operator and height. */
  lemma {:induction false} RowsExact(p: Plan, lo: nat, j: nat, h: int, u: int)
    requires ValidWindows(p) && lo <= j <= |p.ops|
    ensures RowsAfter(p, lo, j, Need(p, lo, h) + u) == Need(p, j, h) + Surplus(p, lo, j, u)
    decreases j
  {
    if lo < j {
      RowsExact(p, lo, j - 1, h, u);
      assert ValidWindow(p.ops[j - 1]);
      var v := Surplus(p, lo, j - 1, u);
      match p.ops[j - 1].kernel
      case Pointwise(_, _, _) =>
      case Spatial(w, _) =>
        assert Need(p, j - 1, h) == (Need(p, j, h) - 1) * w.stride + w.Span();
        DivShift(v + Min(w.stride, w.Span()), Need(p, j, h) - 1, w.stride);
    }
  }

  /** Rows reserved for the outputs of operator j of stage c when a tile is h rows. */
  function BandRows(p: Plan, cuts: seq<nat>, c: nat, j: nat, h: int): int
    requires Stages(p, cuts) && ValidWindows(p) && c < |cuts| - 1 && cuts[c] <= j < cuts[c + 1] <= |p.ops|
  {
    RowsAfter(p, cuts[c], j + 1, StageRows(p, cuts, c, h))
  }

  /** The operator's surplus: a number the plan's kernels and strides fix before any tile height is chosen. */
  function OpSurplus(p: Plan, cuts: seq<nat>, c: nat, j: nat): int
    requires Stages(p, cuts) && ValidWindows(p) && c < |cuts| - 1 && cuts[c] <= j < cuts[c + 1] <= |p.ops|
  {
    Surplus(p, cuts[c], j + 1, StageSurplus(p, cuts, c))
  }

  /**
   * The reservation for an operator covers an unclamped tile of any height
   * exactly when the operator's surplus is not negative.
   */
  lemma ReservedExactly(p: Plan, cuts: seq<nat>, c: nat, j: nat, h: int)
    requires Stages(p, cuts) && ValidWindows(p) && c < |cuts| - 1 && cuts[c] <= j < cuts[c + 1] <= |p.ops|
    ensures BandRows(p, cuts, c, j, h) == Need(p, j + 1, h) + OpSurplus(p, cuts, c, j)
    ensures BandRows(p, cuts, c, j, h) >= Need(p, j + 1, h) <==> OpSurplus(p, cuts, c, j) >= 0
  {
    StageRowsExact(p, cuts, c, h);
    RowsExact(p, cuts[c], j + 1, h, StageSurplus(p, cuts, c));
  }

  /** No operator's kernel is smaller than its stride: the division inside a stage is exact. */
  predicate KernelsCoverStrides(p: Plan) {
    forall j :: 0 <= j < |p.ops| ==> KernelCoversStride(p.ops[j])
  }

  predicate KernelCoversStride(op: Op) {
    op.kernel.Spatial? ==> op.kernel.w.Span() >= op.kernel.w.stride
  }

  /** Spare rows never run out where every kernel covers its stride. */
  lemma {:induction false} SurplusNonNegative(p: Plan, lo: nat, j: nat, u: int)
    requires ValidWindows(p) && KernelsCoverStrides(p) && lo <= j <= |p.ops| && u >= 0
    ensures Surplus(p, lo, j, u) >= 0
    decreases j
  {
    if lo < j {
      SurplusNonNegative(p, lo, j - 1, u);
      assert ValidWindow(p.ops[j - 1]) && KernelCoversStride(p.ops[j - 1]);
      match p.ops[j - 1].kernel
      case Pointwise(_, _, _) =>
      case Spatial(w, _) =>
        DivShift(Surplus(p, lo, j - 1, u), 1, w.stride);
        FloorBound(Surplus(p, lo, j - 1, u), w.stride);
    }
  }

  /** Every band of every tile fits its reservation. */
  ghost predicate Sufficient(p: Plan, cuts: seq<nat>)
    requires Stages(p, cuts) && ValidWindows(p)
  {
    forall c, j :: 0 <= c < |cuts| - 1 && cuts[c] <= j < cuts[c + 1] ==> OpSurplus(p, cuts, c, j) >= 0
  }

  lemma CoveringKernelsSuffice(p: Plan, cuts: seq<nat>)
    requires Stages(p, cuts) && ValidWindows(p) && KernelsCoverStrides(p)
    ensures Sufficient(p, cuts)
  {
    forall c, j | 0 <= c < |cuts| - 1 && cuts[c] <= j < cuts[c + 1]
      ensures OpSurplus(p, cuts, c, j) >= 0
    {
      StageSurplusNonNegative(p, cuts, c);
      SurplusNonNegative(p, cuts[c], j + 1, StageSurplus(p, cuts, c));
    }
  }

  /** A run of kernels that cover their strides has a composed span that covers the composed stride. */
  lemma {:induction false} RunCovers(p: Plan, lo: nat, hi: nat)
    requires ValidWindows(p) && KernelsCoverStrides(p) && lo <= hi <= |p.ops|
    ensures Compose(p, lo, hi).span >= Compose(p, lo, hi).stride
    decreases hi
  {
    if lo < hi {
      RunCovers(p, lo, hi - 1);
      ComposePositive(p, lo, hi - 1);
      assert ValidWindow(p.ops[hi - 1]) && KernelCoversStride(p.ops[hi - 1]);
      var stride := Compose(p, lo, hi - 1).stride;
      match p.ops[hi - 1].kernel
      case Pointwise(_, _, _) =>
      case Spatial(w, _) =>
        MulOrder(w.stride - 1, w.Span() - 1, stride);
        MulSub(w.stride, 1, stride);
    }
  }

  lemma {:induction false} NoStageSurplus(p: Plan, cuts: seq<nat>, c: nat)
    requires Stages(p, cuts) && ValidWindows(p) && KernelsCoverStrides(p) && c < |cuts|
    ensures StageSurplus(p, cuts, c) == 0
    decreases |cuts| - c
  {
    if c < |cuts| - 1 {
      NoStageSurplus(p, cuts, c + 1);
      RunCovers(p, cuts[c], cuts[c + 1]);
    }
  }

  lemma {:induction false} NoSurplus(p: Plan, lo: nat, j: nat)
    requires ValidWindows(p) && KernelsCoverStrides(p) && lo <= j <= |p.ops|
    ensures Surplus(p, lo, j, 0) == 0
    decreases j
  {
    if lo < j {
      NoSurplus(p, lo, j - 1);
      assert ValidWindow(p.ops[j - 1]) && KernelCoversStride(p.ops[j - 1]);
      if p.ops[j - 1].kernel.Spatial? { DivUnique(p.ops[j - 1].kernel.w.stride, 1, 0, p.ops[j - 1].kernel.w.stride); }
    }
  }

  /** Where every kernel covers its stride nothing is reserved in vain: the rows reserved are the rows needed, at every height. */
  lemma ReservedTightly(p: Plan, cuts: seq<nat>, c: nat, j: nat, h: int)
    requires Stages(p, cuts) && ValidWindows(p) && KernelsCoverStrides(p)
    requires c < |cuts| - 1 && cuts[c] <= j < cuts[c + 1] <= |p.ops|
    ensures OpSurplus(p, cuts, c, j) == 0 && BandRows(p, cuts, c, j, h) == Need(p, j + 1, h)
    ensures StageSurplus(p, cuts, c) == 0 && StageRows(p, cuts, c, h) == Need(p, cuts[c], h)
  {
    NoStageSurplus(p, cuts, c);
    NoSurplus(p, cuts[c], j + 1);
    ReservedExactly(p, cuts, c, j, h);
    StageRowsExact(p, cuts, c, h);
  }

  /** The rows an operator takes to leave n: a stride a row, and what the kernel has past its stride. */
  function RowsTaken(w: Window, n: int): int { n * w.stride + Max(0, w.Span() - w.stride) }

  /**
   * Inside a stage an operator is given the most rows its operands allow:
   * n of them exactly when the rows it takes to leave n are there.
   */
  lemma ShrinkMost(op: Op, cur: int, n: int)
    requires ValidWindow(op)
    ensures op.kernel.Pointwise? ==> Shrink(op, cur) == cur
    ensures op.kernel.Spatial? ==> (n <= Shrink(op, cur) <==> RowsTaken(op.kernel.w, n) <= cur)
  {
    if op.kernel.Spatial? {
      var w := op.kernel.w;
      var rest := cur - Max(0, w.Span() - w.stride);
      FloorIs(rest, w.stride);
      if n <= rest / w.stride { MulOrder(n, rest / w.stride, w.stride); }
      else { MulOrder(rest / w.stride + 1, n, w.stride); MulSub(rest / w.stride, -1, w.stride); }
    }
  }

  /** Ahead of a stage there are whole strides for every row behind it, and at least the rows its field needs. */
  lemma StageRowsLeast(p: Plan, cuts: seq<nat>, c: nat, h: int)
    requires Stages(p, cuts) && c < |cuts| - 1
    ensures var f, n := Compose(p, cuts[c], cuts[c + 1]), StageRows(p, cuts, c + 1, h);
      StageRows(p, cuts, c, h) == Max(n * f.stride, (n - 1) * f.stride + f.span)
  {
    MulSub(StageRows(p, cuts, c + 1, h), 1, Compose(p, cuts[c], cuts[c + 1]).stride);
  }

  /** The rows every tile, clamped or partial, leaves at operator j fit the rows reserved for full tiles. */
  lemma TileFitsReservation(p: Plan, cuts: seq<nat>, c: nat, j: nat, outH: nat, last: Band, h: int)
    requires InRange(p) && Stages(p, cuts) && ValidWindows(p) && Fits(p, outH) && last.Inside(outH) && last.Rows() <= h
    requires c < |cuts| - 1 && cuts[c] <= j < cuts[c + 1] <= |p.ops| && OpSurplus(p, cuts, c, j) >= 0
    ensures BandAt(p, j + 1, last).Rows() <= BandRows(p, cuts, c, j, h)
  {
    TileWithinNeed(p, j + 1, outH, last);
    NeedGrows(p, j + 1, last.Rows(), h);
    ReservedExactly(p, cuts, c, j, h);
  }

  /** The same for the chain's input rows, whatever the kernels. */
  lemma InputFitsReservation(p: Plan, cuts: seq<nat>, outH: nat, last: Band, h: int)
    requires InRange(p) && Stages(p, cuts) && ValidWindows(p) && Fits(p, outH) && last.Inside(outH) && last.Rows() <= h
    ensures BandAt(p, 0, last).Rows() <= StageRows(p, cuts, 0, h)
  {
    TileWithinNeed(p, 0, outH, last);
    NeedGrows(p, 0, last.Rows(), h);
    StageRowsExact(p, cuts, 0, h);
    StageSurplusNonNegative(p, cuts, 0);
  }
}
