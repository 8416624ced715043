/**
 * Row ranges of a band walked back from the rows it has to produce.
 *
 * A window operator that produces rows [lo, hi) reads the rows Back gives,
 * clamped to its input; what is clamped becomes the tile's effective padding.
 */
module BandRanges {
  import opened Rows
  import opened BandPlan

  /** Rows lo up to, not including, hi. */
  datatype Band = Band(lo: int, hi: int) {
    function Rows(): int { hi - lo }

    predicate Inside(h: int) { 0 <= lo < hi <= h }

    predicate Covers(o: Band) { lo <= o.lo && o.hi <= hi }
  }

  /** Neither end moves up from a to b. */
  predicate NoLater(a: Band, b: Band) { a.lo <= b.lo && a.hi <= b.hi }

  /** What the loader establishes of a window operator's heights: the last window starts inside its input. */
  predicate Geometry(w: Window, inH: int, outH: int) {
    w.Valid() && inH >= 1 && outH >= 1 && (outH - 1) * w.stride - w.padTop < inH
  }

  /** The input rows a window operator reads for the output rows b. */
  function Back(w: Window, inH: int, b: Band): Band {
    Band(Max(0, b.lo * w.stride - w.padTop), Min(inH, (b.hi - 1) * w.stride - w.padTop + w.Span()))
  }

  /** The tile's effective padding: what Back clamped away at either end. */
  function PadTop(w: Window, b: Band): int { Max(0, w.padTop - b.lo * w.stride) }

  function PadBottom(w: Window, inH: int, b: Band): int {
    Max(0, (b.hi - 1) * w.stride - w.padTop + w.Span() - inH)
  }

  lemma BackInside(w: Window, inH: int, outH: int, b: Band)
    requires Geometry(w, inH, outH) && b.Inside(outH)
    ensures Back(w, inH, b).Inside(inH)
    ensures PadTop(w, b) == Back(w, inH, b).lo - (b.lo * w.stride - w.padTop)
  {
    MulOrder(b.lo, b.hi - 1, w.stride);
    MulOrder(b.hi - 1, outH - 1, w.stride);
    MulOrder(0, b.lo, w.stride);
  }

  lemma BackNoLater(w: Window, inH: int, a: Band, b: Band)
    requires NoLater(a, b)
    ensures NoLater(Back(w, inH, a), Back(w, inH, b))
  {
    MulOrder(a.lo, b.lo, w.stride);
    MulOrder(a.hi - 1, b.hi - 1, w.stride);
  }

  /** Consecutive bands of the output read bands of the input that leave no gap exactly when the stride does not outrun the span. */
  lemma BackAdjoins(w: Window, inH: int, outH: int, a: Band, b: Band)
    requires Geometry(w, inH, outH) && a.Inside(outH) && b.Inside(outH) && a.hi == b.lo
    ensures Back(w, inH, b).lo <= Back(w, inH, a).hi <==> w.Span() >= w.stride
  {
    MulSub(a.hi, 1, w.stride);
    MulOrder(b.lo, outH - 1, w.stride);
    MulOrder(1, b.lo, w.stride);
  }

  /** The first rows of buf are rows b of x. */
  ghost predicate HoldsRows<T>(buf: seq<T>, x: seq<T>, b: Band) {
    && 0 <= b.lo <= b.hi <= |x|
    && b.hi - b.lo <= |buf|
    && forall i :: 0 <= i < b.hi - b.lo ==> buf[i] == x[b.lo + i]
  }

  /** The window the kernel reads in tile coordinates: row j of the tile, from the first inH rows of buf. */
  function TileWindow<T>(buf: seq<T>, inH: int, w: Window, padTop: int, j: int): (s: seq<Option<T>>)
    requires inH <= |buf|
    ensures |s| == w.taps
  {
    seq(w.taps, k requires 0 <= k < w.taps =>
      var i := j * w.stride - padTop + k * w.dilation;
      if 0 <= i < inH then Some(buf[i]) else None)
  }

  /**
   * The window semantics every banded run rests on: on a band read back by
   * Back, with the clamped rows as padding, the tile-local window of every
   * row is the window of the whole tensor.
   */
  lemma TileWindowIsGlobal<T>(buf: seq<T>, x: seq<T>, w: Window, outH: int, b: Band, j: int)
    requires Geometry(w, |x|, outH) && b.Inside(outH) && 0 <= j < b.Rows()
    requires HoldsRows(buf, x, Back(w, |x|, b))
    ensures TileWindow(buf, Back(w, |x|, b).Rows(), w, PadTop(w, b), j) == WindowOf(x, w, b.lo + j)
  {
    var in_ := Back(w, |x|, b);
    BackInside(w, |x|, outH, b);
    forall k | 0 <= k < w.taps
      ensures TileWindow(buf, in_.Rows(), w, PadTop(w, b), j)[k] == WindowOf(x, w, b.lo + j)[k]
    {
      TapInBand(w, |x|, outH, b, j, k);
    }
  }

  /** Where tap k of tile row j falls: its tile row is its whole row less the band's first, inside together. */
  lemma TapInBand(w: Window, inH: int, outH: int, b: Band, j: int, k: int)
    requires Geometry(w, inH, outH) && b.Inside(outH) && 0 <= j < b.Rows() && 0 <= k < w.taps
    ensures var i := j * w.stride - PadTop(w, b) + k * w.dilation;
      var g := w.TapRow(b.lo + j, k);
      && g == Back(w, inH, b).lo + i
      && (0 <= i < Back(w, inH, b).Rows() <==> 0 <= g < inH)
  {
    BackInside(w, inH, outH, b);
    MulSub(b.lo, -j, w.stride);
    MulNegate(j, w.stride);
    MulOrder(0, j, w.stride);
    MulOrder(b.lo + j, b.hi - 1, w.stride);
    MulOrder(0, k, w.dilation);
    MulOrder(k, w.taps - 1, w.dilation);
  }

  /** The band of the rows ahead of operator k, walked back from the last rows. */
  function BandAt(p: Plan, k: nat, last: Band): Band
    requires InRange(p) && k <= |p.ops|
    decreases |p.ops| - k
  {
    if k == |p.ops| then last
    else
      match p.ops[k].kernel
      case Spatial(w, _) => Back(w, p.heights[p.ops[k].ins[0]], BandAt(p, k + 1, last))
      case Pointwise(_, _, _) => BandAt(p, k + 1, last)
  }

  /** The whole height of the band ahead of operator k; outH past the last. */
  function HeightAt(p: Plan, k: nat, outH: nat): nat
    requires InRange(p) && k <= |p.ops|
    decreases |p.ops| - k
  {
    if k == |p.ops| then outH
    else if p.ops[k].kernel.Spatial? then p.heights[p.ops[k].ins[0]]
    else HeightAt(p, k + 1, outH)
  }

  /** Every window operator's geometry, and every output as high as the band it leaves. */
  predicate Fits(p: Plan, outH: nat)
    requires InRange(p)
  {
    && outH >= 1
    && forall k :: 0 <= k < |p.ops| ==> FitsAt(p, k, outH)
  }

  predicate FitsAt(p: Plan, k: nat, outH: nat)
    requires InRange(p) && k < |p.ops|
  {
    && (match p.ops[k].kernel
        case Spatial(w, _) => Geometry(w, p.heights[p.ops[k].ins[0]], HeightAt(p, k + 1, outH))
        case Pointwise(_, _, _) => true)
    && forall i :: 0 <= i < |p.ops[k].outs| ==> p.heights[p.ops[k].outs[i]] == HeightAt(p, k + 1, outH)
  }

  lemma {:induction false} BandInside(p: Plan, k: nat, outH: nat, last: Band)
    requires InRange(p) && Fits(p, outH) && last.Inside(outH) && k <= |p.ops|
    ensures BandAt(p, k, last).Inside(HeightAt(p, k, outH))
    decreases |p.ops| - k
  {
    if k < |p.ops| {
      BandInside(p, k + 1, outH, last);
      assert FitsAt(p, k, outH);
      match p.ops[k].kernel
      case Spatial(w, _) =>
        BackInside(w, p.heights[p.ops[k].ins[0]], HeightAt(p, k + 1, outH), BandAt(p, k + 1, last));
      case Pointwise(_, _, _) =>
    }
  }

  /** Ranges are monotone in the rows asked for, hence in the tile index. */
  lemma {:induction false} BandNoLater(p: Plan, k: nat, a: Band, b: Band)
    requires InRange(p) && NoLater(a, b) && k <= |p.ops|
    ensures NoLater(BandAt(p, k, a), BandAt(p, k, b))
    decreases |p.ops| - k
  {
    if k < |p.ops| {
      BandNoLater(p, k + 1, a, b);
      match p.ops[k].kernel
      case Spatial(w, _) =>
        BackNoLater(w, p.heights[p.ops[k].ins[0]], BandAt(p, k + 1, a), BandAt(p, k + 1, b));
      case Pointwise(_, _, _) =>
    }
  }

  /** The first rows read back from the first rows. */
  lemma {:induction false} TopBand(p: Plan, k: nat, last: Band)
    requires InRange(p) && k <= |p.ops| && last.lo == 0
    ensures BandAt(p, k, last).lo == 0
    decreases |p.ops| - k
  {
    if k < |p.ops| { TopBand(p, k + 1, last); }
  }

  /** Where a band ends does not depend on where it starts. */
  lemma {:induction false} SameEnd(p: Plan, k: nat, a: Band, b: Band)
    requires InRange(p) && k <= |p.ops| && a.hi == b.hi
    ensures BandAt(p, k, a).hi == BandAt(p, k, b).hi
    decreases |p.ops| - k
  {
    if k < |p.ops| { SameEnd(p, k + 1, a, b); }
  }

  /**
   * Whether an operator moves the band: a window operator does, except a
   * 1-row, stride-1, unpadded one whose output is as high as its input.
   */
  predicate Moves(p: Plan, op: Op)
    requires InRange(p) && OpInRange(p, op)
  {
    match op.kernel
    case Pointwise(_, _, _) => false
    case Spatial(w, _) =>
      !(w.taps == 1 && w.stride == 1 && w.padTop == 0 && p.heights[op.ins[0]] == p.heights[op.outs[0]])
  }

  /** Every band of the output reads the very same rows of the input. */
  ghost predicate LeavesBands(w: Window, inH: int, outH: int) {
    forall b: Band :: b.Inside(outH) ==> Back(w, inH, b) == b
  }

  /** One row, read where it stands. */
  predicate IsIdentity(w: Window) { w.stride == 1 && w.padTop == 0 && w.taps == 1 }

  /** The height changes, or some band does; below three rows any but the one-row window counts. */
  ghost predicate Shifts(w: Window, inH: int, outH: int) {
    inH != outH || !LeavesBands(w, inH, outH) || (outH <= 2 && !IsIdentity(w))
  }

  /**
   * A window operator counts as moving the band exactly when it changes the
   * height or some band differs across it. Below three rows there are too few
   * bands to tell, and there any but the one-row window counts.
   */
  lemma MovesExactly(p: Plan, op: Op)
    requires InRange(p) && OpInRange(p, op)
    requires op.kernel.Spatial? ==> Geometry(op.kernel.w, p.heights[op.ins[0]], p.heights[op.outs[0]])
    ensures Moves(p, op) <==> (op.kernel.Spatial? && Shifts(op.kernel.w, p.heights[op.ins[0]], p.heights[op.outs[0]]))
  {
    if op.kernel.Spatial? && p.heights[op.ins[0]] == p.heights[op.outs[0]] {
      var w, h := op.kernel.w, p.heights[op.ins[0]];
      if h >= 3 && LeavesBands(w, h, h) {
        assert Back(w, h, Band(0, 1)) == Band(0, 1);
        assert Back(w, h, Band(1, 2)) == Band(1, 2);
        assert Back(w, h, Band(2, 3)) == Band(2, 3);
        if w.taps > 1 { MulOrder(1, w.taps - 1, w.dilation); }
      }
    }
  }

  /** No operator from j up to k moves the band. */
  predicate Still(p: Plan, j: nat, k: nat)
    requires InRange(p) && j <= k <= |p.ops|
  {
    forall i :: j <= i < k ==> !Moves(p, p.ops[i])
  }

  /** Operators that do not move the band leave the rows where they are. */
  lemma {:induction false} StillBand(p: Plan, j: nat, k: nat, outH: nat, last: Band)
    requires InRange(p) && Fits(p, outH) && last.Inside(outH) && j <= k <= |p.ops| && Still(p, j, k)
    ensures BandAt(p, j, last) == BandAt(p, k, last)
    ensures HeightAt(p, j, outH) == HeightAt(p, k, outH)
    decreases k - j
  {
    if j < k {
      StillBand(p, j + 1, k, outH, last);
      BandInside(p, j + 1, outH, last);
      assert FitsAt(p, j, outH);
      assert !Moves(p, p.ops[j]);
    }
  }
}
