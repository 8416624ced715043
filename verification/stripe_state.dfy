/**
 * What the height stripe's buffers hold between operators, and where its
 * outputs sit at the end of a tile.
 */
module StripeState {
  import opened Rows
  import opened BandPlan
  import opened BandRanges
  import opened ChainKernels
  import opened ChainState
  import opened StripeCheck

  /** The rows each tensor available to operator j holds in the tile that ends in `last`. */
  ghost predicate StripeAt(s: Stage, full: Env, slots: seq<Slot>, j: nat, last: Band)
    requires Shaped(s) && |slots| == |full| == |s.p.heights| && j <= |s.p.ops|
  {
    forall t :: 0 <= t < |slots| && StripeCheck.Available(s, t, j) ==> Holds(slots[t], full[t], HeldAt(s, t, j, last))
  }

  /** Row r of every operand, an operand one row high at its only row. */
  function GatherBand(bufs: seq<seq<Row>>, oneRow: seq<bool>, r: nat): (x: seq<Row>)
    requires |bufs| == |oneRow| && forall i :: 0 <= i < |bufs| ==> (if oneRow[i] then 0 else r) < |bufs[i]|
    ensures |x| == |bufs|
  {
    seq(|bufs|, i requires 0 <= i < |bufs| => bufs[i][if oneRow[i] then 0 else r])
  }

  /** A pointwise kernel over the first `count` rows. */
  method PointwiseBand(rowOf: (nat, seq<Row>) -> Row, k: nat, bufs: seq<seq<Row>>, oneRow: seq<bool>, count: nat, out: seq<Row>)
    returns (y: seq<Row>)
    requires |bufs| == |oneRow| && count <= |out|
    requires forall i :: 0 <= i < |bufs| ==> (if oneRow[i] then 1 else count) <= |bufs[i]|
    ensures |y| == |out|
    ensures forall r :: 0 <= r < count ==> y[r] == rowOf(k, GatherBand(bufs, oneRow, r))
  {
    y := out;
    for r := 0 to count
      invariant |y| == |out|
      invariant forall i :: 0 <= i < r ==> y[i] == rowOf(k, GatherBand(bufs, oneRow, i))
    {
      y := y[r := rowOf(k, GatherBand(bufs, oneRow, r))];
    }
  }

  /** Operand i of operator j is held at the band b, or is one row high and held whole. */
  ghost predicate OperandHeld(s: Stage, full: Env, slots: seq<Slot>, j: nat, i: nat, b: Band)
    requires Shaped(s) && |slots| == |full| == |s.p.heights| && j < |s.p.ops| && i < |s.p.ops[j].ins|
    requires s.p.ops[j].ins[i] < |slots|
  {
    var t := s.p.ops[j].ins[i];
    Holds(slots[t], full[t], if s.p.heights[t] == 1 then Band(0, 1) else b)
  }

  /** Rows gathered from the held operands are the rows the whole operator reads. */
  lemma GatherIsWhole(s: Stage, full: Env, slots: seq<Slot>, j: nat, b: Band, bufs: seq<seq<Row>>, oneRow: seq<bool>, r: nat)
    requires Shaped(s) && Env?(s.p, full) && |slots| == |full| && j < |s.p.ops| && OpInRange(s.p, s.p.ops[j])
    requires |bufs| == |oneRow| == |s.p.ops[j].ins| && r < b.Rows() && 0 <= b.lo
    requires forall i :: 0 <= i < |bufs| ==>
      bufs[i] == slots[s.p.ops[j].ins[i]].buf && oneRow[i] == (s.p.heights[s.p.ops[j].ins[i]] == 1)
    requires forall i :: 0 <= i < |bufs| ==> OperandHeld(s, full, slots, j, i, b)
    ensures forall i :: 0 <= i < |bufs| ==> (if oneRow[i] then 0 else r) < |bufs[i]|
    ensures GatherBand(bufs, oneRow, r) == OperandRows(s.p.ops[j], full, b.lo + r)
  {
    var op := s.p.ops[j];
    forall i | 0 <= i < |bufs|
      ensures (if oneRow[i] then 0 else r) < |bufs[i]|
      ensures bufs[i][if oneRow[i] then 0 else r] == OperandRows(op, full, b.lo + r)[i]
    {
      assert OperandHeld(s, full, slots, j, i, b);
    }
    assert GatherBand(bufs, oneRow, r) == OperandRows(op, full, b.lo + r);
  }

  /** Whether a stage output is produced ahead of the window operator. */
  ghost predicate Ahead(s: Stage, t: Tensor) {
    exists i :: 0 <= i < |s.p.ops| && t in s.p.ops[i].outs && SpatialOp(s).Some? && i < SpatialOp(s).value
  }

  /** The tiles of h rows read every row ahead of a window operator: no stride skips a row between tiles, and the last window ends the input. */
  predicate InputWalked(w: Window, inH: int, outH: int, h: int) {
    (h >= outH || w.Span() >= w.stride) && (outH - 1) * w.stride - w.padTop + w.Span() >= inH
  }

  /** The tiles leave every stage output whole: none is ahead of a window operator that skips input rows. */
  ghost predicate Gapless(s: Stage, h: int)
    requires Shaped(s)
  {
    forall i :: 0 <= i < |s.outs| && Ahead(s, s.outs[i]) ==>
      InputWalked(s.p.ops[SpatialOp(s).value].kernel.w, s.p.heights[BandInput(s)], OutH(s), h)
  }

  /** A stage ready for the stripe, and its whole-tensor meaning. */
  ghost predicate Ready(s: Stage, full: Env) {
    && Loaded(s) && Accepted(s) && Fits(s.p, OutH(s))
    && Env?(s.p, full) && Solves(s.p, full)
  }

  /** The operands of operator j, as the check leaves them, are what its kernel reads. */
  lemma OperandsFromCheck(s: Stage, full: Env, slots: seq<Slot>, j: nat, last: Band)
    requires Ready(s, full) && |slots| == |full| && j < |s.p.ops| && last.Inside(OutH(s))
    requires StripeAt(s, full, slots, j, last)
    ensures OpInRange(s.p, s.p.ops[j])
    ensures forall i :: 0 <= i < |s.p.ops[j].ins| ==> OperandHeld(s, full, slots, j, i, BandAt(s.p, j, last))
    ensures s.p.ops[j].kernel.Spatial? ==>
      Holds(slots[s.p.ops[j].ins[0]], full[s.p.ops[j].ins[0]], BandAt(s.p, j, last))
  {
    assert OpInRange(s.p, s.p.ops[j]);
    BandInside(s.p, j, OutH(s), last);
    hide Loaded, Accepted, Fits, Solves, BandAt, HeightAt, HeldAt;
    forall i | 0 <= i < |s.p.ops[j].ins|
      ensures OperandHeld(s, full, slots, j, i, BandAt(s.p, j, last))
    {
      CheckSound(s, j, i, last);
    }
    if s.p.ops[j].kernel.Spatial? { CheckSound(s, j, 0, last); }
  }

  /** Running operator j takes the tile one operator on. */
  lemma StripeAdvances(s: Stage, full: Env, before: seq<Slot>, after: seq<Slot>, j: nat, last: Band)
    requires Ready(s, full) && |before| == |full| && j < |s.p.ops|
    requires StripeAt(s, full, before, j, last) && OnlyChanged(before, after, s.p.ops[j].outs)
    requires forall k :: 0 <= k < |s.p.ops[j].outs| ==>
      s.p.ops[j].outs[k] < |after| && Holds(after[s.p.ops[j].outs[k]], full[s.p.ops[j].outs[k]], BandAt(s.p, j + 1, last))
    ensures StripeAt(s, full, after, j + 1, last)
  {
    hide Ordered, Accepted, Fits, Solves, BandAt, Holds;
    forall t | 0 <= t < |after| && StripeCheck.Available(s, t, j + 1)
      ensures Holds(after[t], full[t], HeldAt(s, t, j + 1, last))
    {
      if t in s.p.ops[j].outs {
        var k :| 0 <= k < |s.p.ops[j].outs| && s.p.ops[j].outs[k] == t;
      } else {
        assert StripeCheck.Available(s, t, j);
      }
    }
  }

  /** Whether t is produced ahead of the window operator, by its one producer. */
  lemma AheadOf(s: Stage, t: Tensor, j: nat)
    requires Ordered(s.p) && j < |s.p.ops| && t in s.p.ops[j].outs
    ensures Ahead(s, t) <==> SpatialOp(s).Some? && j < SpatialOp(s).value
  {
    hide Ordered, SpatialOp;
    if Ahead(s, t) {
      var i :| 0 <= i < |s.p.ops| && t in s.p.ops[i].outs && SpatialOp(s).Some? && i < SpatialOp(s).value;
      ProducedOnce(s, i, j, t);
    }
  }

  /** The band operator j leaves: the rows the window operator reads, ahead of it, else the tile's. */
  lemma BandOfProducer(s: Stage, j: nat, last: Band)
    requires Shaped(s) && OneSpatial(s) && j < |s.p.ops|
    ensures BandAt(s.p, j + 1, last) == if SpatialOp(s).Some? && j < SpatialOp(s).value then BandAt(s.p, 0, last) else last
    ensures HeightAt(s.p, j + 1, OutH(s)) ==
      if SpatialOp(s).Some? && j < SpatialOp(s).value then HeightAt(s.p, 0, OutH(s)) else OutH(s)
  {
    PointwiseBands(s, 0, j + 1, last);
    PointwiseBands(s, j + 1, |s.p.ops|, last);
  }

  /** Where a stage output sits at the end of a tile: the tile's rows, or, ahead of the window operator, the rows it reads. */
  lemma {:induction false} OutputRange(s: Stage, full: Env, t: Tensor, n: nat, last: Band)
    requires Ready(s, full) && t < |full| && last.Inside(OutH(s)) && n <= |s.p.ops|
    requires exists j :: 0 <= j < n && t in s.p.ops[j].outs
    ensures HeldAt(s, t, n, last).Inside(s.p.heights[t])
    ensures HeldAt(s, t, n, last) == if Ahead(s, t) then BandAt(s.p, 0, last) else last
    ensures s.p.heights[t] == if Ahead(s, t) then HeightAt(s.p, 0, OutH(s)) else OutH(s)
  {
    hide Solves, Accepted, SpatialOp, HeightAt, BandAt, Ahead, OutH, Ordered;
    if t in s.p.ops[n - 1].outs {
      BandInside(s.p, n, OutH(s), last);
      assert FitsAt(s.p, n - 1, OutH(s));
      AheadOf(s, t, n - 1);
      BandOfProducer(s, n - 1, last);
    } else {
      OutputRange(s, full, t, n - 1, last);
    }
  }

  lemma ProducedOnce(s: Stage, i: nat, j: nat, t: Tensor)
    requires Ordered(s.p) && i < |s.p.ops| && j < |s.p.ops| && t in s.p.ops[i].outs && t in s.p.ops[j].outs
    ensures i == j
  {
  }

  /** Pointwise operators leave the band and its height alone. */
  lemma {:induction false} PointwiseBands(s: Stage, i: nat, j: nat, last: Band)
    requires InRange(s.p) && Shaped(s) && i <= j <= |s.p.ops|
    ensures (forall l :: i <= l < j ==> s.p.ops[l].kernel.Pointwise?) ==>
      BandAt(s.p, i, last) == BandAt(s.p, j, last) && HeightAt(s.p, i, OutH(s)) == HeightAt(s.p, j, OutH(s))
    decreases j - i
  {
    if i < j { PointwiseBands(s, i + 1, j, last); }
  }

  /** The band walk of a stage around its window operator. */
  lemma WindowBand(s: Stage, full: Env, last: Band)
    requires Ready(s, full) && last.Inside(OutH(s))
    ensures BandAt(s.p, |s.p.ops|, last) == last
    ensures match SpatialOp(s)
      case None => BandAt(s.p, 0, last) == last
      case Some(j) =>
        var w := s.p.ops[j].kernel.w;
        && OpInRange(s.p, s.p.ops[j])
        && s.p.heights[s.p.ops[j].ins[0]] == s.p.heights[BandInput(s)]
        && Geometry(w, s.p.heights[BandInput(s)], OutH(s))
        && BandAt(s.p, 0, last) == BandAt(s.p, j, last) == Back(w, s.p.heights[BandInput(s)], last)
        && BandAt(s.p, j + 1, last) == last
  {
    AcceptedFits(s);
    match SpatialOp(s)
    case None => PointwiseBands(s, 0, |s.p.ops|, last);
    case Some(j) =>
      assert FitsAt(s.p, j, OutH(s)) && OpInRange(s.p, s.p.ops[j]);
      BandOfProducer(s, j, last);
      PointwiseBands(s, 0, j, last);
  }

  lemma SpatialIs(s: Stage, j: nat)
    requires OneSpatial(s) && j < |s.p.ops|
    ensures s.p.ops[j].kernel.Spatial? <==> SpatialOp(s) == Some(j)
  {}

  /** The rows stage output i holds at the end of the tile that ends in `last`. */
  function OutputBand(s: Stage, i: nat, last: Band): Band
    requires Shaped(s) && i < |s.outs|
  {
    HeldAt(s, s.outs[i], |s.p.ops|, last)
  }

  /** The rows tile number `tile` of h rows covers of outH. */
  function Tile(h: int, outH: int, tile: int): Band {
    Band(tile * h, Min(tile * h + h, outH))
  }

  /** Output bands never move up from one tile to the next, and a first tile starts at row 0. */
  lemma OutputBandsAdvance(s: Stage, full: Env, i: nat, a: Band, b: Band)
    requires Ready(s, full) && i < |s.outs| && a.Inside(OutH(s)) && b.Inside(OutH(s)) && NoLater(a, b)
    ensures NoLater(OutputBand(s, i, a), OutputBand(s, i, b))
    ensures a.lo == 0 ==> OutputBand(s, i, a).lo == 0
  {
    hide Ready, Ahead, HeldAt, BandAt;
    OutputAt(s, full, i, a);
    OutputAt(s, full, i, b);
    WindowBandLo(s, full, a);
    BandNoLaterOf(s, full, a, b);
  }

  lemma BandNoLaterOf(s: Stage, full: Env, a: Band, b: Band)
    requires Ready(s, full) && NoLater(a, b)
    ensures NoLater(BandAt(s.p, 0, a), BandAt(s.p, 0, b))
  {
    BandNoLater(s.p, 0, a, b);
  }

  lemma WindowBandLo(s: Stage, full: Env, a: Band)
    requires Ready(s, full) && a.Inside(OutH(s))
    ensures a.lo == 0 ==> BandAt(s.p, 0, a).lo == 0
  {
    WindowBand(s, full, a);
  }

  /** Where stage output i sits, by whether it is ahead of the window operator. */
  lemma OutputAt(s: Stage, full: Env, i: nat, last: Band)
    requires Ready(s, full) && i < |s.outs| && last.Inside(OutH(s))
    ensures OutputBand(s, i, last).Inside(s.p.heights[s.outs[i]])
    ensures OutputBand(s, i, last) == if Ahead(s, s.outs[i]) then BandAt(s.p, 0, last) else last
    ensures s.p.heights[s.outs[i]] == if Ahead(s, s.outs[i]) then HeightAt(s.p, 0, OutH(s)) else OutH(s)
    ensures StripeCheck.Available(s, s.outs[i], |s.p.ops|)
  {
    assert StripeCheck.Produced(s, s.outs[i]);
    OutputRange(s, full, s.outs[i], |s.p.ops|, last);
  }

  /** Consecutive tiles leave no gap in any stage output exactly when the window operator's stride does not outrun its span, or none is ahead of it. */
  lemma TilesAdjoin(s: Stage, full: Env, i: nat, a: Band, b: Band)
    requires Ready(s, full) && i < |s.outs| && a.Inside(OutH(s)) && b.Inside(OutH(s)) && a.hi == b.lo
    ensures OutputBand(s, i, b).lo <= OutputBand(s, i, a).hi <==>
      !(Ahead(s, s.outs[i]) && s.p.ops[SpatialOp(s).value].kernel.w.Span() < s.p.ops[SpatialOp(s).value].kernel.w.stride)
  {
    OutputAt(s, full, i, a);
    OutputAt(s, full, i, b);
    WindowBand(s, full, a);
    WindowBand(s, full, b);
    if Ahead(s, s.outs[i]) {
      BackAdjoins(s.p.ops[SpatialOp(s).value].kernel.w, s.p.heights[BandInput(s)], OutH(s), a, b);
    }
  }

  /** The last tile ends every stage output exactly when the last window ends its input, or none is ahead of it. */
  lemma LastTileEnds(s: Stage, full: Env, i: nat, last: Band)
    requires Ready(s, full) && i < |s.outs| && last.Inside(OutH(s)) && last.hi == OutH(s)
    ensures OutputBand(s, i, last).hi == s.p.heights[s.outs[i]] <==>
      !(Ahead(s, s.outs[i]) &&
        var w := s.p.ops[SpatialOp(s).value].kernel.w; (OutH(s) - 1) * w.stride - w.padTop + w.Span() < s.p.heights[BandInput(s)])
  {
    hide Ready, HeldAt, BandAt, HeightAt, OutputBand;
    OutputAt(s, full, i, last);
    if Ahead(s, s.outs[i]) { LastWindowEnds(s, full, last); }
  }

  /** Where the last tile's rows ahead of the window operator end. */
  lemma LastWindowEnds(s: Stage, full: Env, last: Band)
    requires Ready(s, full) && SpatialOp(s).Some? && last.Inside(OutH(s)) && last.hi == OutH(s)
    ensures BandAt(s.p, 0, last).hi == HeightAt(s.p, 0, OutH(s)) <==>
      var w := s.p.ops[SpatialOp(s).value].kernel.w; (OutH(s) - 1) * w.stride - w.padTop + w.Span() >= s.p.heights[BandInput(s)]
  {
    WindowBand(s, full, last);
    AcceptedFits(s);
  }
}
