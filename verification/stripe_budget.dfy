/** The band height of a height stripe, and the fast bytes one band takes. */
module StripeBudget {
  import opened Rows
  import opened BandPlan
  import opened BandRanges
  import opened ChainBytes
  import opened StripeCheck

  /**
   * What a plan says of a stripe's memory: bytes of one row of each tensor,
   * the allocation alignment, the working set the compiler estimated (0 for
   * none) and the band height it states (from schema version 11 on).
   */
  datatype Sizing = Sizing(rowBytes: seq<nat>, align: nat, peak: nat, stated: Option<nat>)

  predicate Sized(s: Stage, z: Sizing) {
    Shaped(s) && |z.rowBytes| == |s.p.heights| && z.align >= 1
  }

  /** Aligned bytes of `rows` rows of t. */
  function RowsBytes(z: Sizing, t: Tensor, rows: int): int
    requires z.align >= 1 && t < |z.rowBytes|
  {
    AlignUp(z.rowBytes[t] * rows, z.align)
  }

  /** Bytes of the first n of a list of tensors at `rows` rows, or their height. */
  function ListBytes(s: Stage, z: Sizing, ts: seq<Tensor>, n: nat, rows: int): int
    requires Sized(s, z) && n <= |ts| && forall i :: 0 <= i < |ts| ==> ts[i] < |s.p.heights|
  {
    if n == 0 then 0
    else ListBytes(s, z, ts, n - 1, rows) + RowsBytes(z, ts[n - 1], Min(rows, s.p.heights[ts[n - 1]]))
  }

  /** The input rows h output rows need when nothing is clamped. */
  function InputRows(s: Stage, h: int): int {
    match SpatialOp(s)
    case None => h
    case Some(j) => (h - 1) * s.p.ops[j].kernel.w.stride + s.p.ops[j].kernel.w.Span()
  }

  /** The rows operator j leaves in a band of h output rows. */
  function RowsOf(s: Stage, j: nat, h: int): int {
    if SpatialOp(s).Some? && j < SpatialOp(s).value then InputRows(s, h) else h
  }

  /** Bytes of the outputs of the first n operators. */
  function OpsBytes(s: Stage, z: Sizing, n: nat, h: int): int
    requires Sized(s, z) && n <= |s.p.ops|
  {
    if n == 0 then 0
    else
      assert OpInRange(s.p, s.p.ops[n - 1]);
      OpsBytes(s, z, n - 1, h) + ListBytes(s, z, s.p.ops[n - 1].outs, |s.p.ops[n - 1].outs|, RowsOf(s, n - 1, h))
  }

  /** The working set of a band of h output rows. */
  function BandBytes(s: Stage, z: Sizing, h: int): int
    requires Sized(s, z)
  {
    ListBytes(s, z, s.ins, |s.ins|, InputRows(s, h)) + OpsBytes(s, z, |s.p.ops|, h)
  }

  /** Fast bytes the stage may take of `room`: no more than the plan's estimate. */
  function Available(z: Sizing, room: int): (bytes: int)
    ensures bytes == room || bytes == z.peak
    ensures bytes <= room && (z.peak != 0 ==> bytes <= z.peak)
  {
    if z.peak != 0 && z.peak < room then z.peak else room
  }

  /** The largest band up to n that fits; 0 when none does. */
  function FittingBand(s: Stage, z: Sizing, bytes: int, n: nat): (h: nat)
    requires Sized(s, z)
    ensures h <= n && (h >= 1 ==> BandBytes(s, z, h) <= bytes)
    ensures forall g :: h < g <= n ==> BandBytes(s, z, g) > bytes
  {
    if n == 0 then 0
    else if BandBytes(s, z, n) <= bytes then n
    else FittingBand(s, z, bytes, n - 1)
  }

  /** The band a stripe runs at with `room` fast bytes: the stated one if it fits, or the largest that does. */
  function StripeBand(s: Stage, z: Sizing, room: int): (h: Option<nat>)
    requires Sized(s, z)
    ensures h.Some? ==> 1 <= h.value <= OutH(s) && BandBytes(s, z, h.value) <= Available(z, room)
  {
    match z.stated
    case Some(band) => if 1 <= band <= OutH(s) && BandBytes(s, z, band) <= Available(z, room) then Some(band) else None
    case None =>
      var h := FittingBand(s, z, Available(z, room), OutH(s));
      if h == 0 then None else Some(h)
  }

  lemma {:induction false} ListBytesGrow(s: Stage, z: Sizing, ts: seq<Tensor>, n: nat, a: int, b: int)
    requires Sized(s, z) && n <= |ts| && (forall i :: 0 <= i < |ts| ==> ts[i] < |s.p.heights|) && a <= b
    ensures ListBytes(s, z, ts, n, a) <= ListBytes(s, z, ts, n, b)
  {
    if n > 0 {
      ListBytesGrow(s, z, ts, n - 1, a, b);
      RowsBytesGrow(z, ts[n - 1], Min(a, s.p.heights[ts[n - 1]]), Min(b, s.p.heights[ts[n - 1]]));
    }
  }

  /** A band's allocation is the least multiple of the alignment that holds its rows. */
  lemma RowsBytesLeast(z: Sizing, t: Tensor, rows: int, m: int)
    requires z.align >= 1 && t < |z.rowBytes|
    ensures RowsBytes(z, t, rows) % z.align == 0 && RowsBytes(z, t, rows) >= z.rowBytes[t] * rows
    ensures m % z.align == 0 && m >= z.rowBytes[t] * rows ==> RowsBytes(z, t, rows) <= m
  {
    AlignUpLeast(z.rowBytes[t] * rows, z.align, m);
  }

  lemma RowsBytesGrow(z: Sizing, t: Tensor, a: int, b: int)
    requires z.align >= 1 && t < |z.rowBytes| && a <= b
    ensures RowsBytes(z, t, a) <= RowsBytes(z, t, b)
    ensures a >= 0 ==> RowsBytes(z, t, a) >= 0
  {
    MulOrder(a, b, z.rowBytes[t]);
    MulOrder(0, a, z.rowBytes[t]);
    AlignUpGrows(z.rowBytes[t] * a, z.rowBytes[t] * b, z.align);
    AlignUpCovers(z.rowBytes[t] * a, z.align);
  }

  lemma {:induction false} ListBytesPrefix(s: Stage, z: Sizing, ts: seq<Tensor>, m: nat, n: nat, rows: int)
    requires Sized(s, z) && m <= n <= |ts| && (forall i :: 0 <= i < |ts| ==> ts[i] < |s.p.heights|) && rows >= 0
    ensures ListBytes(s, z, ts, m, rows) <= ListBytes(s, z, ts, n, rows)
  {
    if m < n {
      ListBytesPrefix(s, z, ts, m, n - 1, rows);
      RowsBytesGrow(z, ts[n - 1], Min(rows, s.p.heights[ts[n - 1]]), rows);
    }
  }

  lemma InputRowsGrow(s: Stage, g: int, h: int)
    requires g <= h
    ensures InputRows(s, g) <= InputRows(s, h)
  {
    if SpatialOp(s).Some? { MulOrder(g - 1, h - 1, s.p.ops[SpatialOp(s).value].kernel.w.stride); }
  }

  lemma InputRowsPositive(s: Stage, h: int)
    requires h >= 1 && (SpatialOp(s).Some? ==> s.p.ops[SpatialOp(s).value].kernel.w.Valid())
    ensures InputRows(s, h) >= 1
  {
    if SpatialOp(s).Some? {
      var w := s.p.ops[SpatialOp(s).value].kernel.w;
      MulNonNegative(h - 1, w.stride);
    }
  }

  lemma {:induction false} OpsBytesGrow(s: Stage, z: Sizing, n: nat, g: int, h: int)
    requires Sized(s, z) && n <= |s.p.ops| && g <= h
    ensures OpsBytes(s, z, n, g) <= OpsBytes(s, z, n, h)
  {
    if n > 0 {
      OpsBytesGrow(s, z, n - 1, g, h);
      assert OpInRange(s.p, s.p.ops[n - 1]);
      InputRowsGrow(s, g, h);
      ListBytesGrow(s, z, s.p.ops[n - 1].outs, |s.p.ops[n - 1].outs|, RowsOf(s, n - 1, g), RowsOf(s, n - 1, h));
    }
  }

  lemma {:induction false} OpsBytesPrefix(s: Stage, z: Sizing, m: nat, n: nat, h: int)
    requires Sized(s, z) && m <= n <= |s.p.ops| && h >= 1
    requires SpatialOp(s).Some? ==> s.p.ops[SpatialOp(s).value].kernel.w.Valid()
    ensures OpsBytes(s, z, m, h) <= OpsBytes(s, z, n, h)
  {
    if m < n {
      OpsBytesPrefix(s, z, m, n - 1, h);
      assert OpInRange(s.p, s.p.ops[n - 1]);
      InputRowsPositive(s, h);
      ListBytesPrefix(s, z, s.p.ops[n - 1].outs, 0, |s.p.ops[n - 1].outs|, RowsOf(s, n - 1, h));
    }
  }

  /** A taller band takes no fewer bytes, so the bands that fit are an interval from 1. */
  lemma BandBytesGrow(s: Stage, z: Sizing, g: int, h: int)
    requires Sized(s, z) && g <= h
    ensures BandBytes(s, z, g) <= BandBytes(s, z, h)
  {
    InputRowsGrow(s, g, h);
    ListBytesGrow(s, z, s.ins, |s.ins|, InputRows(s, g), InputRows(s, h));
    OpsBytesGrow(s, z, |s.p.ops|, g, h);
  }

  /** Adds up the allocations of one list of tensors. */
  method SumList(s: Stage, z: Sizing, ts: seq<Tensor>, rows: int) returns (total: int)
    requires Sized(s, z) && forall i :: 0 <= i < |ts| ==> ts[i] < |s.p.heights|
    ensures total == ListBytes(s, z, ts, |ts|, rows)
  {
    total := 0;
    for i := 0 to |ts|
      invariant total == ListBytes(s, z, ts, i, rows)
    {
      var extent := if rows > s.p.heights[ts[i]] then s.p.heights[ts[i]] else rows;
      total := total + AlignUp(z.rowBytes[ts[i]] * extent, z.align);
    }
  }

  /** The working set of a band, the extent flowing through the stage alongside. */
  method FastBytes(s: Stage, z: Sizing, sp: Option<nat>, h: int) returns (required: int)
    requires Sized(s, z) && sp == SpatialOp(s)
    ensures required == BandBytes(s, z, h)
  {
    var current := h;
    if sp.Some? { current := (h - 1) * s.p.ops[sp.value].kernel.w.stride + s.p.ops[sp.value].kernel.w.Span(); }
    required := SumList(s, z, s.ins, current);
    for j := 0 to |s.p.ops|
      invariant required == ListBytes(s, z, s.ins, |s.ins|, InputRows(s, h)) + OpsBytes(s, z, j, h)
      invariant current == if sp.Some? && sp.value < j then h else InputRows(s, h)
    {
      var isSpatial := sp == Some(j);
      assert OpInRange(s.p, s.p.ops[j]);
      var b := SumList(s, z, s.p.ops[j].outs, if isSpatial then h else current);
      required := required + b;
      if isSpatial { current := h; }
    }
  }

  /** The largest band that fits, by a binary search over the heights; 0 when none does. */
  method LargestBand(s: Stage, z: Sizing, sp: Option<nat>, available: int) returns (best: nat)
    requires Sized(s, z) && sp == SpatialOp(s)
    ensures best == FittingBand(s, z, available, OutH(s))
  {
    hide BandBytes, SpatialOp, FittingBand, OutH;
    var outH := s.p.heights[BandOutput(s)];
    OutHIs(s);
    var low: int, high: int := 1, outH;
    best := 0;
    while low <= high
      invariant 1 <= low == best + 1 && high <= outH && low <= high + 1
      invariant best >= 1 ==> BandBytes(s, z, best) <= available
      invariant forall g :: high < g <= outH ==> BandBytes(s, z, g) > available
      decreases high - low
    {
      var mid := low + (high - low) / 2;
      var required := FastBytes(s, z, sp, mid);
      if required <= available {
        best, low := mid, mid + 1;
      } else {
        forall g | mid <= g <= outH ensures BandBytes(s, z, g) > available { BandBytesGrow(s, z, mid, g); }
        high := mid - 1;
      }
    }
    FittingBandIs(s, z, available, outH, best);
  }

  lemma OutHIs(s: Stage)
    requires Shaped(s)
    ensures OutH(s) == s.p.heights[BandOutput(s)] >= 1
  {}

  /** Output rows per band: the plan's, refused unless it fits, or for a plan that states none the largest that does. */
  method BandRows(s: Stage, z: Sizing, sp: Option<nat>, room: int) returns (rows: Option<nat>)
    requires Sized(s, z) && sp == SpatialOp(s)
    ensures rows == StripeBand(s, z, room)
  {
    hide BandBytes, SpatialOp, FittingBand;
    var available := if z.peak != 0 && z.peak < room then z.peak else room;
    match z.stated {
      case Some(band) =>
        if band == 0 || band > s.p.heights[BandOutput(s)] { return None; }
        var required := FastBytes(s, z, sp, band);
        return if required > available then None else Some(band);
      case None =>
        var best := LargestBand(s, z, sp, available);
        return if best == 0 then None else Some(best);
    }
  }

  lemma {:induction false} FittingBandIs(s: Stage, z: Sizing, bytes: int, n: nat, best: nat)
    requires Sized(s, z) && best <= n && (best >= 1 ==> BandBytes(s, z, best) <= bytes)
    requires forall g :: best < g <= n ==> BandBytes(s, z, g) > bytes
    ensures best == FittingBand(s, z, bytes, n)
  {
    if n > best { FittingBandIs(s, z, bytes, n - 1, best); }
  }

  // What a tile takes.

  /** Every stage input reaches as far as the band's input, or is one row broadcast over it. */
  ghost predicate InputsReach(s: Stage)
    requires Shaped(s)
  {
    forall i :: 0 <= i < |s.ins| ==> Broadcast(s, s.ins[i]) || s.p.heights[s.ins[i]] >= s.p.heights[BandInput(s)]
  }

  /** Slow bytes of the first n stage outputs. */
  function SlowBytes(s: Stage, z: Sizing, n: nat): int
    requires Sized(s, z) && n <= |s.outs|
  {
    if n == 0 then 0 else SlowBytes(s, z, n - 1) + RowsBytes(z, s.outs[n - 1], s.p.heights[s.outs[n - 1]])
  }

  lemma {:induction false} SlowBytesPrefix(s: Stage, z: Sizing, m: nat, n: nat)
    requires Sized(s, z) && m <= n <= |s.outs|
    ensures SlowBytes(s, z, m) <= SlowBytes(s, z, n)
  {
    if m < n {
      SlowBytesPrefix(s, z, m, n - 1);
      RowsBytesGrow(z, s.outs[n - 1], s.p.heights[s.outs[n - 1]], s.p.heights[s.outs[n - 1]]);
    }
  }
}
