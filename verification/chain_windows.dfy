/**
 * Runs of window operators between two points of a chain: the band at the
 * earlier point from the band at the later one, by the composed field.
 */
module ChainWindows {
  import opened Rows
  import opened BandPlan
  import opened BandRanges
  import opened ChainBudget

  /** One operator ahead of a run whose field is f. */
  function ComposeAhead(op: Op, f: Field): Field {
    match op.kernel
    case Pointwise(_, _, _) => f
    case Spatial(w, _) =>
      Field(w.stride * f.stride, w.Span() + (f.span - 1) * w.stride, w.padTop + f.pad * w.stride)
  }

  /** A run composes from its first operator as from its last. */
  lemma {:induction false} ComposeFirst(p: Plan, lo: nat, hi: nat)
    requires lo < hi <= |p.ops|
    ensures Compose(p, lo, hi) == ComposeAhead(p.ops[lo], Compose(p, lo + 1, hi))
    decreases hi
  {
    if lo + 1 < hi {
      ComposeFirst(p, lo, hi - 1);
      ComposeSwap(p.ops[lo], Compose(p, lo + 1, hi - 1), p.ops[hi - 1]);
    } else {
      assert Compose(p, lo, lo) == Field(1, 1, 0);
    }
  }

  lemma ComposeSwap(op: Op, f: Field, last: Op)
    ensures ComposeOp(ComposeAhead(op, f), last) == ComposeAhead(op, ComposeOp(f, last))
  {
    if op.kernel.Spatial? && last.kernel.Spatial? {
      var w, v := op.kernel.w, last.kernel.w;
      MulAssoc(w.stride, f.stride, v.stride);
      Distribute(f.span - 1, v.Span() - 1, f.stride, w.stride);
      Distribute(f.pad, v.padTop, f.stride, w.stride);
    }
  }

  lemma Distribute(a: int, b: int, c: int, s: int)
    ensures (a + b * c) * s == a * s + b * (s * c)
  {
    MulSub(a, -(b * c), s);
    MulNegate(b * c, s);
    MulAssoc(b, c, s);
    assert c * s == s * c;
  }

  /** A run of valid windows: its padding is less than its span. */
  lemma {:induction false} PadBelowSpan(p: Plan, lo: nat, hi: nat)
    requires ValidWindows(p) && lo <= hi <= |p.ops|
    ensures var f := Compose(p, lo, hi); f.stride >= 1 && 0 <= f.pad < f.span
    decreases hi
  {
    ComposePositive(p, lo, hi);
    if lo < hi {
      PadBelowSpan(p, lo, hi - 1);
      ComposePositive(p, lo, hi - 1);
      assert ValidWindow(p.ops[hi - 1]);
      match p.ops[hi - 1].kernel
      case Pointwise(_, _, _) =>
      case Spatial(w, _) =>
        MulOrder(w.padTop, w.Span() - 1, Compose(p, lo, hi - 1).stride);
        MulNonNegative(w.padTop, Compose(p, lo, hi - 1).stride);
    }
  }

  /** Where the band ahead of a run starts: the composed stride and padding, clamped once. */
  lemma {:induction false} RunStart(p: Plan, lo: nat, hi: nat, last: Band)
    requires InRange(p) && lo <= hi <= |p.ops| && BandAt(p, hi, last).lo >= 0
    ensures var f := Compose(p, lo, hi);
      BandAt(p, lo, last).lo == Max(0, BandAt(p, hi, last).lo * f.stride - f.pad)
    decreases hi - lo
  {
    if lo < hi {
      RunStart(p, lo + 1, hi, last);
      ComposeFirst(p, lo, hi);
      var f := Compose(p, lo + 1, hi);
      var x := BandAt(p, hi, last).lo;
      match p.ops[lo].kernel
      case Pointwise(_, _, _) =>
      case Spatial(w, _) => ClampOnce(x * f.stride - f.pad, x, f.stride, f.pad, w.stride, w.padTop);
    }
  }

  lemma ClampOnce(a: int, x: int, s: int, p: int, t: nat, q: nat)
    requires a == x * s - p
    ensures Max(0, Max(0, a) * t - q) == Max(0, x * (t * s) - (q + p * t))
  {
    MulSub(x * s, p, t);
    MulAssoc(x, s, t);
    assert s * t == t * s;
    if a < 0 { MulOrder(a, 0, t); }
  }

  lemma SpatialFits(p: Plan, k: nat, outH: nat, last: Band)
    requires InRange(p) && Fits(p, outH) && last.Inside(outH) && k < |p.ops| && p.ops[k].kernel.Spatial?
    ensures p.ops[k].kernel.w.Valid() && OpInRange(p, p.ops[k])
    ensures BandAt(p, k, last) == Back(p.ops[k].kernel.w, p.heights[p.ops[k].ins[0]], BandAt(p, k + 1, last))
  {
    assert FitsAt(p, k, outH);
  }

  /** Where it ends: the composed field's end, unless the whole tensor ends before. */
  lemma {:induction false} RunEnd(p: Plan, lo: nat, hi: nat, outH: nat, last: Band)
    requires InRange(p) && Fits(p, outH) && last.Inside(outH) && lo <= hi <= |p.ops|
    ensures var f := Compose(p, lo, hi);
      BandAt(p, lo, last).hi ==
        Min((BandAt(p, hi, last).hi - 1) * f.stride - f.pad + f.span, BandAt(p, lo, Band(0, outH)).hi)
    decreases hi - lo
  {
    if lo == hi {
      EndsByWhole(p, lo, outH, last);
    } else {
      RunEnd(p, lo + 1, hi, outH, last);
      ComposeFirst(p, lo, hi);
      if p.ops[lo].kernel.Spatial? {
        SpatialFits(p, lo, outH, last);
        SpatialFits(p, lo, outH, Band(0, outH));
        var w := p.ops[lo].kernel.w;
        var f := Compose(p, lo + 1, hi);
        var x := BandAt(p, hi, last).hi - 1;
        MinTimes(x * f.stride - f.pad + f.span, BandAt(p, lo + 1, Band(0, outH)).hi, w.stride);
        EndStep(x, f.stride, f.span - 1, f.pad, w.stride);
      }
    }
  }

  lemma MinTimes(a: int, b: int, t: nat)
    ensures (Min(a, b) - 1) * t == Min((a - 1) * t, (b - 1) * t)
  {
    MulOrder(a - 1, b - 1, t);
    MulOrder(b - 1, a - 1, t);
  }

  lemma EndStep(x: int, s: int, e: int, p: int, t: int)
    ensures (x * s - p + e) * t == x * (t * s) - p * t + e * t
  {
    MulSub(x * s + e, p, t);
    MulSub(x * s, -e, t);
    MulNegate(e, t);
    MulAssoc(x, s, t);
    assert s * t == t * s;
  }

  lemma EndsByWhole(p: Plan, k: nat, outH: nat, last: Band)
    requires InRange(p) && last.Inside(outH) && k <= |p.ops|
    ensures BandAt(p, k, last).hi <= BandAt(p, k, Band(0, outH)).hi
  {
    BandNoLater(p, k, Band(0, last.hi), Band(0, outH));
    SameEnd(p, k, last, Band(0, last.hi));
  }

  /**
   * Consecutive bands of the last output read bands with no gap ahead of a
   * run exactly when the run's composed stride does not outrun its span.
   */
  lemma RunAdjoins(p: Plan, k: nat, outH: nat, a: Band, b: Band)
    requires InRange(p) && ValidWindows(p) && Fits(p, outH) && k <= |p.ops|
    requires a.Inside(outH) && b.Inside(outH) && a.hi == b.lo
    ensures var f := Compose(p, k, |p.ops|);
      BandAt(p, k, b).lo <= BandAt(p, k, a).hi <==> f.span >= f.stride
  {
    var f := Compose(p, k, |p.ops|);
    assert BandAt(p, |p.ops|, a) == a && BandAt(p, |p.ops|, b) == b;
    RunStart(p, k, |p.ops|, b);
    RunEnd(p, k, |p.ops|, outH, a);
    RunEnd(p, k, |p.ops|, outH, b);
    BandInside(p, k, outH, a);
    BandInside(p, k, outH, b);
    PadBelowSpan(p, k, |p.ops|);
    Adjoin(a.hi, f.stride, f.pad, f.span, BandAt(p, k, b).lo, BandAt(p, k, a).hi, BandAt(p, k, Band(0, outH)).hi);
  }

  lemma Adjoin(x: int, s: int, p: int, e: int, lo: int, hi: int, whole: int)
    requires x >= 1 && s >= 1 && 0 <= p < e && hi >= 1 && lo < whole
    requires lo == Max(0, x * s - p) && hi == Min((x - 1) * s - p + e, whole)
    ensures lo <= hi <==> e >= s
  {
    MulSub(x, 1, s);
    MulOrder(1, x, s);
  }
}
