/**
 * The 2D tile grid: convolutions and transposed convolutions cut along height
 * and width. The two axes are worked out alike and apart, so most of this is
 * about one axis.
 *
 * A convolution reads its input by the window relation; a transposed one by
 * its inverse, where an output takes an input only on the stride lattice. For
 * both, a tile's input interval and effective padding are worked out so that
 * the kernel, which knows only the tile, makes the whole operator's choice of
 * cells. Channels and batch are inside a cell.
 */
module Tile2d {
  import opened Rows
  import opened BandRanges

  type Cell(0)

  type Grid = seq<seq<Cell>>

  /** How one axis of the output reads one axis of the input. */
  datatype Axis =
    | Conv(w: Window)
    /** Output o takes input i through tap k when o == i * stride - pad + k. */
    | Transposed(stride: nat, pad: nat, taps: nat)
  {
    function Taps(): nat { if Conv? then w.taps else taps }

    predicate Valid() { if Conv? then w.Valid() else stride >= 1 && taps >= 1 }

    /** The input coordinate tap k of output o reads, if it lands on one. */
    function Tap(extent: int, o: int, k: int): (i: Option<int>)
      requires Valid()
      ensures i.Some? ==> 0 <= i.value < extent
    {
      match this
      case Conv(w) =>
        var i := w.TapRow(o, k);
        if 0 <= i < extent then Some(i) else None
      case Transposed(s, p, _) =>
        var num := o + p - k;
        if num % s != 0 || num / s < 0 || num / s >= extent then None else Some(num / s)
    }
  }

  /**
   * Tap k of output o reads input i exactly when they meet on the lattice:
   * a convolution steps through the input, and a transposed one through the
   * output, where input i puts its tap k at i * stride - pad + k.
   */
  lemma TapRelation(a: Axis, extent: int, o: int, k: int, i: int)
    requires a.Valid()
    ensures a.Conv? ==>
      (a.Tap(extent, o, k) == Some(i) <==> 0 <= i < extent && i == o * a.w.stride - a.w.padTop + k * a.w.dilation)
    ensures a.Transposed? ==>
      (a.Tap(extent, o, k) == Some(i) <==> 0 <= i < extent && o == i * a.stride - a.pad + k)
  {
    if a.Transposed? {
      var num := o + a.pad - k;
      FloorIs(num, a.stride);
      if num == i * a.stride {
        DivUnique(num, i, 0, a.stride);
        assert num == (num / a.stride) * a.stride + num % a.stride;
      }
    }
  }

  /** What the loader establishes of an axis: the last output reads from inside the input or before it. */
  predicate Fits(a: Axis, extent: int, outputs: int) {
    && a.Valid() && extent >= 1 && outputs >= 1
    && match a
       case Conv(w) => Geometry(w, extent, outputs)
       case Transposed(s, p, t) => outputs - 1 + p - (t - 1) < extent * s
  }

  /** Floor division of a possibly negative numerator, where `/` would truncate toward zero. */
  method FloorDiv(a: int, b: nat) returns (q: int)
    requires b >= 1
    ensures q * b <= a < q * b + b
    ensures q == a / b
  {
    if a >= 0 {
      q := a / b;
    } else {
      q := -((-a + b - 1) / b);
      CeilingIff(-a, b, -q);
      CeilingIff(-a, b, -q - 1);
      MulSub(0, -q, b);
      MulSub(-q, 1, b);
      DivUnique(a, q, a - q * b, b);
    }
  }

  /** The input interval and the effective padding of the outputs [o0, o1). */
  function TileIn(a: Axis, extent: int, o0: int, o1: int): Band
    requires a.Valid()
  {
    match a
    case Conv(w) => Back(w, extent, Band(o0, o1))
    case Transposed(s, p, t) => Band(Max(0, (o0 + p - (t - 1)) / s), Min(extent, (o1 - 1 + p) / s + 1))
  }

  function TilePad(a: Axis, extent: int, o0: int, o1: int): int
    requires a.Valid()
  {
    match a
    case Conv(w) => PadTop(w, Band(o0, o1))
    case Transposed(s, p, _) => o0 + p - TileIn(a, extent, o0, o1).lo * s
  }

  method TileAxis(a: Axis, extent: int, o0: int, o1: int) returns (i0: int, i1: int, pad: int)
    requires a.Valid() && 0 <= o0
    ensures Band(i0, i1) == TileIn(a, extent, o0, o1) && pad == TilePad(a, extent, o0, o1)
  {
    match a {
      case Conv(w) =>
        MulNonNegative(o0, w.stride);
        i0 := o0 * w.stride - w.padTop;
        i1 := (o1 - 1) * w.stride - w.padTop + w.Span();
        pad := 0;
        if i0 < 0 { pad := -i0; i0 := 0; }
        if i1 > extent { i1 := extent; }
      case Transposed(s, p, t) =>
        i0 := FloorDiv(o0 + p - (t - 1), s);
        i1 := FloorDiv(o1 - 1 + p, s);
        i1 := i1 + 1;
        if i0 < 0 { i0 := 0; }
        if i1 > extent { i1 := extent; }
        pad := o0 + p - i0 * s;
    }
  }

  /** The interval is inside the input and not empty, so no tile of a valid stage is refused. */
  lemma TileInInside(a: Axis, extent: int, outputs: int, o0: int, o1: int)
    requires Fits(a, extent, outputs) && 0 <= o0 < o1 <= outputs
    ensures TileIn(a, extent, o0, o1).Inside(extent)
  {
    match a
    case Conv(w) => BackInside(w, extent, outputs, Band(o0, o1));
    case Transposed(s, p, t) =>
      FloorIs(o0 + p - (t - 1), s);
      FloorIs(o1 - 1 + p, s);
      var lo, hi := (o0 + p - (t - 1)) / s, (o1 - 1 + p) / s;
      if lo >= extent { MulOrder(extent, lo, s); }
      if hi < 0 { MulOrder(hi, -1, s); }
      if lo > hi { MulOrder(hi + 1, lo, s); MulSub(hi, -1, s); }
  }

  /** A transposed tile is refused, as reading no input, exactly when even its first output's last tap is past the input. */
  lemma TransposedRefused(s: nat, p: nat, t: nat, extent: int, o0: int, o1: int)
    requires s >= 1 && t >= 1 && extent >= 1 && 0 <= o0 < o1
    ensures var in_ := TileIn(Transposed(s, p, t), extent, o0, o1);
      in_.hi <= in_.lo <==> o0 + p - (t - 1) >= extent * s
  {
    FloorIs(o0 + p - (t - 1), s);
    FloorIs(o1 - 1 + p, s);
    var lo, hi := (o0 + p - (t - 1)) / s, (o1 - 1 + p) / s;
    if lo >= extent { MulOrder(extent, lo, s); } else { MulOrder(lo + 1, extent, s); MulSub(lo, -1, s); }
    if hi < 0 { MulOrder(hi, -1, s); }
    if lo > hi { MulOrder(hi + 1, lo, s); MulSub(hi, -1, s); }
  }

  /** The effective padding of a transposed tile is never negative and below stride + taps - 1. */
  lemma TransposedPad(s: nat, p: nat, t: nat, extent: int, o0: int, o1: int)
    requires s >= 1 && t >= 1 && 0 <= o0
    ensures 0 <= TilePad(Transposed(s, p, t), extent, o0, o1) <= s + t - 2
  {
    FloorIs(o0 + p - (t - 1), s);
    var lo := (o0 + p - (t - 1)) / s;
    if lo >= 0 { MulNonNegative(lo, s); } else { MulOrder(lo, -1, s); }
  }

  /**
   * In a tile the taps are the global ones: under the effective padding the
   * kernel's tap of output r of the tile lands where the whole operator's tap
   * of output o0 + r does, counted from the start of the interval, and nowhere
   * otherwise. Every input the whole operator reads is inside the interval.
   */
  lemma TileTapIsGlobal(a: Axis, extent: int, outputs: int, o0: int, o1: int, r: int, k: int)
    requires Fits(a, extent, outputs) && 0 <= o0 < o1 <= outputs && 0 <= r < o1 - o0 && 0 <= k < a.Taps()
    ensures LocalTap(a, TilePad(a, extent, o0, o1), TileIn(a, extent, o0, o1).Rows(), r, k) ==
      Shifted(a.Tap(extent, o0 + r, k), TileIn(a, extent, o0, o1).lo)
  {
    match a
    case Conv(w) =>
      BackInside(w, extent, outputs, Band(o0, o1));
      TapInBand(w, extent, outputs, Band(o0, o1), r, k);
    case Transposed(s, p, t) =>
      TransposedPad(s, p, t, extent, o0, o1);
      TransposedTap(s, p, t, extent, o0, o1, r, k);
  }

  function Shifted(i: Option<int>, origin: int): Option<int> {
    match i
    case None => None
    case Some(v) => Some(v - origin)
  }

  /** Tap k of output r of a tile, under the tile's padding and extent. */
  function LocalTap(a: Axis, pad: int, extent: int, r: int, k: int): (i: Option<int>)
    requires a.Valid()
    ensures i.Some? ==> 0 <= i.value < extent
  {
    match a
    case Conv(w) =>
      var i := r * w.stride - pad + k * w.dilation;
      if 0 <= i < extent then Some(i) else None
    case Transposed(s, _, _) =>
      var num := r + pad - k;
      if num % s != 0 || num / s < 0 || num / s >= extent then None else Some(num / s)
  }

  /** The transposed tap: the tile starts on the stride lattice, so lattice points stay lattice points. */
  lemma TransposedTap(s: nat, p: nat, t: nat, extent: int, o0: int, o1: int, r: int, k: int)
    requires s >= 1 && t >= 1 && 0 <= o0 && 0 <= r < o1 - o0 && 0 <= k < t
    ensures var a := Transposed(s, p, t);
      LocalTap(a, TilePad(a, extent, o0, o1), TileIn(a, extent, o0, o1).Rows(), r, k) ==
      Shifted(a.Tap(extent, o0 + r, k), TileIn(a, extent, o0, o1).lo)
  {
    var a := Transposed(s, p, t);
    var in_ := TileIn(a, extent, o0, o1);
    var num := r + TilePad(a, extent, o0, o1) - k;
    var global := o0 + r + p - k;
    assert global == num + in_.lo * s;
    Lattice(num, in_.lo, s);
    if global % s == 0 && 0 <= global / s < extent {
      LatticeInside(o0 + p - (t - 1), global, o1 - 1 + p, s);
    }
  }

  /** Adding a multiple of the stride moves the quotient by that multiple and keeps the remainder. */
  lemma Lattice(n: int, m: int, s: nat)
    requires s >= 1
    ensures (n + m * s) % s == n % s && (n + m * s) / s == n / s + m
  {
    var q := n / s;
    FloorIs(n, s);
    assert n == q * s + n % s;
    MulSub(q, -m, s);
    DivUnique(n + m * s, q + m, n % s, s);
  }

  /** A lattice point between lo and hi is between their floors. */
  lemma LatticeInside(lo: int, n: int, hi: int, s: nat)
    requires s >= 1 && lo <= n <= hi && n % s == 0
    ensures lo / s <= n / s <= hi / s
  {
    FloorIs(lo, s);
    FloorIs(n, s);
    FloorIs(hi, s);
    if lo / s > n / s { MulOrder(n / s + 1, lo / s, s); MulSub(n / s, -1, s); }
    if n / s > hi / s { MulOrder(hi / s + 1, n / s, s); MulSub(hi / s, -1, s); }
  }

  /** The input rows the working set counts for a tile of `outputs` rows. */
  function SpanBound(a: Axis, extent: int, outputs: int): int
    requires a.Valid()
  {
    Min(extent, match a
      case Conv(w) => (outputs - 1) * w.stride + w.Span()
      case Transposed(s, p, t) => (outputs + t + s - 1) / s + 2)
  }

  /** The working set's extents bound every tile, edge and corner ones too. */
  lemma SpanBounded(a: Axis, extent: int, outputs: int, tile: int, o0: int, o1: int)
    requires Fits(a, extent, outputs) && 0 <= o0 < o1 <= outputs && o1 - o0 <= tile
    ensures TileIn(a, extent, o0, o1).Rows() <= SpanBound(a, extent, tile)
  {
    match a
    case Conv(w) =>
      MulSub(o1 - 1, o0, w.stride);
      MulOrder(o1 - 1 - o0, tile - 1, w.stride);
    case Transposed(s, p, t) =>
      var lo, hi := o0 + p - (t - 1), o1 - 1 + p;
      var bound := tile + t + s - 1;
      FloorIs(lo, s);
      FloorIs(hi, s);
      FloorIs(bound, s);
      // (hi / s - lo / s) * s <= hi - lo + s - 1 <= bound + s - 2 < (bound / s + 2) * s
      MulSub(hi / s, lo / s, s);
      MulSub(bound / s, -2, s);
      if hi / s - lo / s >= bound / s + 2 { MulOrder(bound / s + 2, hi / s - lo / s, s); }
  }

  /**
   * The bound is no looser than the grid needs: a tile whose window is inside
   * the input takes all of it for a convolution, and for a transposed one all
   * but at most three rows.
   */
  lemma SpanTight(a: Axis, extent: int, o0: int, o1: int)
    requires a.Valid() && o0 < o1
    ensures a.Conv? && o0 * a.w.stride >= a.w.padTop && (o1 - 1) * a.w.stride - a.w.padTop + a.w.Span() <= extent ==>
      SpanBound(a, extent, o1 - o0) == TileIn(a, extent, o0, o1).Rows()
    ensures a.Transposed? && o0 + a.pad >= a.taps - 1 && (o1 - 1 + a.pad) / a.stride < extent ==>
      SpanBound(a, extent, o1 - o0) <= TileIn(a, extent, o0, o1).Rows() + 3
  {
    match a
    case Conv(w) => MulSub(o1 - 1, o0, w.stride);
    case Transposed(s, p, t) =>
      var lo, hi, bound := o0 + p - (t - 1), o1 - 1 + p, o1 - o0 + t + s - 1;
      FloorIs(lo, s);
      FloorIs(hi, s);
      FloorIs(bound, s);
      // bound == (hi - lo) + s + 1, and hi - lo < (hi / s - lo / s + 1) * s
      MulSub(hi / s, lo / s, s);
      MulSub(hi / s - lo / s, -2, s);
      MulSub(hi / s - lo / s, -3, s);
      if bound / s > hi / s - lo / s + 2 { MulOrder(hi / s - lo / s + 3, bound / s, s); }
      if lo >= 0 && lo / s < 0 { MulOrder(lo / s, -1, s); }
  }

  /** The outputs of tile number `tile` of an axis of n outputs in tiles of h. */
  function TileOut(h: int, n: int, tile: int): Band { Band(tile * h, Min(tile * h + h, n)) }

  function TileCount(h: int, n: int): int
    requires h >= 1
  {
    1 + (n - 1) / h
  }

  /** Each output is in exactly one tile. */
  lemma OneTile(h: int, n: int, o: int, tile: int)
    requires h >= 1 && 0 <= o < n
    ensures 0 <= o / h < TileCount(h, n)
    ensures TileOut(h, n, tile).lo <= o < TileOut(h, n, tile).hi <==> tile == o / h
  {
    InTile(h, o, tile);
    QuotientOrder(h, o, n - 1);
  }

  lemma InTile(h: nat, o: nat, tile: int)
    requires h >= 1
    ensures tile * h <= o < tile * h + h <==> tile == o / h
  {
    var q := o / h;
    FloorIs(o, h);
    if tile < q { MulOrder(tile + 1, q, h); MulSub(tile, -1, h); }
    if tile > q { MulOrder(q + 1, tile, h); MulSub(q, -1, h); }
  }

  lemma QuotientOrder(h: nat, o: nat, m: nat)
    requires h >= 1 && o <= m
    ensures 0 <= o / h <= m / h
  {
    var q, k := o / h, m / h;
    FloorIs(o, h);
    FloorIs(m, h);
    if q > k { MulOrder(k + 1, q, h); MulSub(k, -1, h); }
  }

  lemma TileOutInside(h: int, n: int, tile: int)
    requires h >= 1 && n >= 1 && 0 <= tile < TileCount(h, n)
    ensures TileOut(h, n, tile).Inside(n) && TileOut(h, n, tile).Rows() <= h
  {
    FloorIs(n - 1, h);
    MulOrder(tile, (n - 1) / h, h);
    MulNonNegative(tile, h);
  }

  predicate IsGrid(x: Grid, h: nat, w: nat) {
    |x| == h && forall i :: 0 <= i < h ==> |x[i]| == w
  }

  function CellAt(x: Grid, i: Option<int>, j: Option<int>): Option<Cell> {
    if i.Some? && j.Some? && 0 <= i.value < |x| && 0 <= j.value < |x[i.value]| then Some(x[i.value][j.value]) else None
  }

  /** The cells the taps of both axes name, row by row. */
  function Cells(x: Grid, rows: seq<Option<int>>, cols: seq<Option<int>>): (c: seq<seq<Option<Cell>>>)
    ensures |c| == |rows| && (forall k :: 0 <= k < |rows| ==> |c[k]| == |cols|)
    ensures forall k, l :: 0 <= k < |rows| && 0 <= l < |cols| ==> c[k][l] == CellAt(x, rows[k], cols[l])
  {
    seq(|rows|, k requires 0 <= k < |rows| => seq(|cols|, l requires 0 <= l < |cols| => CellAt(x, rows[k], cols[l])))
  }

  /** The taps of output o of the whole operator. */
  function WholeTaps(a: Axis, extent: int, o: int): (t: seq<Option<int>>)
    requires a.Valid()
    ensures |t| == a.Taps()
  {
    seq(a.Taps(), k => a.Tap(extent, o, k))
  }

  /** The taps of output r of a tile. */
  function TileTaps(a: Axis, pad: int, extent: int, r: int): (t: seq<Option<int>>)
    requires a.Valid()
    ensures |t| == a.Taps()
  {
    seq(a.Taps(), k => LocalTap(a, pad, extent, r, k))
  }

  /** What the whole operator reads for output (oh, ow). */
  function Gather(x: Grid, ah: Axis, aw: Axis, oh: int, ow: int): seq<seq<Option<Cell>>>
    requires ah.Valid() && aw.Valid() && |x| >= 1
  {
    Cells(x, WholeTaps(ah, |x|, oh), WholeTaps(aw, |x[0]|, ow))
  }

  /** The packed input rectangle of a tile. */
  function Rectangle(x: Grid, rows: Band, cols: Band): (s: Grid)
    requires |x| >= 1 && IsGrid(x, |x|, |x[0]|) && rows.Inside(|x|) && cols.Inside(|x[0]|)
    ensures IsGrid(s, rows.Rows(), cols.Rows())
  {
    seq(rows.Rows(), i requires 0 <= i < rows.Rows() => x[rows.lo + i][cols.lo..cols.hi])
  }

  lemma CellFromRectangle(x: Grid, rows: Band, cols: Band, i: Option<int>, j: Option<int>)
    requires |x| >= 1 && IsGrid(x, |x|, |x[0]|) && rows.Inside(|x|) && cols.Inside(|x[0]|)
    requires i.Some? ==> rows.lo <= i.value < rows.hi
    requires j.Some? ==> cols.lo <= j.value < cols.hi
    ensures CellAt(Rectangle(x, rows, cols), Shifted(i, rows.lo), Shifted(j, cols.lo)) == CellAt(x, i, j)
  {}

  /** A tile reads from its rectangle what the whole operator reads from the whole input. */
  lemma TileGatherIsGlobal(x: Grid, ah: Axis, aw: Axis, oh: nat, ow: nat, rows: Band, cols: Band, r: int, c: int)
    requires |x| >= 1 && IsGrid(x, |x|, |x[0]|) && Fits(ah, |x|, oh) && Fits(aw, |x[0]|, ow)
    requires rows.Inside(oh) && cols.Inside(ow) && 0 <= r < rows.Rows() && 0 <= c < cols.Rows()
    ensures var ih, iw := TileIn(ah, |x|, rows.lo, rows.hi), TileIn(aw, |x[0]|, cols.lo, cols.hi);
      && ih.Inside(|x|) && iw.Inside(|x[0]|)
      && Cells(Rectangle(x, ih, iw), TileTaps(ah, TilePad(ah, |x|, rows.lo, rows.hi), ih.Rows(), r),
               TileTaps(aw, TilePad(aw, |x[0]|, cols.lo, cols.hi), iw.Rows(), c))
         == Gather(x, ah, aw, rows.lo + r, cols.lo + c)
  {
    hide Fits, TileIn, TilePad, LocalTap, CellAt, Rectangle, IsGrid;
    FitsValid(ah, |x|, oh);
    FitsValid(aw, |x[0]|, ow);
    var ih, iw := TileIn(ah, |x|, rows.lo, rows.hi), TileIn(aw, |x[0]|, cols.lo, cols.hi);
    TileInInside(ah, |x|, oh, rows.lo, rows.hi);
    TileInInside(aw, |x[0]|, ow, cols.lo, cols.hi);
    var here := Cells(Rectangle(x, ih, iw), TileTaps(ah, TilePad(ah, |x|, rows.lo, rows.hi), ih.Rows(), r),
                      TileTaps(aw, TilePad(aw, |x[0]|, cols.lo, cols.hi), iw.Rows(), c));
    var whole := Gather(x, ah, aw, rows.lo + r, cols.lo + c);
    forall k, l | 0 <= k < ah.Taps() && 0 <= l < aw.Taps() ensures here[k][l] == whole[k][l] {
      TileTapIsGlobal(ah, |x|, oh, rows.lo, rows.hi, r, k);
      TileTapIsGlobal(aw, |x[0]|, ow, cols.lo, cols.hi, c, l);
      CellFromRectangle(x, ih, iw, ah.Tap(|x|, rows.lo + r, k), aw.Tap(|x[0]|, cols.lo + c, l));
    }
    forall k | 0 <= k < ah.Taps() ensures here[k] == whole[k] {}
  }

  /** The tap loop of one axis: the interval a convolution visits, or the taps a transposed one does not skip. */
  method AxisTaps(a: Axis, pad: int, extent: nat, r: int) returns (t: seq<Option<int>>)
    requires a.Valid()
    ensures t == TileTaps(a, pad, extent, r)
  {
    t := seq(a.Taps(), _ => None);
    match a {
      case Conv(w) =>
        var base := r * w.stride - pad;
        var first, last := TapRange(base, extent, w.taps, w.dilation);
        for k := first to last
          invariant |t| == w.taps
          invariant forall l :: 0 <= l < w.taps ==> t[l] == if first <= l < k then LocalTap(a, pad, extent, r, l) else None
        {
          t := t[k := Some(base + k * w.dilation)];
        }
      case Transposed(s, _, taps) =>
        var k := taps;
        while k > 0
          invariant 0 <= k <= taps == |t|
          invariant forall l :: 0 <= l < taps ==> t[l] == if l < k then None else LocalTap(a, pad, extent, r, l)
        {
          k := k - 1;
          var num := r + pad - k;
          // Zero or not, the remainder is the same whichever way `%` rounds, and the quotient of a multiple is exact.
          if num % s != 0 { continue; }
          var i := num / s;
          if i < 0 || i >= extent { continue; }
          t := t[k := Some(i)];
        }
    }
  }

  /** One tile: its rectangle, its pads, the kernel over its outputs, each written at its place. */
  method RunTile(x: Grid, ah: Axis, aw: Axis, f: seq<seq<Option<Cell>>> -> Cell, oh: nat, ow: nat, rows: Band, cols: Band,
                 out: array2<Cell>) returns (ok: bool)
    requires |x| >= 1 && IsGrid(x, |x|, |x[0]|) && Fits(ah, |x|, oh) && Fits(aw, |x[0]|, ow)
    requires rows.Inside(oh) && cols.Inside(ow) && out.Length0 == oh && out.Length1 == ow
    modifies out
    ensures ok
    ensures forall i, j :: 0 <= i < oh && 0 <= j < ow ==>
      out[i, j] == if rows.lo <= i < rows.hi && cols.lo <= j < cols.hi then f(Gather(x, ah, aw, i, j)) else old(out[i, j])
  {
    hide Fits, TileIn, TilePad, Gather, TileTaps, Cells;
    FitsValid(ah, |x|, oh);
    FitsValid(aw, |x[0]|, ow);
    TileInInside(ah, |x|, oh, rows.lo, rows.hi);
    TileInInside(aw, |x[0]|, ow, cols.lo, cols.hi);
    var ih0, ih1, padH := TileAxis(ah, |x|, rows.lo, rows.hi);
    var iw0, iw1, padW := TileAxis(aw, |x[0]|, cols.lo, cols.hi);
    if ih1 <= ih0 || iw1 <= iw0 { return false; }
    var tile := Rectangle(x, Band(ih0, ih1), Band(iw0, iw1));
    for r := 0 to rows.Rows()
      invariant forall i, j :: 0 <= i < oh && 0 <= j < ow ==>
        out[i, j] == if rows.lo <= i < rows.lo + r && cols.lo <= j < cols.hi then f(Gather(x, ah, aw, i, j)) else old(out[i, j])
    {
      var tapsH := AxisTaps(ah, padH, ih1 - ih0, r);
      for c := 0 to cols.Rows()
        invariant forall i, j :: 0 <= i < oh && 0 <= j < ow ==>
          out[i, j] == if (rows.lo <= i < rows.lo + r && cols.lo <= j < cols.hi) || (i == rows.lo + r && cols.lo <= j < cols.lo + c)
                       then f(Gather(x, ah, aw, i, j)) else old(out[i, j])
      {
        var tapsW := AxisTaps(aw, padW, iw1 - iw0, c);
        TileGatherIsGlobal(x, ah, aw, oh, ow, rows, cols, r, c);
        out[rows.lo + r, cols.lo + c] := f(Cells(tile, tapsH, tapsW));
      }
    }
    return true;
  }

  lemma FitsValid(a: Axis, extent: int, outputs: int)
    requires Fits(a, extent, outputs)
    ensures a.Valid() && extent >= 1 && outputs >= 1
  {}

  /**
   * The tile grid over the whole output: every cell is what the whole operator
   * gives, whatever the tile's size, and no tile is refused.
   */
  method ExecStageTiled2d(x: Grid, ah: Axis, aw: Axis, f: seq<seq<Option<Cell>>> -> Cell, th: int, tw: int, out: array2<Cell>)
    returns (ok: bool)
    requires |x| >= 1 && IsGrid(x, |x|, |x[0]|) && Fits(ah, |x|, out.Length0) && Fits(aw, |x[0]|, out.Length1)
    requires th >= 1 && tw >= 1
    modifies out
    ensures ok
    ensures forall i, j :: 0 <= i < out.Length0 && 0 <= j < out.Length1 ==> out[i, j] == f(Gather(x, ah, aw, i, j))
  {
    hide Fits, Gather;
    var oh, ow := out.Length0, out.Length1;
    FitsValid(ah, |x|, oh);
    FitsValid(aw, |x[0]|, ow);
    var tilesH, tilesW := 1 + (oh - 1) / th, 1 + (ow - 1) / tw;
    for tr := 0 to tilesH
      invariant forall i, j :: 0 <= i < oh && 0 <= j < ow && i / th < tr ==> out[i, j] == f(Gather(x, ah, aw, i, j))
    {
      TileOutInside(th, oh, tr);
      var rows := TileOut(th, oh, tr);
      for tc := 0 to tilesW
        invariant forall i, j :: 0 <= i < oh && 0 <= j < ow && (i / th < tr || (i / th == tr && j / tw < tc)) ==>
          out[i, j] == f(Gather(x, ah, aw, i, j))
      {
        TileOutInside(tw, ow, tc);
        var cols := TileOut(tw, ow, tc);
        forall i | 0 <= i < oh ensures rows.lo <= i < rows.hi <==> tr == i / th { OneTile(th, oh, i, tr); }
        forall j | 0 <= j < ow ensures cols.lo <= j < cols.hi <==> tc == j / tw { OneTile(tw, ow, j, tc); }
        ok := RunTile(x, ah, aw, f, oh, ow, rows, cols, out);
      }
      forall j | 0 <= j < ow ensures j / tw < tilesW { OneTile(tw, ow, j, 0); }
    }
    forall i | 0 <= i < oh ensures i / th < tilesH { OneTile(th, oh, i, 0); }
    return true;
  }
}
