/**
 * When a chain's operands are read at their rows: exactly, tile by tile and
 * for all tiles of all heights by the windows between producer and reader.
 */
module ChainLimits {
  import opened Rows
  import opened BandPlan
  import opened BandRanges
  import opened ChainBudget
  import opened ChainBytes
  import opened ChainTiles
  import opened ChainWindows

  // One operand.

  /**
   * A buffer of a batch of images holds the rows `held` of each. The rows the
   * kernel starts an operand past its buffer's first, for the band b: none but
   * for one image of more than one row of a two-operand elementwise operator.
   */
  function Shift(pair: bool, batches: nat, height: nat, held: Band, b: Band): int {
    if pair && batches == 1 && height > 1 && held.lo < held.hi then b.lo - held.lo else 0
  }

  /** The buffer row the kernel reads for row r of image n: densely, image after image of the band's rows. */
  function RowRead(shift: int, n: int, r: int, b: Band): int { shift + n * b.Rows() + (r - b.lo) }

  /** The buffer row that holds row r of image n. */
  function RowOfImage(n: int, r: int, held: Band): int { n * held.Rows() + (r - held.lo) }

  /** The kernel reads row r of image n where the buffer holds it. */
  predicate ReadsItsRow(shift: int, n: int, r: int, held: Band, b: Band) {
    held.lo <= r < held.hi && RowRead(shift, n, r, b) == RowOfImage(n, r, held)
  }

  ghost predicate ReadsItsRows(pair: bool, batches: nat, height: nat, held: Band, b: Band) {
    forall n, r :: 0 <= n < batches && b.lo <= r < b.hi ==>
      ReadsItsRow(Shift(pair, batches, height, held, b), n, r, held, b)
  }

  /**
   * An operand is read at its rows exactly when it is shifted and covers the
   * band, or is not shifted, starts on the band, ends no earlier and, for
   * several images, is the band.
   */
  lemma OperandReadExactly(pair: bool, batches: nat, height: nat, held: Band, b: Band)
    requires batches >= 1 && b.lo < b.hi && held.lo < held.hi
    ensures ReadsItsRows(pair, batches, height, held, b) <==>
      if pair && batches == 1 && height > 1 then held.Covers(b) else Aligned(held, b, batches)
  {
    var s := Shift(pair, batches, height, held, b);
    if ReadsItsRows(pair, batches, height, held, b) {
      assert ReadsItsRow(s, 0, b.lo, held, b) && ReadsItsRow(s, 0, b.hi - 1, held, b);
      if batches > 1 { assert ReadsItsRow(s, 1, b.lo, held, b); }
    }
    if batches == 1 && held.Covers(b) && (s == b.lo - held.lo) {
      assert forall r :: b.lo <= r < b.hi ==> ReadsItsRow(s, 0, r, held, b);
    }
    if held == b && s == 0 {
      assert forall n, r :: b.lo <= r < b.hi ==> ReadsItsRow(s, n, r, held, b);
    }
  }

  // Every operand of a tile.

  /** Operator j reads operand i at its rows, in the tile that ends in `last`. */
  ghost predicate OperandRight(ch: ChainPlan, j: nat, i: nat, last: Band)
    requires ch.Shaped() && j < |ch.p.ops| && i < |ch.p.ops[j].ins|
  {
    assert OpInRange(ch.p, ch.p.ops[j]);
    var t := ch.p.ops[j].ins[i];
    ReadsItsRows(IsPair(ch.p.ops[j]), ch.p.batches[t], ch.p.heights[t], HeldAt(ch, t, j, last), BandAt(ch.p, j, last))
  }

  /**
   * What a run of a chain requires of a tile is exact: it holds if and only if
   * every operand is read at its rows, but for one the tile is refused for.
   */
  lemma TileReadsExactly(ch: ChainPlan, last: Band)
    requires WellFormed(ch) && last.Inside(LastH(ch)) && forall t :: 0 <= t < |ch.p.batches| ==> ch.p.batches[t] >= 1
    ensures ReadsTile(ch, last) <==> forall j, i :: 0 <= j < |ch.p.ops| && 0 <= i < |ch.p.ops[j].ins| ==>
      OperandRight(ch, j, i, last) || Missed(ch, j, i, last)
  {
    forall j, i | 0 <= j < |ch.p.ops| && 0 <= i < |ch.p.ops[j].ins|
      ensures OpInRange(ch.p, ch.p.ops[j])
      ensures OperandRight(ch, j, i, last) || Missed(ch, j, i, last) <==> ReadsOperand(ch, j, i, last)
    {
      OperandRightIff(ch, j, i, last);
    }
    hide WellFormed, OperandRight, Missed, ReadsOperand;
    if ReadsTile(ch, last) {
      forall j, i | 0 <= j < |ch.p.ops| && 0 <= i < |ch.p.ops[j].ins| ensures ReadsOperand(ch, j, i, last) {
        assert ReadsOp(ch, j, last);
      }
    } else {
      var j :| 0 <= j < |ch.p.ops| && !ReadsOp(ch, j, last);
      var i :| 0 <= i < |ch.p.ops[j].ins| && !ReadsOperand(ch, j, i, last);
    }
  }

  lemma OperandRightIff(ch: ChainPlan, j: nat, i: nat, last: Band)
    requires ch.Shaped() && |ch.outs| >= 1 && Fits(ch.p, LastH(ch)) && last.Inside(LastH(ch))
    requires j < |ch.p.ops| && i < |ch.p.ops[j].ins| && forall t :: 0 <= t < |ch.p.batches| ==> ch.p.batches[t] >= 1
    ensures OperandRight(ch, j, i, last) || Missed(ch, j, i, last) <==> ReadsOperand(ch, j, i, last)
  {
    assert OpInRange(ch.p, ch.p.ops[j]);
    var t := ch.p.ops[j].ins[i];
    BandInside(ch.p, j, LastH(ch), last);
    BandInside(ch.p, Origin(ch, t, j), LastH(ch), last);
    OperandReadExactly(IsPair(ch.p.ops[j]), ch.p.batches[t], ch.p.heights[t], HeldAt(ch, t, j, last), BandAt(ch.p, j, last));
  }

  // By the windows between producer and reader.

  /** The windows between where t was produced and operator j. */
  function Between(ch: ChainPlan, t: Tensor, j: nat): Field
    requires ch.Shaped() && j <= |ch.p.ops|
  {
    Compose(ch.p, Origin(ch, t, j), j)
  }

  /** Where the rows held of t end when the chain runs as one tile. */
  function HeldEnd(ch: ChainPlan, t: Tensor, j: nat): int
    requires ch.Shaped() && |ch.outs| >= 1 && j <= |ch.p.ops|
  {
    HeldAt(ch, t, j, Band(0, LastH(ch))).hi
  }

  /** The composed windows f leave a start at row x where it is. */
  predicate StartKept(f: Field, x: int) { x == 0 || x * (f.stride - 1) == f.pad }

  /** They leave an end at row x where it is, when the whole tensor ends at `end`. */
  predicate EndKept(f: Field, x: int, end: int) { x == end || (x - 1) * (f.stride - 1) == f.pad + 1 - f.span }

  /**
   * An operand lies on the band of a tile exactly when the composed windows
   * since it was produced neither move the band's start, unless that is the
   * top, nor fall short of its end, nor, for several images, move its end.
   */
  lemma AlignedByWindows(ch: ChainPlan, t: Tensor, j: nat, last: Band, batches: nat)
    requires ch.Shaped() && |ch.outs| >= 1 && Fits(ch.p, LastH(ch)) && last.Inside(LastH(ch)) && j <= |ch.p.ops|
    ensures var f := Between(ch, t, j);
      var b := BandAt(ch.p, j, last);
      Aligned(HeldAt(ch, t, j, last), b, batches) <==>
        && StartKept(f, b.lo) && b.hi <= HeldEnd(ch, t, j)
        && (batches == 1 || EndKept(f, b.hi, HeldEnd(ch, t, j)))
  {
    hide Fits, StartKept, EndKept;
    var k := Origin(ch, t, j);
    var f := Compose(ch.p, k, j);
    BandInside(ch.p, j, LastH(ch), last);
    RunStart(ch.p, k, j, last);
    RunEnd(ch.p, k, j, LastH(ch), last);
    PadBelowSpan(ch.p, k, j);
    AlignedArith(BandAt(ch.p, j, last), BandAt(ch.p, k, last), HeldEnd(ch, t, j), f);
  }

  lemma AlignedArith(b: Band, held: Band, end: int, f: Field)
    requires f.stride >= 1 && 0 <= f.pad < f.span && 0 <= b.lo < b.hi
    requires held.lo == Max(0, b.lo * f.stride - f.pad) && held.hi == Min((b.hi - 1) * f.stride - f.pad + f.span, end)
    ensures held.lo == b.lo <==> StartKept(f, b.lo)
    ensures b.hi <= held.hi <==> b.hi <= end
    ensures held.hi == b.hi <==> b.hi <= end && EndKept(f, b.hi, end)
  {
    assert b.lo * (f.stride - 1) == b.lo * f.stride - b.lo;
    assert (b.hi - 1) * (f.stride - 1) == (b.hi - 1) * f.stride - (b.hi - 1);
    MulNonNegative(b.hi - 1, f.stride - 1);
  }

  // In every tile of every height.

  ghost predicate AlwaysAligned(ch: ChainPlan, t: Tensor, j: nat, batches: nat)
    requires ch.Shaped() && |ch.outs| >= 1 && j <= |ch.p.ops|
  {
    forall h: nat, tile: nat :: h >= 1 && IsTile(ch, h, tile) ==> AlignedIn(ch, t, j, TileBand(ch, h, tile), batches)
  }

  ghost predicate AlignedIn(ch: ChainPlan, t: Tensor, j: nat, last: Band, batches: nat)
    requires ch.Shaped() && j <= |ch.p.ops|
  {
    Aligned(HeldAt(ch, t, j, last), BandAt(ch.p, j, last), batches)
  }

  /** The windows behind operator j. */
  function Behind(ch: ChainPlan, j: nat): Field
    requires ch.Shaped() && j <= |ch.p.ops|
  {
    Compose(ch.p, j, |ch.p.ops|)
  }

  /** The furthest down a band starts ahead of operator j. */
  function LastStart(ch: ChainPlan, j: nat): int
    requires ch.Shaped() && |ch.outs| >= 1 && j <= |ch.p.ops|
  {
    (LastH(ch) - 1) * Behind(ch, j).stride - Behind(ch, j).pad
  }

  /**
   * Windows f leave every start up to row m, in steps of g, where it is:
   * unpadded and of stride 1, or every band starts at the top, or only one
   * does not and it starts where stride and padding agree.
   */
  predicate StartsKept(f: Field, m: int, g: int) {
    m <= 0 || (f.stride == 1 && f.pad == 0) || (m <= g && m * (f.stride - 1) == f.pad)
  }

  /**
   * Windows f leave every end from x1 to `end` where it is: there is one end,
   * or they reach no further down and have stride 1, or skip the one row x1.
   */
  predicate EndsKept(f: Field, x1: int, x2: int, end: int) {
    x1 == end || (f.span == f.pad + 1 && (f.stride == 1 || (x1 == 1 && x2 == end)))
  }

  /** Where a band ahead of operator j ends for the chain's first h rows. */
  function EndOf(ch: ChainPlan, j: nat, h: nat): int
    requires ch.Shaped() && |ch.outs| >= 1 && j <= |ch.p.ops|
  {
    Min((h - 1) * Behind(ch, j).stride - Behind(ch, j).pad + Behind(ch, j).span, BandAt(ch.p, j, Band(0, LastH(ch))).hi)
  }

  /**
   * The windows since t was produced keep the starts and, for several images,
   * the ends of the bands the windows behind operator j ask for.
   */
  predicate WindowsKeep(ch: ChainPlan, t: Tensor, j: nat, batches: nat)
    requires ch.Shaped() && |ch.outs| >= 1 && j <= |ch.p.ops|
  {
    var f := Between(ch, t, j);
    var end := BandAt(ch.p, j, Band(0, LastH(ch))).hi;
    && StartsKept(f, LastStart(ch, j), Behind(ch, j).stride)
    && end <= HeldEnd(ch, t, j)
    && (batches == 1 || (end == HeldEnd(ch, t, j) && EndsKept(f, EndOf(ch, j, 1), EndOf(ch, j, 2), end)))
  }

  /**
   * A tensor lies on the band operator j finds in every tile of every height
   * exactly when the windows since it was produced keep the band.
   */
  lemma AlwaysAlignedExactly(ch: ChainPlan, t: Tensor, j: nat, batches: nat)
    requires ch.Shaped() && |ch.outs| >= 1 && Fits(ch.p, LastH(ch)) && j <= |ch.p.ops|
    ensures AlwaysAligned(ch, t, j, batches) <==> WindowsKeep(ch, t, j, batches)
  {
    hide Fits, Aligned, AlignedIn, StartKept, EndKept, StartsKept, EndsKept, Between, Behind, LastStart, EndOf, HeldEnd, BandAt;
    if AlwaysAligned(ch, t, j, batches) {
      AlignedInTile(ch, t, j, LastH(ch), 0, batches);
      AlwaysKeepsStarts(ch, t, j, batches);
      if batches != 1 { AlwaysKeepsEnds(ch, t, j, batches); }
    }
    if WindowsKeep(ch, t, j, batches) {
      forall h: nat, tile: nat | h >= 1 && IsTile(ch, h, tile) ensures AlignedIn(ch, t, j, TileBand(ch, h, tile), batches) {
        TilesAdvance(ch, h, tile);
        KeptIn(ch, t, j, TileBand(ch, h, tile), batches);
      }
    }
  }

  /** Operand i of operator j is shifted to the band, or nothing since it was produced moved it. */
  predicate OperandKept(ch: ChainPlan, j: nat, i: nat)
    requires ch.Shaped() && |ch.outs| >= 1 && j < |ch.p.ops| && i < |ch.p.ops[j].ins|
  {
    assert OpInRange(ch.p, ch.p.ops[j]);
    var t := ch.p.ops[j].ins[i];
    Shiftable(ch, j, t) || WindowsKeep(ch, t, j, ch.p.batches[t])
  }

  /** A chain is read right at every tile height if and only if the windows of its plan keep every operand's band. */
  lemma ReadsAtEveryHeight(ch: ChainPlan)
    requires WellFormed(ch)
    ensures (forall h: nat :: h >= 1 ==> TilesRead(ch, h)) <==>
      forall j, i :: 0 <= j < |ch.p.ops| && 0 <= i < |ch.p.ops[j].ins| ==> OperandKept(ch, j, i)
  {
    forall j, i | 0 <= j < |ch.p.ops| && 0 <= i < |ch.p.ops[j].ins|
      ensures OperandKept(ch, j, i) <==>
        forall h: nat, tile: nat :: h >= 1 && IsTile(ch, h, tile) ==> ReadsOperand(ch, j, i, TileBand(ch, h, tile))
    {
      KeptIsRead(ch, j, i);
    }
    hide WellFormed, OperandKept, ReadsOperand;
    if forall h: nat :: h >= 1 ==> TilesRead(ch, h) {
      forall j, i | 0 <= j < |ch.p.ops| && 0 <= i < |ch.p.ops[j].ins| ensures OperandKept(ch, j, i) {
        forall h: nat, tile: nat | h >= 1 && IsTile(ch, h, tile) ensures ReadsOperand(ch, j, i, TileBand(ch, h, tile)) {
          assert TilesRead(ch, h) && ReadsTile(ch, TileBand(ch, h, tile)) && ReadsOp(ch, j, TileBand(ch, h, tile));
        }
      }
    } else {
      var h: nat :| h >= 1 && !TilesRead(ch, h);
      var tile :| IsTile(ch, h, tile) && !ReadsTile(ch, TileBand(ch, h, tile));
      var j :| 0 <= j < |ch.p.ops| && !ReadsOp(ch, j, TileBand(ch, h, tile));
      var i :| 0 <= i < |ch.p.ops[j].ins| && !ReadsOperand(ch, j, i, TileBand(ch, h, tile));
      assert !OperandKept(ch, j, i);
    }
  }

  lemma KeptIsRead(ch: ChainPlan, j: nat, i: nat)
    requires WellFormed(ch) && j < |ch.p.ops| && i < |ch.p.ops[j].ins|
    ensures OperandKept(ch, j, i) <==>
      forall h: nat, tile: nat :: h >= 1 && IsTile(ch, h, tile) ==> ReadsOperand(ch, j, i, TileBand(ch, h, tile))
  {
    assert OpInRange(ch.p, ch.p.ops[j]);
    AlwaysAlignedExactly(ch, ch.p.ops[j].ins[i], j, ch.p.batches[ch.p.ops[j].ins[i]]);
    hide WellFormed, Aligned, WindowsKeep, Fits, HeldAt;
    if !OperandKept(ch, j, i) {
      var t := ch.p.ops[j].ins[i];
      var h: nat, tile: nat :| h >= 1 && IsTile(ch, h, tile) && !AlignedIn(ch, t, j, TileBand(ch, h, tile), ch.p.batches[t]);
      assert !ReadsOperand(ch, j, i, TileBand(ch, h, tile));
    }
  }

  lemma KeptIn(ch: ChainPlan, t: Tensor, j: nat, last: Band, batches: nat)
    requires ch.Shaped() && |ch.outs| >= 1 && Fits(ch.p, LastH(ch)) && j <= |ch.p.ops| && last.Inside(LastH(ch))
    requires WindowsKeep(ch, t, j, batches)
    ensures AlignedIn(ch, t, j, last, batches)
  {
    hide Fits, Aligned, StartKept, EndKept, StartsKept, EndsKept, Between, Behind, LastStart, EndOf, HeldEnd, BandAt;
    AlignedByWindows(ch, t, j, last, batches);
    EndsByWhole(ch.p, j, LastH(ch), last);
    KeptStart(ch, t, j, last);
    if batches != 1 { KeptEnd(ch, t, j, last); }
  }

  lemma AlignedInTile(ch: ChainPlan, t: Tensor, j: nat, h: nat, tile: nat, batches: nat)
    requires ch.Shaped() && |ch.outs| >= 1 && Fits(ch.p, LastH(ch)) && j <= |ch.p.ops|
    requires h >= 1 && tile * h < LastH(ch) && AlwaysAligned(ch, t, j, batches)
    ensures var b := BandAt(ch.p, j, Band(tile * h, Min(tile * h + h, LastH(ch))));
      && StartKept(Between(ch, t, j), b.lo) && b.hi <= HeldEnd(ch, t, j)
      && (batches == 1 || EndKept(Between(ch, t, j), b.hi, HeldEnd(ch, t, j)))
  {
    hide Fits, Aligned;
    assert IsTile(ch, h, tile);
    TilesAdvance(ch, h, tile);
    assert AlignedIn(ch, t, j, TileBand(ch, h, tile), batches);
    AlignedByWindows(ch, t, j, TileBand(ch, h, tile), batches);
  }

  /** Where a band ahead of operator j starts and ends, by the windows behind it. */
  lemma BandBehind(ch: ChainPlan, j: nat, last: Band)
    requires ch.Shaped() && |ch.outs| >= 1 && Fits(ch.p, LastH(ch)) && j <= |ch.p.ops| && last.Inside(LastH(ch))
    ensures var g := Behind(ch, j);
      && g.stride >= 1 && 0 <= g.pad < g.span
      && BandAt(ch.p, j, last).lo == Max(0, last.lo * g.stride - g.pad)
      && BandAt(ch.p, j, last).hi == EndOf(ch, j, last.hi) >= 1
  {
    assert BandAt(ch.p, |ch.p.ops|, last) == last;
    RunStart(ch.p, j, |ch.p.ops|, last);
    RunEnd(ch.p, j, |ch.p.ops|, LastH(ch), last);
    PadBelowSpan(ch.p, j, |ch.p.ops|);
    BandInside(ch.p, j, LastH(ch), last);
  }

  lemma AlwaysKeepsStarts(ch: ChainPlan, t: Tensor, j: nat, batches: nat)
    requires ch.Shaped() && |ch.outs| >= 1 && Fits(ch.p, LastH(ch)) && j <= |ch.p.ops|
    requires AlwaysAligned(ch, t, j, batches)
    ensures StartsKept(Between(ch, t, j), LastStart(ch, j), Behind(ch, j).stride)
  {
    hide Fits, AlwaysAligned, Behind, BandAt;
    PadBelowSpan(ch.p, Origin(ch, t, j), j);
    var g := Behind(ch, j);
    BandBehind(ch, j, Band(LastH(ch) - 1, LastH(ch)));
    AlignedInTile(ch, t, j, 1, LastH(ch) - 1, batches);
    if LastH(ch) >= 2 {
      MulSub(LastH(ch) - 1, 1, g.stride);
      BandBehind(ch, j, Band(LastH(ch) - 2, LastH(ch) - 1));
      AlignedInTile(ch, t, j, 1, LastH(ch) - 2, batches);
    }
    StartsFromTwo(Between(ch, t, j), LastStart(ch, j), g.stride);
  }

  lemma StartsFromTwo(f: Field, m: int, g: int)
    requires f.stride >= 1 && f.pad >= 0 && g >= 1
    requires StartKept(f, Max(0, m)) && (m > g ==> StartKept(f, m - g))
    ensures StartsKept(f, m, g)
  {
    MulSub(m, g, f.stride - 1);
    if m > g && f.stride > 1 { MulOrder(1, g, f.stride - 1); }
  }

  lemma KeptStart(ch: ChainPlan, t: Tensor, j: nat, last: Band)
    requires ch.Shaped() && |ch.outs| >= 1 && Fits(ch.p, LastH(ch)) && j <= |ch.p.ops| && last.Inside(LastH(ch))
    requires StartsKept(Between(ch, t, j), LastStart(ch, j), Behind(ch, j).stride)
    ensures StartKept(Between(ch, t, j), BandAt(ch.p, j, last).lo)
  {
    hide Fits, Behind, BandAt, Between;
    var g := Behind(ch, j);
    BandBehind(ch, j, last);
    MulOrder(last.lo, LastH(ch) - 2, g.stride);
    MulSub(LastH(ch) - 1, 1, g.stride);
  }

  lemma AlwaysKeepsEnds(ch: ChainPlan, t: Tensor, j: nat, batches: nat)
    requires ch.Shaped() && |ch.outs| >= 1 && Fits(ch.p, LastH(ch)) && j <= |ch.p.ops|
    requires AlwaysAligned(ch, t, j, batches) && batches != 1
    ensures BandAt(ch.p, j, Band(0, LastH(ch))).hi == HeldEnd(ch, t, j)
    ensures EndsKept(Between(ch, t, j), EndOf(ch, j, 1), EndOf(ch, j, 2), HeldEnd(ch, t, j))
  {
    WholeEnd(ch, t, j, batches);
    hide Fits, AlwaysAligned, Behind, BandAt, Between, HeldEnd, EndKept, EndsKept, EndOf;
    PadBelowSpan(ch.p, Origin(ch, t, j), j);
    assert Between(ch, t, j) == Compose(ch.p, Origin(ch, t, j), j);
    BandBehind(ch, j, Band(0, 1));
    AlignedInTile(ch, t, j, 1, 0, batches);
    EndsBehind(ch, j);
    if LastH(ch) >= 2 {
      BandBehind(ch, j, Band(0, 2));
      AlignedInTile(ch, t, j, 2, 0, batches);
    }
    EndsFromTwo(Between(ch, t, j), EndOf(ch, j, 1), EndOf(ch, j, 2), HeldEnd(ch, t, j), LastH(ch));
  }

  lemma WholeEnd(ch: ChainPlan, t: Tensor, j: nat, batches: nat)
    requires ch.Shaped() && |ch.outs| >= 1 && Fits(ch.p, LastH(ch)) && j <= |ch.p.ops|
    requires AlwaysAligned(ch, t, j, batches) && batches != 1
    ensures BandAt(ch.p, j, Band(0, LastH(ch))).hi == HeldEnd(ch, t, j)
    ensures 0 <= Between(ch, t, j).pad < Between(ch, t, j).span && Between(ch, t, j).stride >= 1
  {
    hide Fits, BandAt, Compose;
    PadBelowSpan(ch.p, Origin(ch, t, j), j);
    assert IsTile(ch, LastH(ch), 0) && TileBand(ch, LastH(ch), 0) == Band(0, LastH(ch));
    assert AlignedIn(ch, t, j, TileBand(ch, LastH(ch), 0), batches);
  }

  /** The ends of the first bands ahead of operator j. */
  lemma EndsBehind(ch: ChainPlan, j: nat)
    requires ch.Shaped() && |ch.outs| >= 1 && Fits(ch.p, LastH(ch)) && j <= |ch.p.ops|
    ensures var end := BandAt(ch.p, j, Band(0, LastH(ch))).hi;
      && end == EndOf(ch, j, LastH(ch)) && EndOf(ch, j, 1) >= 1
      && (EndOf(ch, j, 2) >= 2 || EndOf(ch, j, 2) == end)
      && forall h: nat, g: nat :: h <= g ==> EndOf(ch, j, h) <= EndOf(ch, j, g) <= end
  {
    hide Fits, BandAt, Compose;
    BandBehind(ch, j, Band(0, LastH(ch)));
    BandBehind(ch, j, Band(0, 1));
    forall h: nat, g: nat | h <= g ensures EndOf(ch, j, h) <= EndOf(ch, j, g) {
      MulOrder(h - 1, g - 1, Behind(ch, j).stride);
    }
  }

  lemma EndsFromTwo(f: Field, x1: int, x2: int, end: int, lastH: nat)
    requires f.stride >= 1 && 0 <= f.pad < f.span && x1 >= 1 && (x2 >= 2 || x2 == end) && x2 <= end && x1 <= x2
    requires EndKept(f, x1, end) && (lastH >= 2 ==> EndKept(f, x2, end)) && (lastH <= 1 ==> x1 == end)
    ensures EndsKept(f, x1, x2, end)
  {
    MulNonNegative(x1 - 1, f.stride - 1);
    MulNonNegative(x2 - 1, f.stride - 1);
    if x1 > 1 { MulOrder(1, x1 - 1, f.stride - 1); }
    if x2 > 1 { MulOrder(1, x2 - 1, f.stride - 1); }
  }

  lemma KeptEnd(ch: ChainPlan, t: Tensor, j: nat, last: Band)
    requires ch.Shaped() && |ch.outs| >= 1 && Fits(ch.p, LastH(ch)) && j <= |ch.p.ops| && last.Inside(LastH(ch))
    requires BandAt(ch.p, j, Band(0, LastH(ch))).hi == HeldEnd(ch, t, j)
    requires EndsKept(Between(ch, t, j), EndOf(ch, j, 1), EndOf(ch, j, 2), HeldEnd(ch, t, j))
    ensures EndKept(Between(ch, t, j), BandAt(ch.p, j, last).hi, HeldEnd(ch, t, j))
  {
    hide Fits, BandAt, Between, Behind, HeldEnd, EndOf;
    BandBehind(ch, j, last);
    EndsBehind(ch, j);
  }

  // Which tiles are refused.

  /** The rows held of an operand miss rows of the band exactly when its start comes too late or its end too early. */
  lemma CoversByWindows(ch: ChainPlan, t: Tensor, j: nat, last: Band)
    requires ch.Shaped() && |ch.outs| >= 1 && Fits(ch.p, LastH(ch)) && last.Inside(LastH(ch)) && j <= |ch.p.ops|
    ensures var f := Between(ch, t, j);
      var b := BandAt(ch.p, j, last);
      HeldAt(ch, t, j, last).Covers(b) <==> b.lo * (f.stride - 1) <= f.pad && b.hi <= HeldEnd(ch, t, j)
  {
    hide Fits;
    var k := Origin(ch, t, j);
    BandInside(ch.p, j, LastH(ch), last);
    RunStart(ch.p, k, j, last);
    RunEnd(ch.p, k, j, LastH(ch), last);
    PadBelowSpan(ch.p, k, j);
    CoversArith(BandAt(ch.p, j, last), BandAt(ch.p, k, last), HeldEnd(ch, t, j), Compose(ch.p, k, j));
  }

  lemma CoversArith(b: Band, held: Band, end: int, f: Field)
    requires f.stride >= 1 && 0 <= f.pad < f.span && 0 <= b.lo < b.hi
    requires held.lo == Max(0, b.lo * f.stride - f.pad) && held.hi == Min((b.hi - 1) * f.stride - f.pad + f.span, end)
    ensures held.Covers(b) <==> b.lo * (f.stride - 1) <= f.pad && b.hi <= end
  {
    assert b.lo * (f.stride - 1) == b.lo * f.stride - b.lo;
    assert (b.hi - 1) * (f.stride - 1) == (b.hi - 1) * f.stride - (b.hi - 1);
    MulNonNegative(b.hi - 1, f.stride - 1);
  }

  /** No tile of any height misses rows of t as operator j finds it. */
  ghost predicate NeverShort(ch: ChainPlan, t: Tensor, j: nat)
    requires ch.Shaped() && |ch.outs| >= 1 && j <= |ch.p.ops|
  {
    forall h: nat, tile: nat :: h >= 1 && IsTile(ch, h, tile) ==>
      HeldAt(ch, t, j, TileBand(ch, h, tile)).Covers(BandAt(ch.p, j, TileBand(ch, h, tile)))
  }

  /**
   * A shifted operand covers the band in every tile of every height exactly
   * when its rows do not end early as a whole and the band that starts furthest
   * down is not out of reach of the padding: in particular when every stride in
   * between is 1.
   */
  lemma NeverShortExactly(ch: ChainPlan, t: Tensor, j: nat)
    requires ch.Shaped() && |ch.outs| >= 1 && Fits(ch.p, LastH(ch)) && j <= |ch.p.ops|
    ensures NeverShort(ch, t, j) <==>
      && Max(0, LastStart(ch, j)) * (Between(ch, t, j).stride - 1) <= Between(ch, t, j).pad
      && BandAt(ch.p, j, Band(0, LastH(ch))).hi <= HeldEnd(ch, t, j)
  {
    hide Fits, HeldAt, HeldEnd, Between, Behind, BandAt;
    if NeverShort(ch, t, j) {
      CoveredIn(ch, t, j, 1, LastH(ch) - 1);
      BandBehind(ch, j, Band(LastH(ch) - 1, LastH(ch)));
      CoveredIn(ch, t, j, LastH(ch), 0);
    } else {
      var h: nat, tile: nat :| h >= 1 && IsTile(ch, h, tile)
        && !HeldAt(ch, t, j, TileBand(ch, h, tile)).Covers(BandAt(ch.p, j, TileBand(ch, h, tile)));
      var last := TileBand(ch, h, tile);
      TilesAdvance(ch, h, tile);
      CoversByWindows(ch, t, j, last);
      EndsByWhole(ch.p, j, LastH(ch), last);
      BandBehind(ch, j, last);
      BetweenPositive(ch, t, j);
      MulOrder(last.lo, LastH(ch) - 1, Behind(ch, j).stride);
      MulOrder(BandAt(ch.p, j, last).lo, Max(0, LastStart(ch, j)), Between(ch, t, j).stride - 1);
    }
  }

  lemma BetweenPositive(ch: ChainPlan, t: Tensor, j: nat)
    requires ch.Shaped() && j <= |ch.p.ops|
    ensures Between(ch, t, j).stride >= 1
  {
    ComposePositive(ch.p, Origin(ch, t, j), j);
  }

  lemma CoveredIn(ch: ChainPlan, t: Tensor, j: nat, h: nat, tile: nat)
    requires ch.Shaped() && |ch.outs| >= 1 && Fits(ch.p, LastH(ch)) && j <= |ch.p.ops|
    requires h >= 1 && tile * h < LastH(ch) && NeverShort(ch, t, j)
    ensures var b := BandAt(ch.p, j, Band(tile * h, Min(tile * h + h, LastH(ch))));
      b.lo * (Between(ch, t, j).stride - 1) <= Between(ch, t, j).pad && b.hi <= HeldEnd(ch, t, j)
  {
    hide Fits, HeldAt, BandAt, HeldEnd, Between;
    assert IsTile(ch, h, tile);
    TilesAdvance(ch, h, tile);
    CoversByWindows(ch, t, j, TileBand(ch, h, tile));
  }

  /** The tiles leave every output whole exactly when its windows to the end adjoin and it does not end early. */
  lemma GaplessExactly(ch: ChainPlan, h: nat)
    requires WellFormed(ch) && h >= 1
    ensures Gapless(ch, h) <==> forall i :: 0 <= i < |ch.outs| ==>
      Adjoins(ch, h, i) && OutputBand(ch, i, Band(0, LastH(ch))).hi == ch.p.heights[ch.outs[i]]
  {
    hide Adjoins, OutputBand, GapAt;
    forall i | 0 <= i < |ch.outs|
      ensures OutputWhole(ch, h, i) <==>
        Adjoins(ch, h, i) && OutputBand(ch, i, Band(0, LastH(ch))).hi == ch.p.heights[ch.outs[i]]
    {
      AdjoinsExactly(ch, h, i);
    }
    hide OutputWhole;
  }

  lemma AdjoinsExactly(ch: ChainPlan, h: nat, i: nat)
    requires WellFormed(ch) && ch.Shaped() && h >= 1 && i < |ch.outs|
    ensures Adjoins(ch, h, i) <==> forall tile :: IsTile(ch, h, tile) ==> !GapAt(ch, h, i, tile)
  {
    hide WellFormed;
    if h >= LastH(ch) {
      forall tile | IsTile(ch, h, tile) ensures tile == 0 { MulOrder(1, tile, h); }
    } else {
      forall tile | IsTile(ch, h, tile) && tile > 0 ensures GapAt(ch, h, i, tile) <==> !Adjoins(ch, h, i) {
        GapIff(ch, h, i, tile);
      }
      assert IsTile(ch, h, 1);
      assert GapAt(ch, h, i, 1) <==> !Adjoins(ch, h, i);
    }
  }

  lemma GapIff(ch: ChainPlan, h: nat, i: nat, tile: int)
    requires WellFormed(ch) && 1 <= h < LastH(ch) && i < |ch.outs| && IsTile(ch, h, tile) && tile > 0
    ensures GapAt(ch, h, i, tile) <==> !Adjoins(ch, h, i)
  {
    TilesAdvance(ch, h, tile);
    TilesAdvance(ch, h, tile - 1);
    RunAdjoins(ch.p, Origin(ch, ch.outs[i], |ch.p.ops|), LastH(ch), TileBand(ch, h, tile - 1), TileBand(ch, h, tile));
  }

  /** A chain that keeps its operands and outputs on the band, with spans the tile context can pad. */
  ghost predicate Plain(ch: ChainPlan)
    requires ch.Shaped()
  {
    && (forall j :: 0 <= j < |ch.p.ops| && ch.p.ops[j].kernel.Spatial? ==> ch.p.ops[j].kernel.w.Span() <= UINT16_MAX + 1)
    && (forall j, i :: 0 <= j < |ch.p.ops| && 0 <= i < |ch.p.ops[j].ins| ==> OnBand(ch, ch.p.ops[j].ins[i], j))
    && (forall i :: 0 <= i < |ch.outs| ==> OnBand(ch, ch.outs[i], |ch.p.ops|))
  }

  /** A plain chain is read right, refused no tile and left no gap, at any height. */
  lemma PlainRuns(ch: ChainPlan, h: nat)
    requires WellFormed(ch) && Plain(ch) && h >= 1
    ensures TilesRead(ch, h) && !TilesRefused(ch, h) && Gapless(ch, h)
  {
    OnBandReads(ch, h);
    forall tile | IsTile(ch, h, tile) ensures !TileRefused(ch, TileBand(ch, h, tile)) {
      TilesAdvance(ch, h, tile);
      forall j | 0 <= j < |ch.p.ops| ensures !OpRefused(ch, j, TileBand(ch, h, tile)) {
        PlainOp(ch, j, TileBand(ch, h, tile));
      }
    }
    hide OpRefused, TilesRead, ReadsTile, GapAt;
    forall i | 0 <= i < |ch.outs| ensures OutputWhole(ch, h, i) { PlainOutput(ch, h, i); }
  }

  lemma PlainOp(ch: ChainPlan, j: nat, last: Band)
    requires WellFormed(ch) && Plain(ch) && j < |ch.p.ops| && last.Inside(LastH(ch))
    ensures !OpRefused(ch, j, last)
  {
    hide Fits, BandAt, Still, OperandsKnown;
    forall i | 0 <= i < |ch.p.ops[j].ins| ensures !Missed(ch, j, i, last) {
      OnBandHolds(ch, ch.p.ops[j].ins[i], j, last);
    }
    if ch.p.ops[j].kernel.Spatial? { PadsBelowSpan(ch, j, last); }
  }

  /** No pad of a window operator reaches its span, clamped at the top or at the bottom. */
  lemma PadsBelowSpan(ch: ChainPlan, j: nat, last: Band)
    requires ch.Shaped() && |ch.outs| >= 1 && Fits(ch.p, LastH(ch)) && last.Inside(LastH(ch))
    requires j < |ch.p.ops| && ch.p.ops[j].kernel.Spatial?
    ensures OpInRange(ch.p, ch.p.ops[j])
    ensures var w := ch.p.ops[j].kernel.w;
      var b := BandAt(ch.p, j + 1, last);
      PadTop(w, b) < w.Span() && PadBottom(w, ch.p.heights[ch.p.ops[j].ins[0]], b) < w.Span()
  {
    var w := ch.p.ops[j].kernel.w;
    var b := BandAt(ch.p, j + 1, last);
    BandInside(ch.p, j + 1, LastH(ch), last);
    assert FitsAt(ch.p, j, LastH(ch));
    MulNonNegative(b.lo, w.stride);
    MulOrder(b.hi - 1, HeightAt(ch.p, j + 1, LastH(ch)) - 1, w.stride);
  }

  lemma PlainOutput(ch: ChainPlan, h: nat, i: nat)
    requires WellFormed(ch) && Plain(ch) && h >= 1 && i < |ch.outs|
    ensures OutputWhole(ch, h, i)
  {
    var n := |ch.p.ops|;
    var t := ch.outs[i];
    forall tile | IsTile(ch, h, tile) ensures !GapAt(ch, h, i, tile) {
      TilesAdvance(ch, h, tile);
      if tile > 0 {
        TilesAdvance(ch, h, tile - 1);
        OnBandHolds(ch, t, n, TileBand(ch, h, tile));
        OnBandHolds(ch, t, n, TileBand(ch, h, tile - 1));
      }
    }
    OnBandHolds(ch, t, n, Band(0, LastH(ch)));
    OriginProduced(ch, t);
    assert FitsAt(ch.p, Origin(ch, t, n) - 1, LastH(ch));
  }

  lemma OriginProduced(ch: ChainPlan, t: Tensor)
    requires ch.Shaped() && Produced(ch.p, t)
    ensures Origin(ch, t, |ch.p.ops|) > 0
  {
    var j :| 0 <= j < |ch.p.ops| && t in ch.p.ops[j].outs;
    OriginFrom(ch, t, j + 1, |ch.p.ops|);
  }

  lemma {:induction false} OriginFrom(ch: ChainPlan, t: Tensor, i: nat, j: nat)
    requires ch.Shaped() && 1 <= i <= j <= |ch.p.ops| && t in ch.p.ops[i - 1].outs
    ensures Origin(ch, t, j) >= i
  {
    if i < j { OriginFrom(ch, t, i, j - 1); }
  }
}
