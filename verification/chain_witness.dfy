/** Chains the loader accepts on which the executor's rules stop being enough. */
module ChainWitness {
  import opened Rows
  import opened BandPlan
  import opened BandRanges
  import opened ChainBudget
  import opened ChainBytes
  import opened ChainTiles
  import opened ChainLimits
  import opened ChainCheck
  import Check = StripeCheck

  // A chain the check accepts and the executor reads wrong.

  /** A first stage that keeps its pointwise result as well as its convolution's, and a second that reads both. */
  function ResidualChain(g: (nat, seq<Row>) -> Row, f: (nat, seq<Option<Row>>) -> Row): ChainPlan {
    ChainPlan(
      Plan([16, 16, 16, 16, 16], [1, 1, 1, 1, 1],
        [Op(Pointwise(false, false, g), [0], [1]),
         Op(Spatial(Window(1, 1, 3, 1), f), [1], [2]),
         Op(Pointwise(false, false, g), [1], [3]),
         Op(Pointwise(true, false, g), [2, 3], [4])]),
      [0, 2, 4], [0], [4], [1, 1, 1, 1, 1], 1, 4, false)
  }

  lemma ResidualShaped(g: (nat, seq<Row>) -> Row, f: (nat, seq<Option<Row>>) -> Row)
    ensures ResidualChain(g, f).Shaped()
  {}

  lemma ResidualHeights(g: (nat, seq<Row>) -> Row, f: (nat, seq<Option<Row>>) -> Row)
    requires ResidualChain(g, f).Shaped()
    ensures forall j :: 0 <= j <= 4 ==> HeightAt(ResidualChain(g, f).p, j, 16) == 16
  {
    var p := ResidualChain(g, f).p;
    assert HeightAt(p, 4, 16) == 16;
    assert HeightAt(p, 3, 16) == 16;
    assert HeightAt(p, 2, 16) == 16;
    assert HeightAt(p, 1, 16) == 16;
  }

  lemma ResidualFits(g: (nat, seq<Row>) -> Row, f: (nat, seq<Option<Row>>) -> Row)
    ensures var ch := ResidualChain(g, f); ch.Shaped() && Fits(ch.p, 16)
    ensures forall j :: 0 <= j <= 4 ==> HeightAt(ResidualChain(g, f).p, j, 16) == 16
  {
    hide HeightAt, InRange, Stages, ValidWindows;
    ResidualShaped(g, f);
    ResidualHeights(g, f);
    var p := ResidualChain(g, f).p;
    assert FitsAt(p, 0, 16) && FitsAt(p, 1, 16) && FitsAt(p, 2, 16) && FitsAt(p, 3, 16);
  }

  lemma ResidualWellFormed(g: (nat, seq<Row>) -> Row, f: (nat, seq<Option<Row>>) -> Row)
    ensures WellFormed(ResidualChain(g, f))
  {
    var ch := ResidualChain(g, f);
    hide HeightAt, Fits, ch.Shaped;
    ResidualFits(g, f);
    assert 1 in ch.p.ops[0].outs && 2 in ch.p.ops[1].outs && 3 in ch.p.ops[2].outs && 4 in ch.p.ops[3].outs;
    assert Produced(ch.p, 4);
    assert OperandsKnown(ch, 0) && OperandsKnown(ch, 1) && OperandsKnown(ch, 2) && OperandsKnown(ch, 3);
  }

  lemma ResidualAccepted(g: (nat, seq<Row>) -> Row, f: (nat, seq<Option<Row>>) -> Row)
    ensures var ch := ResidualChain(g, f);
      var widths := [16, 16, 16, 16, 16];
      && ch.Shaped()
      && Check.Shaped(StageOf(ch, 0, widths, [0], [1, 2])) && Check.Accepted(StageOf(ch, 0, widths, [0], [1, 2]))
      && Check.Shaped(StageOf(ch, 1, widths, [1, 2], [4])) && Check.Accepted(StageOf(ch, 1, widths, [1, 2], [4]))
  {
    ResidualFits(g, f);
    ResidualFirst(g, f);
    ResidualSecond(g, f);
  }

  lemma ResidualFirst(g: (nat, seq<Row>) -> Row, f: (nat, seq<Option<Row>>) -> Row)
    requires ResidualChain(g, f).Shaped()
    ensures var s := StageOf(ResidualChain(g, f), 0, [16, 16, 16, 16, 16], [0], [1, 2]); Check.Shaped(s) && Check.Accepted(s)
  {
    var s := StageOf(ResidualChain(g, f), 0, [16, 16, 16, 16, 16], [0], [1, 2]);
    assert s.p.ops == ResidualChain(g, f).p.ops[0..2];
    assert Check.ExtentsAt(s, 0) == 0;
    assert Check.ExtentsAt(s, 1) == 0;
    assert Check.ExtentsAt(s, 2) == 2;
    assert Check.ReadsTheBand(s, 0, 0) && Check.ReadsTheBand(s, 1, 1);
    hide Check.ExtentsAt, Check.ReadsTheBand, InRange;
    assert Check.OpAccepted(s, 0);
    assert Check.OpAccepted(s, 1);
  }

  lemma ResidualSecond(g: (nat, seq<Row>) -> Row, f: (nat, seq<Option<Row>>) -> Row)
    requires ResidualChain(g, f).Shaped()
    ensures var s := StageOf(ResidualChain(g, f), 1, [16, 16, 16, 16, 16], [1, 2], [4]); Check.Shaped(s) && Check.Accepted(s)
  {
    var s := StageOf(ResidualChain(g, f), 1, [16, 16, 16, 16, 16], [1, 2], [4]);
    assert s.p.ops == ResidualChain(g, f).p.ops[2..4];
    assert Check.ExtentsAt(s, 0) == 1;
    assert Check.ExtentsAt(s, 1) == 1;
    assert Check.ExtentsAt(s, 2) == 1;
    assert Check.ReadsTheBand(s, 0, 1) && Check.ReadsTheBand(s, 1, 3);
    hide Check.ExtentsAt, Check.ReadsTheBand, InRange;
    assert Check.OpAccepted(s, 0);
    assert Check.InputAccepted(s, 1, 1);
    assert Check.OpAccepted(s, 1);
  }

  /**
   * The loader accepts both stages, yet in the tile of rows 4 to 8 the second
   * stage's unary operator runs on rows 4 to 8 while the buffer it reads from
   * starts at row 3: for every row it reads the one before.
   */
  lemma StageCheckIsLocal(g: (nat, seq<Row>) -> Row, f: (nat, seq<Option<Row>>) -> Row)
    ensures var ch := ResidualChain(g, f);
      && WellFormed(ch) && IsTile(ch, 4, 1) && !TilesRead(ch, 4)
      && HeldAt(ch, 1, 2, TileBand(ch, 4, 1)) == Band(3, 9) && BandAt(ch.p, 2, TileBand(ch, 4, 1)) == Band(4, 8)
      && forall r :: 4 <= r < 8 ==>
        RowRead(Shift(IsPair(ch.p.ops[2]), 1, 16, Band(3, 9), Band(4, 8)), 0, r, Band(4, 8)) == RowOfImage(0, r - 1, Band(3, 9))
  {
    var ch := ResidualChain(g, f);
    ResidualWellFormed(g, f);
    var last := Band(4, 8);
    assert BandAt(ch.p, 4, last) == last;
    assert BandAt(ch.p, 3, last) == last;
    assert BandAt(ch.p, 2, last) == last;
    assert BandAt(ch.p, 1, last) == Band(3, 9);
    hide WellFormed;
    assert Origin(ch, 1, 2) == Origin(ch, 1, 1) == 1;
    assert TileBand(ch, 4, 1) == last && IsTile(ch, 4, 1);
    assert !ReadsOperand(ch, 2, 0, last);
    assert !ReadsOp(ch, 2, last) && !ReadsTile(ch, TileBand(ch, 4, 1));
  }

  // A shifted operand that misses rows.

  /** A 16-row tensor kept past a stride-2 row subsampling and a window that grows the 8 rows back to 16. */
  function RegrownChain(g: (nat, seq<Row>) -> Row, f: (nat, seq<Option<Row>>) -> Row): ChainPlan {
    ChainPlan(
      Plan([16, 16, 8, 16, 16], [1, 1, 1, 1, 1],
        [Op(Pointwise(false, false, g), [0], [1]),
         Op(Spatial(Window(2, 0, 1, 1), f), [1], [2]),
         Op(Spatial(Window(1, 9, 10, 1), f), [2], [3]),
         Op(Pointwise(true, false, g), [1, 3], [4])]),
      [0, 2, 4], [0], [4], [1, 1, 1, 1, 1], 1, 1, false)
  }

  lemma RegrownShaped(g: (nat, seq<Row>) -> Row, f: (nat, seq<Option<Row>>) -> Row)
    ensures RegrownChain(g, f).Shaped()
  {}

  lemma RegrownHeights(g: (nat, seq<Row>) -> Row, f: (nat, seq<Option<Row>>) -> Row)
    requires RegrownChain(g, f).Shaped()
    ensures var p := RegrownChain(g, f).p;
      HeightAt(p, 4, 16) == HeightAt(p, 3, 16) == 16 && HeightAt(p, 2, 16) == 8 && HeightAt(p, 1, 16) == HeightAt(p, 0, 16) == 16
  {
    var p := RegrownChain(g, f).p;
    assert HeightAt(p, 4, 16) == 16;
    assert HeightAt(p, 3, 16) == 16;
    assert HeightAt(p, 2, 16) == 8;
    assert HeightAt(p, 1, 16) == 16;
  }

  lemma RegrownFits(g: (nat, seq<Row>) -> Row, f: (nat, seq<Option<Row>>) -> Row)
    ensures var ch := RegrownChain(g, f); ch.Shaped() && Fits(ch.p, 16)
    ensures var p := RegrownChain(g, f).p;
      HeightAt(p, 3, 16) == 16 && HeightAt(p, 2, 16) == 8 && HeightAt(p, 1, 16) == 16 && HeightAt(p, 0, 16) == 16
  {
    hide HeightAt, InRange, Stages, ValidWindows;
    RegrownShaped(g, f);
    RegrownHeights(g, f);
    var p := RegrownChain(g, f).p;
    assert FitsAt(p, 0, 16) && FitsAt(p, 1, 16) && FitsAt(p, 2, 16) && FitsAt(p, 3, 16);
  }

  lemma RegrownWellFormed(g: (nat, seq<Row>) -> Row, f: (nat, seq<Option<Row>>) -> Row)
    ensures WellFormed(RegrownChain(g, f))
  {
    var ch := RegrownChain(g, f);
    hide HeightAt, Fits, ch.Shaped;
    RegrownFits(g, f);
    assert 1 in ch.p.ops[0].outs && 2 in ch.p.ops[1].outs && 3 in ch.p.ops[2].outs && 4 in ch.p.ops[3].outs;
    assert Produced(ch.p, 4);
    assert OperandsKnown(ch, 0) && OperandsKnown(ch, 1) && OperandsKnown(ch, 2) && OperandsKnown(ch, 3);
  }

  /** A shiftable operand of a well-formed chain need not cover the band: its last tile of one row is refused. */
  lemma ShiftedMisses(g: (nat, seq<Row>) -> Row, f: (nat, seq<Option<Row>>) -> Row)
    ensures var ch := RegrownChain(g, f);
      && WellFormed(ch) && TilesRead(ch, 1) && TilesRefused(ch, 1)
      && BandAt(ch.p, 3, Band(15, 16)) == Band(15, 16) && HeldAt(ch, 1, 3, Band(15, 16)) == Band(12, 15)
  {
    var ch := RegrownChain(g, f);
    RegrownWellFormed(g, f);
    var last := Band(15, 16);
    assert BandAt(ch.p, 4, last) == last;
    assert BandAt(ch.p, 3, last) == last;
    assert BandAt(ch.p, 2, last) == Band(6, 8);
    assert BandAt(ch.p, 1, last) == Band(12, 15);
    assert Origin(ch, 1, 3) == Origin(ch, 1, 2) == Origin(ch, 1, 1) == 1;
    assert Missed(ch, 3, 0, last);
    assert OpRefused(ch, 3, last) && TileBand(ch, 1, 15) == last && IsTile(ch, 1, 15);
    assert TileRefused(ch, TileBand(ch, 1, 15));
    RegrownReads(g, f);
  }

  lemma RegrownReads(g: (nat, seq<Row>) -> Row, f: (nat, seq<Option<Row>>) -> Row)
    requires WellFormed(RegrownChain(g, f))
    ensures TilesRead(RegrownChain(g, f), 1)
  {
    var ch := RegrownChain(g, f);
    hide WellFormed, Fits, Moves;
    assert Origin(ch, 0, 0) == 0 && Origin(ch, 1, 1) == 1 && Origin(ch, 2, 2) == 2 && Origin(ch, 3, 3) == 3;
    OnBandReads(ch, 1);
  }

  // A reservation that falls short.

  /** A 1-row kernel of stride 2 ahead of a padded 3-row kernel, 16 rows to 8 to 8, then a pointwise stage; line-buffered. */
  function StridedShortcut(g: (nat, seq<Row>) -> Row, f: (nat, seq<Option<Row>>) -> Row): ChainPlan {
    ChainPlan(
      Plan([16, 8, 8, 8], [1, 1, 1, 1],
        [Op(Spatial(Window(2, 0, 1, 1), f), [0], [1]),
         Op(Spatial(Window(1, 1, 3, 1), f), [1], [2]),
         Op(Pointwise(false, false, g), [2], [3])]),
      [0, 2, 3], [0], [3], [1, 1, 1, 1], 1, 1, true)
  }

  lemma ShortcutShaped(g: (nat, seq<Row>) -> Row, f: (nat, seq<Option<Row>>) -> Row)
    ensures StridedShortcut(g, f).Shaped()
  {}

  lemma ShortcutHeights(g: (nat, seq<Row>) -> Row, f: (nat, seq<Option<Row>>) -> Row)
    requires StridedShortcut(g, f).Shaped()
    ensures var p := StridedShortcut(g, f).p;
      HeightAt(p, 3, 8) == HeightAt(p, 2, 8) == HeightAt(p, 1, 8) == 8 && HeightAt(p, 0, 8) == 16
  {
    var p := StridedShortcut(g, f).p;
    assert HeightAt(p, 3, 8) == 8;
    assert HeightAt(p, 2, 8) == 8;
    assert HeightAt(p, 1, 8) == 8;
  }

  lemma ShortcutFits(g: (nat, seq<Row>) -> Row, f: (nat, seq<Option<Row>>) -> Row)
    ensures var ch := StridedShortcut(g, f); ch.Shaped() && Fits(ch.p, 8)
    ensures var p := StridedShortcut(g, f).p; HeightAt(p, 2, 8) == 8 && HeightAt(p, 1, 8) == 8 && HeightAt(p, 0, 8) == 16
  {
    hide HeightAt, InRange, Stages, ValidWindows;
    ShortcutShaped(g, f);
    ShortcutHeights(g, f);
    var p := StridedShortcut(g, f).p;
    assert FitsAt(p, 0, 8) && FitsAt(p, 1, 8) && FitsAt(p, 2, 8);
  }

  lemma ShortcutWellFormed(g: (nat, seq<Row>) -> Row, f: (nat, seq<Option<Row>>) -> Row)
    ensures WellFormed(StridedShortcut(g, f))
  {
    var ch := StridedShortcut(g, f);
    hide HeightAt, Fits, ch.Shaped;
    ShortcutFits(g, f);
    assert 1 in ch.p.ops[0].outs && 2 in ch.p.ops[1].outs && 3 in ch.p.ops[2].outs;
    assert Produced(ch.p, 3);
    assert OperandsKnown(ch, 0) && OperandsKnown(ch, 1) && OperandsKnown(ch, 2);
  }

  /** What the first stage of such a chain composes to, and the rows it reserves at one row of output. */
  lemma ShortcutRows(p: Plan)
    requires |p.ops| == 3 && Stages(p, [0, 2, 3]) && ValidWindows(p) && p.ops[2].kernel.Pointwise?
    requires p.ops[0].kernel.Spatial? && p.ops[0].kernel.w == Window(2, 0, 1, 1)
    requires p.ops[1].kernel.Spatial? && p.ops[1].kernel.w == Window(1, 1, 3, 1)
    ensures BandRows(p, [0, 2, 3], 0, 0, 1) == 2 && OpSurplus(p, [0, 2, 3], 0, 0) == -1
  {
    hide Stages, ValidWindows;
    assert Compose(p, 2, 3) == Compose(p, 2, 2) == Field(1, 1, 0);
    assert Compose(p, 0, 1) == ComposeOp(Compose(p, 0, 0), p.ops[0]) == Field(2, 1, 0);
    assert Compose(p, 0, 2) == ComposeOp(Compose(p, 0, 1), p.ops[1]) == Field(2, 5, 2);
    hide Compose;
    assert StageRows(p, [0, 2, 3], 2, 1) == 1;
    assert StageRows(p, [0, 2, 3], 1, 1) == 1;
    assert StageRows(p, [0, 2, 3], 0, 1) == 5;
    assert StageSurplus(p, [0, 2, 3], 2) == 0;
    assert StageSurplus(p, [0, 2, 3], 1) == 0;
    assert StageSurplus(p, [0, 2, 3], 0) == 0;
    hide StageRows, StageSurplus;
    assert RowsAfter(p, 0, 0, 5) == 5;
    assert Surplus(p, 0, 0, 0) == 0;
  }

  /** In a line-buffered chain in tiles of h rows, one tile leaves more rows at operator j of stage c than its persistent buffer has. */
  ghost predicate Overruns(ch: ChainPlan, h: nat, tile: nat, c: nat, j: nat) {
    && WellFormed(ch) && ch.lineBuffered && h >= 1 && IsTile(ch, h, tile)
    && c < |ch.cuts| - 1 && ch.cuts[c] <= j < ch.cuts[c + 1] <= |ch.p.ops|
    && BandAt(ch.p, j + 1, TileBand(ch, h, tile)).Rows() > BandRows(ch.p, ch.cuts, c, j, h)
  }

  /** Such a chain is outside what a run may be asked for, and its surplus is negative. */
  lemma OverrunIsShort(ch: ChainPlan, h: nat, tile: nat, c: nat, j: nat)
    requires Overruns(ch, h, tile, c, j)
    ensures !Runnable(ch, h) && OpSurplus(ch.p, ch.cuts, c, j) < 0
  {
    var last := TileBand(ch, h, tile);
    assert !RowsFit(ch, h, c, j, last);
    assert !TileFits(ch, h, last);
    assert !TilesFit(ch, h);
    TilesAdvance(ch, h, tile);
    if OpSurplus(ch.p, ch.cuts, c, j) >= 0 { TileFitsReservation(ch.p, ch.cuts, c, j, LastH(ch), last, h); }
  }

  /**
   * The persistent buffers are not large enough for every chain: in tiles of
   * one row, the height this one runs at whenever it runs, the tile of row 3
   * leaves three rows at the first operator and its buffer has two.
   */
  lemma StridedShortcutFallsShort(g: (nat, seq<Row>) -> Row, f: (nat, seq<Option<Row>>) -> Row)
    ensures Overruns(StridedShortcut(g, f), 1, 3, 0, 0)
    ensures OneRowTiles(StridedShortcut(g, f))
  {
    var ch := StridedShortcut(g, f);
    hide WellFormed, Fits, BandRows, BandAt, ch.Shaped, OneRowTiles;
    ShortcutFits(g, f);
    ShortcutWellFormed(g, f);
    ShortcutTile(g, f);
    TallestOne(ch);
  }

  /** The budget search gives such a chain tiles of one row, or none. */
  ghost predicate OneRowTiles(ch: ChainPlan) {
    ch.Shaped() && |ch.outs| >= 1 && forall room :: ch.TileHeight(room) == if ch.Total(1) <= room then 1 else 0
  }

  lemma ShortcutTile(g: (nat, seq<Row>) -> Row, f: (nat, seq<Option<Row>>) -> Row)
    requires StridedShortcut(g, f).Shaped()
    ensures var ch := StridedShortcut(g, f);
      && IsTile(ch, 1, 3) && BandAt(ch.p, 1, TileBand(ch, 1, 3)).Rows() == 3
      && BandRows(ch.p, ch.cuts, 0, 0, 1) == 2
  {
    var ch := StridedShortcut(g, f);
    hide BandRows;
    ShortcutRows(ch.p);
    var last := Band(3, 4);
    assert BandAt(ch.p, 3, last) == last;
    assert BandAt(ch.p, 2, last) == last;
    assert TileBand(ch, 1, 3) == last;
  }

  lemma TallestOne(ch: ChainPlan)
    requires ch.Shaped() && |ch.outs| >= 1 && ch.tileRows == 1 && LastH(ch) >= 1
    ensures OneRowTiles(ch)
  {
    hide ch.Total;
    assert ch.TallestTile() == 1;
    forall room ensures ch.TileHeight(room) == if ch.Total(1) <= room then 1 else 0 {
      assert ch.HeightFitting(room, 0) == 0;
    }
  }
}
