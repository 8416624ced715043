/**
 * A chain and its tiles, before anything runs: where each operand of an
 * operator comes from, which of its rows a tile holds, and what the tiles of
 * a height need of memory, of the tile context and of each other.
 */
module ChainTiles {
  import opened Rows
  import opened BandPlan
  import opened BandRanges
  import opened ChainBudget
  import opened ChainBytes

  /** Whole rows of the chain's last output, which its tiles cover. */
  function LastH(ch: ChainPlan): nat
    requires ch.Shaped() && |ch.outs| >= 1
  {
    ch.p.heights[ch.outs[0]]
  }

  // Where an operand comes from.

  /** Whether tensor t is loaded or produced before operator j. */
  ghost predicate Available(ch: ChainPlan, t: Tensor, j: nat)
    requires ch.Shaped() && j <= |ch.p.ops|
  {
    t in ch.ins || exists i :: 0 <= i < j && t in ch.p.ops[i].outs
  }

  /** How many operators had run when t, as operator j finds it, was produced: 0 for a chain input. */
  function Origin(ch: ChainPlan, t: Tensor, j: nat): (k: nat)
    requires ch.Shaped() && j <= |ch.p.ops|
    ensures k <= j && (k > 0 ==> t in ch.p.ops[k - 1].outs)
  {
    if j == 0 then 0
    else if t in ch.p.ops[j - 1].outs then j
    else Origin(ch, t, j - 1)
  }

  /** The rows of t the chain holds when operator j runs, in the tile that ends in `last`. */
  function HeldAt(ch: ChainPlan, t: Tensor, j: nat, last: Band): Band
    requires ch.Shaped() && j <= |ch.p.ops|
  {
    BandAt(ch.p, Origin(ch, t, j), last)
  }

  /** A two-operand elementwise operator: the only kind chain_kernel shifts operands for. */
  predicate IsPair(op: Op) { op.kernel.Pointwise? && op.kernel.binary && |op.ins| == 2 }

  /** An operand of operator j that chain_kernel shifts to the band: one image of more than one row. */
  predicate Shiftable(ch: ChainPlan, j: nat, t: Tensor)
    requires ch.Shaped() && j < |ch.p.ops| && t < |ch.p.heights|
  {
    IsPair(ch.p.ops[j]) && ch.p.batches[t] == 1 && ch.p.heights[t] > 1
  }

  /** Rows `held` of each image, read from the first on as the rows b: the same start, none missing, one stride. */
  predicate Aligned(held: Band, b: Band, batches: nat) {
    held.lo == b.lo && b.hi <= held.hi && (batches == 1 || held.hi == b.hi)
  }

  /** Every operand of operator j is at hand and as high as the band. */
  ghost predicate OperandsKnown(ch: ChainPlan, j: nat)
    requires ch.Shaped() && |ch.outs| >= 1 && j < |ch.p.ops|
  {
    forall i :: 0 <= i < |ch.p.ops[j].ins| ==>
      var t := ch.p.ops[j].ins[i];
      Available(ch, t, j) && ch.p.heights[t] == HeightAt(ch.p, j, LastH(ch))
  }

  ghost predicate Produced(p: Plan, t: Tensor) {
    exists j :: 0 <= j < |p.ops| && t in p.ops[j].outs
  }

  /** What the loader and the compiler establish of a chain. */
  ghost predicate WellFormed(ch: ChainPlan) {
    && ch.Shaped() && |ch.cuts| >= 3 && |ch.ins| >= 1 && |ch.outs| >= 1
    && Ordered(ch.p)
    && Fits(ch.p, LastH(ch))
    && (forall j :: 0 <= j < |ch.p.ops| ==> OperandsKnown(ch, j))
    && (forall i, j :: 0 <= i < |ch.ins| && 0 <= j < |ch.p.ops| ==> ch.ins[i] !in ch.p.ops[j].outs)
    && (forall i :: 0 <= i < |ch.outs| ==> Produced(ch.p, ch.outs[i]))
    && (forall i, j :: 0 <= i < j < |ch.outs| ==> ch.outs[i] != ch.outs[j])
  }

  /** Every chain input is as high as the band the chain starts from. */
  ghost predicate InputsTall(ch: ChainPlan)
    requires ch.Shaped() && |ch.outs| >= 1
  {
    forall i :: 0 <= i < |ch.ins| ==> ch.p.heights[ch.ins[i]] == HeightAt(ch.p, 0, LastH(ch))
  }

  // The tiles.

  /** The rows of the chain's last output that tile number `tile` produces, in tiles of h rows. */
  function TileBand(ch: ChainPlan, h: int, tile: int): Band
    requires ch.Shaped() && |ch.outs| >= 1
  {
    Band(tile * h, Min(tile * h + h, LastH(ch)))
  }

  /** There is a tile number `tile`. */
  predicate IsTile(ch: ChainPlan, h: int, tile: int)
    requires ch.Shaped() && |ch.outs| >= 1
  {
    tile >= 0 && tile * h < LastH(ch)
  }

  /** A later tile's rows are no earlier. */
  lemma TilesAdvance(ch: ChainPlan, h: int, tile: int)
    requires ch.Shaped() && |ch.outs| >= 1 && h >= 1 && IsTile(ch, h, tile)
    ensures TileBand(ch, h, tile).Inside(LastH(ch)) && TileBand(ch, h, tile).Rows() <= h
    ensures tile > 0 ==> IsTile(ch, h, tile - 1) && NoLater(TileBand(ch, h, tile - 1), TileBand(ch, h, tile))
    ensures tile > 0 ==> TileBand(ch, h, tile - 1).hi == TileBand(ch, h, tile).lo
    ensures tile == 0 ==> TileBand(ch, h, tile).lo == 0
    ensures (tile + 1) * h >= LastH(ch) ==> TileBand(ch, h, tile).hi == LastH(ch)
    ensures (tile + 1) * h < LastH(ch) ==> TileBand(ch, h, tile).hi == (tile + 1) * h
  {
    MulNonNegative(tile, h);
    assert (tile - 1) * h == tile * h - h;
    assert (tile + 1) * h == tile * h + h;
  }

  /** Operand i of operator j is shifted to the band or lies on it, in the tile that ends in `last`. */
  ghost predicate ReadsOperand(ch: ChainPlan, j: nat, i: nat, last: Band)
    requires ch.Shaped() && j < |ch.p.ops| && i < |ch.p.ops[j].ins|
  {
    assert OpInRange(ch.p, ch.p.ops[j]);
    var t := ch.p.ops[j].ins[i];
    Shiftable(ch, j, t) || Aligned(HeldAt(ch, t, j, last), BandAt(ch.p, j, last), ch.p.batches[t])
  }

  ghost predicate ReadsOp(ch: ChainPlan, j: nat, last: Band)
    requires ch.Shaped() && j < |ch.p.ops|
  {
    forall i :: 0 <= i < |ch.p.ops[j].ins| ==> ReadsOperand(ch, j, i, last)
  }

  ghost predicate ReadsTile(ch: ChainPlan, last: Band)
    requires ch.Shaped()
  {
    forall j :: 0 <= j < |ch.p.ops| ==> ReadsOp(ch, j, last)
  }

  /** The same in every tile of h rows. */
  ghost predicate TilesRead(ch: ChainPlan, h: int)
    requires ch.Shaped() && |ch.outs| >= 1
  {
    forall tile :: IsTile(ch, h, tile) ==> ReadsTile(ch, TileBand(ch, h, tile))
  }

  /** The rows operator j of stage c leaves in any tile of h rows fit the rows reserved for it. */
  ghost predicate RowsFit(ch: ChainPlan, h: int, c: nat, j: nat, last: Band)
    requires ch.Shaped() && c < |ch.cuts| - 1 && ch.cuts[c] <= j < ch.cuts[c + 1] <= |ch.p.ops|
  {
    BandAt(ch.p, j + 1, last).Rows() <= BandRows(ch.p, ch.cuts, c, j, h)
  }

  ghost predicate TileFits(ch: ChainPlan, h: int, last: Band)
    requires ch.Shaped()
  {
    forall c, j :: 0 <= c < |ch.cuts| - 1 && ch.cuts[c] <= j < ch.cuts[c + 1] && j < |ch.p.ops| ==>
      ch.cuts[c + 1] <= |ch.p.ops| && RowsFit(ch, h, c, j, last)
  }

  ghost predicate TilesFit(ch: ChainPlan, h: int)
    requires ch.Shaped() && |ch.outs| >= 1
  {
    forall tile :: IsTile(ch, h, tile) ==> TileFits(ch, h, TileBand(ch, h, tile))
  }

  /**
   * What a run in tiles of h rows needs: operands the kernels find at their
   * rows, and in a line-buffered chain buffers the rows fit.
   */
  ghost predicate Runnable(ch: ChainPlan, h: int)
    requires ch.Shaped() && |ch.outs| >= 1
  {
    h >= 1 ==> TilesRead(ch, h) && (ch.lineBuffered ==> TilesFit(ch, h))
  }

  // What a tile may be refused for.

  /** A pad of operator j's is past what the tile context can hold, in the tile that ends in `last`. */
  ghost predicate WidePads(ch: ChainPlan, j: nat, last: Band)
    requires ch.Shaped() && j < |ch.p.ops|
  {
    assert OpInRange(ch.p, ch.p.ops[j]);
    match ch.p.ops[j].kernel
    case Pointwise(_, _, _) => false
    case Spatial(w, _) =>
      var b := BandAt(ch.p, j + 1, last);
      PadTop(w, b) > UINT16_MAX || PadBottom(w, ch.p.heights[ch.p.ops[j].ins[0]], b) > UINT16_MAX
  }

  /** Operand i of operator j is one chain_kernel shifts, and the rows held of it miss rows of the band. */
  ghost predicate Missed(ch: ChainPlan, j: nat, i: nat, last: Band)
    requires ch.Shaped() && j < |ch.p.ops| && i < |ch.p.ops[j].ins|
  {
    assert OpInRange(ch.p, ch.p.ops[j]);
    Shiftable(ch, j, ch.p.ops[j].ins[i]) && !HeldAt(ch, ch.p.ops[j].ins[i], j, last).Covers(BandAt(ch.p, j, last))
  }

  ghost predicate OpRefused(ch: ChainPlan, j: nat, last: Band)
    requires ch.Shaped() && j < |ch.p.ops|
  {
    WidePads(ch, j, last) || exists i :: 0 <= i < |ch.p.ops[j].ins| && Missed(ch, j, i, last)
  }

  ghost predicate TileRefused(ch: ChainPlan, last: Band)
    requires ch.Shaped()
  {
    exists j :: 0 <= j < |ch.p.ops| && OpRefused(ch, j, last)
  }

  ghost predicate TilesRefused(ch: ChainPlan, h: int)
    requires ch.Shaped() && |ch.outs| >= 1
  {
    exists tile :: IsTile(ch, h, tile) && TileRefused(ch, TileBand(ch, h, tile))
  }

  // What the tiles leave of an output.

  /** The rows of chain output i a tile leaves. */
  function OutputBand(ch: ChainPlan, i: nat, last: Band): Band
    requires ch.Shaped() && i < |ch.outs|
  {
    HeldAt(ch, ch.outs[i], |ch.p.ops|, last)
  }

  /** Tile number `tile` starts output i past the rows written so far. */
  ghost predicate GapAt(ch: ChainPlan, h: int, i: nat, tile: int)
    requires ch.Shaped() && i < |ch.outs|
  {
    tile > 0 && OutputBand(ch, i, TileBand(ch, h, tile)).lo > OutputBand(ch, i, TileBand(ch, h, tile - 1)).hi
  }

  /** An output's rows of a tile: from 0 in the first, ending no earlier than the tile before's. */
  lemma OutputAdvances(ch: ChainPlan, h: int, i: nat, tile: int)
    requires ch.Shaped() && i < |ch.outs| && h >= 1 && IsTile(ch, h, tile) && Fits(ch.p, LastH(ch))
    ensures var b := OutputBand(ch, i, TileBand(ch, h, tile));
      && b.hi >= 0 && (tile == 0 ==> b.lo == 0)
      && (tile > 0 ==> OutputBand(ch, i, TileBand(ch, h, tile - 1)).hi <= b.hi)
    ensures (tile + 1) * h >= LastH(ch) ==>
      OutputBand(ch, i, TileBand(ch, h, tile)).hi == OutputBand(ch, i, Band(0, LastH(ch))).hi
  {
    TilesAdvance(ch, h, tile);
    var k := Origin(ch, ch.outs[i], |ch.p.ops|);
    var last := TileBand(ch, h, tile);
    BandInside(ch.p, k, LastH(ch), last);
    if tile == 0 { TopBand(ch.p, k, last); }
    if tile > 0 { BandNoLater(ch.p, k, TileBand(ch, h, tile - 1), last); }
    if (tile + 1) * h >= LastH(ch) { SameEnd(ch.p, k, last, Band(0, LastH(ch))); }
  }

  /** The tiles of h rows leave every row of chain output i. */
  ghost predicate OutputWhole(ch: ChainPlan, h: int, i: nat)
    requires ch.Shaped() && i < |ch.outs|
  {
    && (forall tile :: IsTile(ch, h, tile) ==> !GapAt(ch, h, i, tile))
    && OutputBand(ch, i, Band(0, LastH(ch))).hi == ch.p.heights[ch.outs[i]]
  }

  ghost predicate Gapless(ch: ChainPlan, h: int)
    requires ch.Shaped()
  {
    forall i :: 0 <= i < |ch.outs| ==> OutputWhole(ch, h, i)
  }

  /** Chain output i is ahead of no run of windows whose composed stride outruns its span, or the chain has one tile. */
  ghost predicate Adjoins(ch: ChainPlan, h: int, i: nat)
    requires ch.Shaped() && i < |ch.outs|
  {
    var f := Compose(ch.p, Origin(ch, ch.outs[i], |ch.p.ops|), |ch.p.ops|);
    h >= LastH(ch) || f.span >= f.stride
  }

  // What a tile takes of fast memory.

  /** Bytes of one band of `rows` rows for each output of operator j. */
  function OutBytes(ch: ChainPlan, j: nat, rows: int): int
    requires ch.Shaped() && j < |ch.p.ops| && OpInRange(ch.p, ch.p.ops[j])
  {
    ch.ListBytes(ch.p.ops[j].outs, |ch.p.ops[j].outs|, rows)
  }

  /** Bytes of the bands of the first j operators, in the tile that ends in `last`. */
  function OpsBytes(ch: ChainPlan, j: nat, last: Band): int
    requires ch.Shaped() && j <= |ch.p.ops|
  {
    if j == 0 then 0
    else
      assert OpInRange(ch.p, ch.p.ops[j - 1]);
      OpsBytes(ch, j - 1, last) + OutBytes(ch, j - 1, BandAt(ch.p, j, last).Rows())
  }

  /** Bytes a tile takes above what is reserved: its inputs, and every operator's band unless they persist. */
  function TileBytes(ch: ChainPlan, last: Band): int
    requires ch.Shaped()
  {
    ch.ListBytes(ch.ins, |ch.ins|, BandAt(ch.p, 0, last).Rows())
    + if ch.lineBuffered then 0 else OpsBytes(ch, |ch.p.ops|, last)
  }

  /** Some tile of h rows takes more than `room` bytes. */
  ghost predicate TilesOverflow(ch: ChainPlan, h: int, room: int)
    requires ch.Shaped() && |ch.outs| >= 1
  {
    exists tile :: IsTile(ch, h, tile) && TileBytes(ch, TileBand(ch, h, tile)) > room
  }

  lemma {:induction false} OpsBytesGrow(ch: ChainPlan, i: nat, j: nat, last: Band)
    requires ch.Shaped() && |ch.outs| >= 1 && Fits(ch.p, LastH(ch)) && last.Inside(LastH(ch)) && i <= j <= |ch.p.ops|
    ensures OpsBytes(ch, i, last) <= OpsBytes(ch, j, last)
    decreases j
  {
    if i < j {
      OpsBytesGrow(ch, i, j - 1, last);
      BandInside(ch.p, j, LastH(ch), last);
      assert OpInRange(ch.p, ch.p.ops[j - 1]);
      ListBytesNonNegative(ch, ch.p.ops[j - 1].outs, |ch.p.ops[j - 1].outs|, BandAt(ch.p, j, last).Rows());
    }
  }

  /** A tile whose rows fit the rows reserved takes no more bytes than the working set. */
  lemma FittingTileBytes(ch: ChainPlan, h: int, last: Band)
    requires ch.Shaped() && |ch.outs| >= 1 && Fits(ch.p, LastH(ch)) && last.Inside(LastH(ch)) && last.Rows() <= h
    requires !ch.lineBuffered && TileFits(ch, h, last)
    ensures TileBytes(ch, last) <= ch.Total(h)
  {
    InputFitsReservation(ch.p, ch.cuts, LastH(ch), last, h);
    ListBytesGrow(ch, ch.ins, |ch.ins|, BandAt(ch.p, 0, last).Rows(), StageRows(ch.p, ch.cuts, 0, h));
    StagesFit(ch, h, |ch.cuts| - 1, last);
  }

  lemma {:induction false} StagesFit(ch: ChainPlan, h: int, c: nat, last: Band)
    requires ch.Shaped() && TileFits(ch, h, last) && c <= |ch.cuts| - 1
    ensures ch.cuts[c] <= |ch.p.ops| && OpsBytes(ch, ch.cuts[c], last) <= ch.StagesBytes(c, h)
  {
    assert ch.cuts[c] <= ch.cuts[|ch.cuts| - 1];
    if c > 0 {
      StagesFit(ch, h, c - 1, last);
      assert ch.cuts[c - 1] <= ch.cuts[c];
      StageFits(ch, h, c - 1, ch.cuts[c], last);
    }
  }

  lemma {:induction false} StageFits(ch: ChainPlan, h: int, c: nat, j: nat, last: Band)
    requires ch.Shaped() && TileFits(ch, h, last) && c < |ch.cuts| - 1 && ch.cuts[c] <= j <= ch.cuts[c + 1] <= |ch.p.ops|
    ensures OpsBytes(ch, j, last) - OpsBytes(ch, ch.cuts[c], last) <= ch.StageBytes(c, j, h)
    decreases j
  {
    if j > ch.cuts[c] {
      StageFits(ch, h, c, j - 1, last);
      assert OpInRange(ch.p, ch.p.ops[j - 1]) && RowsFit(ch, h, c, j - 1, last);
      ListBytesGrow(ch, ch.p.ops[j - 1].outs, |ch.p.ops[j - 1].outs|,
                    BandAt(ch.p, j, last).Rows(), BandRows(ch.p, ch.cuts, c, j - 1, h));
    }
  }

  /** A recomputing chain run at the height the budget found runs out of fast memory in no tile that fits its reservation. */
  lemma FittingNeverOverflows(ch: ChainPlan, h: int, room: int)
    requires WellFormed(ch) && !ch.lineBuffered && h >= 1 && TilesFit(ch, h) && ch.Total(h) <= room
    ensures !TilesOverflow(ch, h, room)
  {
    hide TileFits, TileBytes, ch.Total;
    forall tile | IsTile(ch, h, tile) ensures TileBytes(ch, TileBand(ch, h, tile)) <= room {
      TilesAdvance(ch, h, tile);
      FittingTileBytes(ch, h, TileBand(ch, h, tile));
    }
  }

  /** No window of the tile reads past either end of its input. */
  ghost predicate FreeTile(ch: ChainPlan, last: Band)
    requires ch.Shaped()
  {
    forall j :: 0 <= j < |ch.p.ops| ==> FreeAt(ch, j, last)
  }

  ghost predicate FreeAt(ch: ChainPlan, j: nat, last: Band)
    requires ch.Shaped() && j < |ch.p.ops|
  {
    assert OpInRange(ch.p, ch.p.ops[j]);
    match ch.p.ops[j].kernel
    case Pointwise(_, _, _) => true
    case Spatial(w, _) =>
      var b := BandAt(ch.p, j + 1, last);
      PadTop(w, b) == 0 && PadBottom(w, ch.p.heights[ch.p.ops[j].ins[0]], b) == 0
  }

  lemma {:induction false} FreeRows(ch: ChainPlan, k: nat, last: Band)
    requires ch.Shaped() && FreeTile(ch, last) && k <= |ch.p.ops|
    ensures BandAt(ch.p, k, last).Rows() == Need(ch.p, k, last.Rows())
    decreases |ch.p.ops| - k
  {
    if k < |ch.p.ops| {
      FreeRows(ch, k + 1, last);
      assert FreeAt(ch, k, last) && OpInRange(ch.p, ch.p.ops[k]);
      match ch.p.ops[k].kernel
      case Pointwise(_, _, _) =>
      case Spatial(w, _) =>
        var b := BandAt(ch.p, k + 1, last);
        MulSub(b.hi - 1, b.lo, w.stride);
    }
  }

  /** The working set is what a tile takes: where kernels cover their strides an unclamped tile uses every byte counted. */
  lemma TotalTaken(ch: ChainPlan, last: Band)
    requires ch.Shaped() && FreeTile(ch, last) && KernelsCoverStrides(ch.p) && !ch.lineBuffered
    ensures TileBytes(ch, last) == ch.Total(last.Rows())
  {
    hide ch.Shaped, BandAt, StageRows, Need;
    ShapedParts(ch);
    FreeRows(ch, 0, last);
    ReservedAhead(ch, last.Rows());
    StagesTaken(ch, |ch.cuts| - 1, last);
  }

  lemma ShapedParts(ch: ChainPlan)
    requires ch.Shaped()
    ensures |ch.cuts| >= 2 && ch.cuts[0] == 0 && ch.cuts[|ch.cuts| - 1] == |ch.p.ops|
  {}

  lemma ReservedAhead(ch: ChainPlan, h: int)
    requires ch.Shaped() && KernelsCoverStrides(ch.p)
    ensures StageRows(ch.p, ch.cuts, 0, h) == Need(ch.p, 0, h)
  {
    NoStageSurplus(ch.p, ch.cuts, 0);
    StageRowsExact(ch.p, ch.cuts, 0, h);
  }

  lemma {:induction false} StagesTaken(ch: ChainPlan, c: nat, last: Band)
    requires ch.Shaped() && FreeTile(ch, last) && KernelsCoverStrides(ch.p) && c <= |ch.cuts| - 1
    ensures ch.cuts[c] <= |ch.p.ops| && OpsBytes(ch, ch.cuts[c], last) == ch.StagesBytes(c, last.Rows())
  {
    assert ch.cuts[c] <= ch.cuts[|ch.cuts| - 1];
    if c > 0 {
      StagesTaken(ch, c - 1, last);
      assert ch.cuts[c - 1] <= ch.cuts[c];
      StageTaken(ch, c - 1, ch.cuts[c], last);
    }
  }

  lemma {:induction false} StageTaken(ch: ChainPlan, c: nat, j: nat, last: Band)
    requires ch.Shaped() && FreeTile(ch, last) && KernelsCoverStrides(ch.p)
    requires c < |ch.cuts| - 1 && ch.cuts[c] <= j <= ch.cuts[c + 1] <= |ch.p.ops|
    ensures OpsBytes(ch, j, last) - OpsBytes(ch, ch.cuts[c], last) == ch.StageBytes(c, j, last.Rows())
    decreases j
  {
    if j > ch.cuts[c] {
      StageTaken(ch, c, j - 1, last);
      FreeRows(ch, j, last);
      ReservedTightly(ch.p, ch.cuts, c, j - 1, last.Rows());
    }
  }

  // Conditions the plan alone decides.

  /** A reservation that suffices for unclamped tiles fits every tile of every height. */
  lemma SufficientFits(ch: ChainPlan, h: int)
    requires ch.Shaped() && |ch.outs| >= 1 && Fits(ch.p, LastH(ch)) && Sufficient(ch.p, ch.cuts) && h >= 1
    ensures TilesFit(ch, h)
  {
    forall tile | IsTile(ch, h, tile) ensures TileFits(ch, h, TileBand(ch, h, tile)) {
      TilesAdvance(ch, h, tile);
      forall c, j | 0 <= c < |ch.cuts| - 1 && ch.cuts[c] <= j < ch.cuts[c + 1] && j < |ch.p.ops|
        ensures ch.cuts[c + 1] <= |ch.p.ops| && RowsFit(ch, h, c, j, TileBand(ch, h, tile))
      {
        assert ch.cuts[c + 1] <= ch.cuts[|ch.cuts| - 1];
        assert OpSurplus(ch.p, ch.cuts, c, j) >= 0;
        TileFitsReservation(ch.p, ch.cuts, c, j, LastH(ch), TileBand(ch, h, tile), h);
      }
    }
  }

  /** Tensor t is on the band operator j finds: produced or loaded with no move since. */
  predicate OnBand(ch: ChainPlan, t: Tensor, j: nat)
    requires ch.Shaped() && j <= |ch.p.ops|
  {
    Still(ch.p, Origin(ch, t, j), j)
  }

  /** An operand on the band is held at exactly the band in every tile. */
  lemma OnBandHolds(ch: ChainPlan, t: Tensor, j: nat, last: Band)
    requires ch.Shaped() && |ch.outs| >= 1 && Fits(ch.p, LastH(ch)) && last.Inside(LastH(ch))
    requires j <= |ch.p.ops| && OnBand(ch, t, j)
    ensures HeldAt(ch, t, j, last) == BandAt(ch.p, j, last)
    ensures HeightAt(ch.p, Origin(ch, t, j), LastH(ch)) == HeightAt(ch.p, j, LastH(ch))
  {
    StillBand(ch.p, Origin(ch, t, j), j, LastH(ch), last);
  }

  /** A chain of operands on the band or shifted to it reads right in tiles of any height. */
  lemma OnBandReads(ch: ChainPlan, h: int)
    requires WellFormed(ch) && h >= 1
    requires forall j, i :: 0 <= j < |ch.p.ops| && 0 <= i < |ch.p.ops[j].ins| ==>
      OnBand(ch, ch.p.ops[j].ins[i], j)
      || (ch.p.ops[j].ins[i] < |ch.p.heights| && Shiftable(ch, j, ch.p.ops[j].ins[i]))
    ensures TilesRead(ch, h)
  {
    forall tile, j | IsTile(ch, h, tile) && 0 <= j < |ch.p.ops| ensures ReadsOp(ch, j, TileBand(ch, h, tile)) {
      TilesAdvance(ch, h, tile);
      forall i | 0 <= i < |ch.p.ops[j].ins| ensures ReadsOperand(ch, j, i, TileBand(ch, h, tile)) {
        assert OpInRange(ch.p, ch.p.ops[j]);
        if OnBand(ch, ch.p.ops[j].ins[i], j) { OnBandHolds(ch, ch.p.ops[j].ins[i], j, TileBand(ch, h, tile)); }
      }
    }
  }
}
