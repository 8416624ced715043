/** The fast bytes of one chain tile, as the budget search counts them. */
module ChainBytes {
  import opened Rows
  import opened BandPlan
  import opened BandRanges
  import opened ChainBudget

  function AlignUp(x: int, a: nat): int
    requires a >= 1
  {
    (x + (a - 1)) / a * a
  }

  /** AlignUp is a multiple of a, at or above x, and no other such multiple m is below it. */
  lemma AlignUpLeast(x: int, a: nat, m: int)
    requires a >= 1
    ensures AlignUp(x, a) % a == 0 && x <= AlignUp(x, a) < x + a
    ensures m % a == 0 && m >= x ==> AlignUp(x, a) <= m
  {
    var k := (x + (a - 1)) / a;
    FloorIs(x + (a - 1), a);
    MultipleOf(k, a);
    if m % a == 0 && m >= x && m / a < k {
      assert m == m / a * a;
      MulOrder(m / a + 1, k, a);
      MulSub(m / a, -1, a);
    }
    if m / a >= k { MulOrder(k, m / a, a); }
  }

  lemma MultipleOf(k: int, a: nat)
    requires a >= 1
    ensures k * a % a == 0
  {
    var x := k * a;
    assert x == x / a * a + x % a;
    DivUnique(x, k, 0, a);
  }

  lemma AlignUpGrows(x: int, y: int, a: nat)
    requires a >= 1 && x <= y
    ensures AlignUp(x, a) <= AlignUp(y, a)
  {
    DivGrows(x + (a - 1), y + (a - 1), a);
    MulOrder((x + (a - 1)) / a, (y + (a - 1)) / a, a);
  }

  lemma AlignUpCovers(x: int, a: nat)
    requires a >= 1
    ensures x <= AlignUp(x, a)
  {}

  lemma DivGrows(x: int, y: int, d: nat)
    requires d >= 1 && x <= y
    ensures x / d <= y / d
  {
    if x / d > y / d {
      MulOrder(y / d + 1, x / d, d);
      MulSub(y / d, -1, d);
    }
  }

  /** A chain as the executor is handed it: plan, stages, boundary tensors, bytes of one row of each tensor. */
  datatype ChainPlan = ChainPlan(
    p: Plan, cuts: seq<nat>, ins: seq<Tensor>, outs: seq<Tensor>,
    rowBytes: seq<nat>, align: nat, tileRows: int, lineBuffered: bool)
  {
    predicate Shaped() {
      && InRange(p) && Stages(p, cuts) && ValidWindows(p) && align >= 1
      && |rowBytes| == |p.heights|
      && (forall i :: 0 <= i < |ins| ==> ins[i] < |p.heights|)
      && (forall i :: 0 <= i < |outs| ==> outs[i] < |p.heights|)
    }

    /** Aligned bytes of `rows` rows of tensor t. */
    function TensorBytes(t: Tensor, rows: int): int
      requires align >= 1 && t < |rowBytes|
    {
      AlignUp(rowBytes[t] * rows, align)
    }

    /** Bytes of the first n of a list of tensors at `rows` rows each. */
    function ListBytes(ts: seq<Tensor>, n: nat, rows: int): int
      requires align >= 1 && n <= |ts| && forall i :: 0 <= i < |ts| ==> ts[i] < |rowBytes|
    {
      if n == 0 then 0 else ListBytes(ts, n - 1, rows) + TensorBytes(ts[n - 1], rows)
    }

    /** Bytes of the outputs of operators cuts[c] up to j of stage c, for tiles of h rows. */
    function StageBytes(c: nat, j: nat, h: int): int
      requires Shaped() && c < |cuts| - 1 && cuts[c] <= j <= cuts[c + 1] <= |p.ops|
      decreases j
    {
      if j == cuts[c] then 0
      else
        assert OpInRange(p, p.ops[j - 1]);
        StageBytes(c, j - 1, h) + ListBytes(p.ops[j - 1].outs, |p.ops[j - 1].outs|, BandRows(p, cuts, c, j - 1, h))
    }

    /** Bytes of the first c stages. */
    function StagesBytes(c: nat, h: int): int
      requires Shaped() && c <= |cuts| - 1
    {
      if c == 0 then 0
      else
        assert cuts[c - 1] <= cuts[c] <= cuts[|cuts| - 1];
        StagesBytes(c - 1, h) + StageBytes(c - 1, cuts[c], h)
    }

    /** The whole working set of a tile of h rows: the chain's inputs, then every operator output. */
    function Total(h: int): int
      requires Shaped()
    {
      ListBytes(ins, |ins|, StageRows(p, cuts, 0, h)) + StagesBytes(|cuts| - 1, h)
    }

    /** The tallest tile the budget search may return: the plan's height, at least 1, at most the output's. */
    function TallestTile(): (h: nat)
      requires Shaped() && |outs| >= 1
      ensures 1 <= h <= p.heights[outs[0]]
      ensures 1 <= tileRows <= p.heights[outs[0]] ==> h == tileRows
      ensures tileRows < 1 ==> h == 1
      ensures tileRows > p.heights[outs[0]] ==> h == p.heights[outs[0]]
    {
      Min(Max(1, tileRows), p.heights[outs[0]])
    }

    /** The largest height up to n whose working set fits `room` bytes; 0 when not even one row does. */
    function HeightFitting(room: int, n: nat): (h: nat)
      requires Shaped()
      ensures h <= n && (h >= 1 ==> Total(h) <= room)
      ensures forall g :: h < g <= n ==> Total(g) > room
    {
      if n == 0 then 0
      else if Total(n) <= room then n
      else HeightFitting(room, n - 1)
    }

    /** The tile height a chain runs at with `room` fast bytes, 0 when it cannot run. */
    function TileHeight(room: int): nat
      requires Shaped() && |outs| >= 1
    {
      HeightFitting(room, TallestTile())
    }
  }

  lemma {:induction false} ListBytesGrow(ch: ChainPlan, ts: seq<Tensor>, n: nat, g: int, h: int)
    requires ch.align >= 1 && n <= |ts| && (forall i :: 0 <= i < |ts| ==> ts[i] < |ch.rowBytes|) && g <= h
    ensures ch.ListBytes(ts, n, g) <= ch.ListBytes(ts, n, h)
  {
    if n > 0 {
      ListBytesGrow(ch, ts, n - 1, g, h);
      TensorBytesGrow(ch, ts[n - 1], g, h);
    }
  }

  /** A band's allocation is the least multiple of the alignment that holds its rows. */
  lemma TensorBytesLeast(ch: ChainPlan, t: Tensor, rows: int, m: int)
    requires ch.align >= 1 && t < |ch.rowBytes|
    ensures ch.TensorBytes(t, rows) % ch.align == 0 && ch.TensorBytes(t, rows) >= ch.rowBytes[t] * rows
    ensures m % ch.align == 0 && m >= ch.rowBytes[t] * rows ==> ch.TensorBytes(t, rows) <= m
  {
    AlignUpLeast(ch.rowBytes[t] * rows, ch.align, m);
  }

  lemma TensorBytesGrow(ch: ChainPlan, t: Tensor, g: int, h: int)
    requires ch.align >= 1 && t < |ch.rowBytes| && g <= h
    ensures ch.TensorBytes(t, g) <= ch.TensorBytes(t, h)
  {
    MulOrder(g, h, ch.rowBytes[t]);
    AlignUpGrows(ch.rowBytes[t] * g, ch.rowBytes[t] * h, ch.align);
  }

  lemma {:induction false} ListBytesNonNegative(ch: ChainPlan, ts: seq<Tensor>, n: nat, rows: int)
    requires ch.align >= 1 && n <= |ts| && (forall i :: 0 <= i < |ts| ==> ts[i] < |ch.rowBytes|) && rows >= 0
    ensures ch.ListBytes(ts, n, rows) >= 0
  {
    if n > 0 {
      ListBytesNonNegative(ch, ts, n - 1, rows);
      MulNonNegative(ch.rowBytes[ts[n - 1]], rows);
      AlignUpCovers(ch.rowBytes[ts[n - 1]] * rows, ch.align);
    }
  }

  lemma {:induction false} StageRowsGrow(p: Plan, cuts: seq<nat>, c: nat, g: int, h: int)
    requires Stages(p, cuts) && ValidWindows(p) && c < |cuts| && g <= h
    ensures StageRows(p, cuts, c, g) <= StageRows(p, cuts, c, h)
    decreases |cuts| - c
  {
    if c < |cuts| - 1 {
      StageRowsGrow(p, cuts, c + 1, g, h);
      ComposePositive(p, cuts[c], cuts[c + 1]);
      MulOrder(StageRows(p, cuts, c + 1, g), StageRows(p, cuts, c + 1, h), Compose(p, cuts[c], cuts[c + 1]).stride);
    }
  }

  lemma {:induction false} RowsAfterGrow(p: Plan, lo: nat, j: nat, a: int, b: int)
    requires ValidWindows(p) && lo <= j <= |p.ops| && a <= b
    ensures RowsAfter(p, lo, j, a) <= RowsAfter(p, lo, j, b)
    decreases j
  {
    if lo < j {
      RowsAfterGrow(p, lo, j - 1, a, b);
      assert ValidWindow(p.ops[j - 1]);
      match p.ops[j - 1].kernel
      case Pointwise(_, _, _) =>
      case Spatial(w, _) =>
        var o := Max(0, w.Span() - w.stride);
        DivGrows(RowsAfter(p, lo, j - 1, a) - o, RowsAfter(p, lo, j - 1, b) - o, w.stride);
    }
  }

  lemma {:induction false} StageBytesGrow(ch: ChainPlan, c: nat, j: nat, g: int, h: int)
    requires ch.Shaped() && c < |ch.cuts| - 1 && ch.cuts[c] <= j <= ch.cuts[c + 1] <= |ch.p.ops| && g <= h
    ensures ch.StageBytes(c, j, g) <= ch.StageBytes(c, j, h)
    decreases j
  {
    if j > ch.cuts[c] {
      StageBytesGrow(ch, c, j - 1, g, h);
      StageRowsGrow(ch.p, ch.cuts, c, g, h);
      RowsAfterGrow(ch.p, ch.cuts[c], j, StageRows(ch.p, ch.cuts, c, g), StageRows(ch.p, ch.cuts, c, h));
      assert OpInRange(ch.p, ch.p.ops[j - 1]);
      ListBytesGrow(ch, ch.p.ops[j - 1].outs, |ch.p.ops[j - 1].outs|,
                    BandRows(ch.p, ch.cuts, c, j - 1, g), BandRows(ch.p, ch.cuts, c, j - 1, h));
    }
  }

  lemma {:induction false} StagesBytesGrow(ch: ChainPlan, c: nat, g: int, h: int)
    requires ch.Shaped() && c <= |ch.cuts| - 1 && g <= h
    ensures ch.StagesBytes(c, g) <= ch.StagesBytes(c, h)
  {
    if c > 0 {
      StagesBytesGrow(ch, c - 1, g, h);
      assert ch.cuts[c - 1] <= ch.cuts[c] <= ch.cuts[|ch.cuts| - 1];
      StageBytesGrow(ch, c - 1, ch.cuts[c], g, h);
    }
  }

  /** A taller tile takes no fewer bytes, so the heights that fit are an interval from 1. */
  lemma TotalGrows(ch: ChainPlan, g: int, h: int)
    requires ch.Shaped() && g <= h
    ensures ch.Total(g) <= ch.Total(h)
  {
    StageRowsGrow(ch.p, ch.cuts, 0, g, h);
    ListBytesGrow(ch, ch.ins, |ch.ins|, StageRows(ch.p, ch.cuts, 0, g), StageRows(ch.p, ch.cuts, 0, h));
    StagesBytesGrow(ch, |ch.cuts| - 1, g, h);
  }

  /** Rows a chain reserves are never negative, so a prefix of the working set is no larger than the whole. */
  lemma {:induction false} StageBytesPrefix(ch: ChainPlan, c: nat, i: nat, j: nat, h: int)
    requires ch.Shaped() && c < |ch.cuts| - 1 && ch.cuts[c] <= i <= j <= ch.cuts[c + 1] <= |ch.p.ops| && h >= 1
    ensures ch.StageBytes(c, i, h) <= ch.StageBytes(c, j, h)
    decreases j
  {
    if i < j {
      StageBytesPrefix(ch, c, i, j - 1, h);
      BandRowsNonNegative(ch.p, ch.cuts, c, j - 1, h);
      assert OpInRange(ch.p, ch.p.ops[j - 1]);
      ListBytesNonNegative(ch, ch.p.ops[j - 1].outs, |ch.p.ops[j - 1].outs|, BandRows(ch.p, ch.cuts, c, j - 1, h));
    }
  }

  lemma {:induction false} StagesBytesPrefix(ch: ChainPlan, c: nat, d: nat, h: int)
    requires ch.Shaped() && c <= d <= |ch.cuts| - 1 && h >= 1
    ensures ch.StagesBytes(c, h) <= ch.StagesBytes(d, h)
    decreases d
  {
    if c < d {
      StagesBytesPrefix(ch, c, d - 1, h);
      assert ch.cuts[d - 1] <= ch.cuts[d] <= ch.cuts[|ch.cuts| - 1];
      StageBytesPrefix(ch, d - 1, ch.cuts[d - 1], ch.cuts[d], h);
    }
  }

  lemma {:induction false} SurplusAtLeast(p: Plan, lo: nat, j: nat, u: int)
    requires ValidWindows(p) && lo <= j <= |p.ops| && u >= -1
    ensures Surplus(p, lo, j, u) >= -1
    decreases j
  {
    if lo < j {
      SurplusAtLeast(p, lo, j - 1, u);
      assert ValidWindow(p.ops[j - 1]);
      match p.ops[j - 1].kernel
      case Pointwise(_, _, _) =>
      case Spatial(w, _) =>
        MulNonNegative(w.taps - 1, w.dilation);
        FloorBound(Surplus(p, lo, j - 1, u) + Min(w.stride, w.Span()), w.stride);
    }
  }

  lemma BandRowsNonNegative(p: Plan, cuts: seq<nat>, c: nat, j: nat, h: int)
    requires Stages(p, cuts) && ValidWindows(p) && c < |cuts| - 1 && cuts[c] <= j < cuts[c + 1] <= |p.ops| && h >= 1
    ensures BandRows(p, cuts, c, j, h) >= 0
  {
    ReservedExactly(p, cuts, c, j, h);
    NeedPositive(p, j + 1, h);
    StageSurplusNonNegative(p, cuts, c);
    SurplusAtLeast(p, cuts[c], j + 1, StageSurplus(p, cuts, c));
  }

  /** A prefix of a list of allocations takes no more than the whole. */
  lemma {:induction false} ListBytesPrefix(ch: ChainPlan, ts: seq<Tensor>, m: nat, n: nat, rows: int)
    requires ch.align >= 1 && m <= n <= |ts| && (forall i :: 0 <= i < |ts| ==> ts[i] < |ch.rowBytes|) && rows >= 0
    ensures ch.ListBytes(ts, m, rows) <= ch.ListBytes(ts, n, rows)
  {
    if m < n {
      ListBytesPrefix(ch, ts, m, n - 1, rows);
      MulNonNegative(ch.rowBytes[ts[n - 1]], rows);
      AlignUpCovers(ch.rowBytes[ts[n - 1]] * rows, ch.align);
    }
  }
}
