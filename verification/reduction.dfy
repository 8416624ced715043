/**
 * Reductions walked along their input: bands of rows, or groups of channels
 * over intervals of positions, with the partial results carried from tile to
 * tile. The combine is arbitrary, so the order of the fold matters.
 */
module Reduction {
  import opened Rows
  import opened Permute
  import opened TransposeBand

  type Sum(0)

  /** A running partial result, one four-byte accumulator slot. */
  datatype Partial = Partial(sum: Sum)

  datatype Reducer = Reducer(zero: Partial, combine: (Partial, Element) -> Partial, finish: Partial -> Element)

  /** The first `count` positions of channel c of batch n of x, a [batch, positions, channels] tensor, folded onto `from`. */
  function Fold(f: Reducer, from: Partial, x: seq<Element>, batch: nat, positions: nat, channels: nat, n: nat, c: nat, count: nat): Partial
    requires |x| == batch * positions * channels && n < batch && c < channels && count <= positions
  {
    if count == 0 then from
    else
      CellInRange(batch, positions, channels, n, count - 1, c);
      f.combine(Fold(f, from, x, batch, positions, channels, n, c, count - 1), x[Cell(n, positions, count - 1, channels, c)])
  }

  /** What the operator means: every channel of every batch folded over all its positions, in order. */
  function Reduced(f: Reducer, x: seq<Element>, batch: nat, positions: nat, channels: nat, n: nat, c: nat): Element
    requires |x| == batch * positions * channels && n < batch && c < channels
  {
    f.finish(Fold(f, f.zero, x, batch, positions, channels, n, c, positions))
  }

  function Slot(n: nat, channels: nat, c: nat): nat { n * channels + c }

  lemma SlotInRange(batch: nat, channels: nat, n: nat, c: nat)
    requires n < batch && c < channels
    ensures Slot(n, channels, c) < batch * channels
  {
    NextBlock(n, batch, channels);
  }

  // The kernel.

  /** The executor's side of a tile: nothing, or an accumulator with the first and last marks. */
  datatype Carry = Whole | Band(first: bool, last: bool)

  function Entering(f: Reducer, carry: Carry, acc: seq<Partial>, at: nat): Partial {
    if carry.Band? && !carry.first && at < |acc| then acc[at] else f.zero
  }

  /** The output of a slot is there. */
  ghost predicate HasResult(f: Reducer, src: seq<Element>, batch: nat, positions: nat, channels: nat, dst: seq<Option<Element>>, n: nat, c: nat)
    requires |src| == batch * positions * channels && n < batch && c < channels
  {
    Slot(n, channels, c) < |dst| && dst[Slot(n, channels, c)] == Some(Reduced(f, src, batch, positions, channels, n, c))
  }

  /** One slot after the kernel: its partial carried on, or finished. */
  ghost predicate Swept(f: Reducer, x: seq<Element>, batch: nat, positions: nat, channels: nat, carry: Carry,
                        before: seq<Partial>, acc: seq<Partial>, out: seq<Option<Element>>, n: nat, c: nat)
    requires |x| == batch * positions * channels && n < batch && c < channels
  {
    var at := Slot(n, channels, c);
    var sum := Fold(f, Entering(f, carry, before, at), x, batch, positions, channels, n, c, positions);
    && at < |out| && at < |acc| == |before|
    && acc[at] == (if carry.Band? then sum else before[at])
    && out[at] == if carry.Band? && !carry.last then None else Some(f.finish(sum))
  }

  ghost predicate Unswept(before: seq<Partial>, acc: seq<Partial>, out: seq<Option<Element>>, at: nat) {
    at < |out| && at < |acc| == |before| && acc[at] == before[at] && out[at] == None
  }

  /** One channel of one batch: the loop over rows and columns. */
  method SumChannel(f: Reducer, x: seq<Element>, batch: nat, rows: nat, width: nat, channels: nat, n: nat, c: nat, start: Partial)
    returns (sum: Partial)
    requires |x| == batch * (rows * width) * channels && n < batch && c < channels
    ensures sum == Fold(f, start, x, batch, rows * width, channels, n, c, rows * width)
  {
    hide Fold;
    ghost var positions := rows * width;
    sum := start;
    FoldNothing(f, start, x, batch, positions, channels, n, c);
    for h: nat := 0 to rows
      invariant h * width <= positions
      invariant sum == Fold(f, start, x, batch, positions, channels, n, c, h * width)
    {
      NextBlock(h, rows, width);
      for w: nat := 0 to width
        invariant sum == Fold(f, start, x, batch, positions, channels, n, c, h * width + w)
      {
        PositionIndex(batch, rows, width, channels, n, h, w, c);
        FoldOne(f, start, x, batch, positions, channels, n, c, h * width + w);
        sum := f.combine(sum, x[((n * rows + h) * width + w) * channels + c]);
      }
      MulSub(h, -1, width);
    }
  }

  method Pool(f: Reducer, x: seq<Element>, batch: nat, rows: nat, width: nat, channels: nat, carry: Carry, acc: array<Partial>)
    returns (out: seq<Option<Element>>)
    requires |x| == batch * (rows * width) * channels && batch * channels <= acc.Length
    modifies acc
    ensures |out| == batch * channels
    ensures forall n: nat, c: nat :: n < batch && c < channels ==>
      Swept(f, x, batch, rows * width, channels, carry, old(acc[..]), acc[..], out, n, c)
    ensures carry.Whole? ==> forall n: nat, c: nat :: n < batch && c < channels ==> HasResult(f, x, batch, rows * width, channels, out, n, c)
  {
    hide Swept, Unswept, Fold, Slot, HasResult;
    ghost var before := acc[..];
    var positions := rows * width;
    out := seq(batch * channels, _ => None);
    NoneYet(before, out, batch, channels);
    for n: nat := 0 to batch
      invariant |out| == batch * channels
      invariant SweptTo(f, x, batch, positions, channels, carry, before, acc[..], out, n, 0)
    {
      for c: nat := 0 to channels
        invariant |out| == batch * channels
        invariant SweptTo(f, x, batch, positions, channels, carry, before, acc[..], out, n, c)
      {
        SlotInRange(batch, channels, n, c);
        var at := Slot(n, channels, c);
        StillHere(f, x, batch, positions, channels, carry, before, acc[..], out, n, c);
        var start := if carry.Band? && !carry.first then acc[at] else f.zero;
        var sum := SumChannel(f, x, batch, rows, width, channels, n, c, start);
        ghost var there, left := acc[..], out;
        if carry.Band? { acc[at] := sum; }
        if !(carry.Band? && !carry.last) { out := out[at := Some(f.finish(sum))]; }
        SweepOne(f, x, batch, positions, channels, carry, before, there, left, acc[..], out, n, c, sum);
      }
      NextLine(f, x, batch, positions, channels, carry, before, acc[..], out, n);
    }
    AllSwept(f, x, batch, positions, channels, carry, before, acc[..], out);
    if carry.Whole? { WholeIsReduced(f, x, batch, positions, channels, before, acc[..], out); }
  }

  ghost predicate SweptTo(f: Reducer, x: seq<Element>, batch: nat, positions: nat, channels: nat, carry: Carry,
                          before: seq<Partial>, acc: seq<Partial>, out: seq<Option<Element>>, n: nat, c: nat)
    requires |x| == batch * positions * channels
  {
    forall m: nat, d: nat :: m < batch && d < channels ==>
      if m < n || (m == n && d < c) then Swept(f, x, batch, positions, channels, carry, before, acc, out, m, d)
      else Unswept(before, acc, out, Slot(m, channels, d))
  }

  lemma NoneYet(before: seq<Partial>, out: seq<Option<Element>>, batch: nat, channels: nat)
    requires |out| == batch * channels <= |before| && forall i :: 0 <= i < |out| ==> out[i] == None
    ensures forall m: nat, d: nat :: m < batch && d < channels ==> Unswept(before, before, out, Slot(m, channels, d))
  {
    forall m: nat, d: nat | m < batch && d < channels ensures Unswept(before, before, out, Slot(m, channels, d)) {
      SlotInRange(batch, channels, m, d);
    }
  }

  lemma StillHere(f: Reducer, x: seq<Element>, batch: nat, positions: nat, channels: nat, carry: Carry,
                  before: seq<Partial>, acc: seq<Partial>, out: seq<Option<Element>>, n: nat, c: nat)
    requires |x| == batch * positions * channels && n < batch && c < channels
    requires SweptTo(f, x, batch, positions, channels, carry, before, acc, out, n, c)
    ensures Unswept(before, acc, out, Slot(n, channels, c))
    ensures Slot(n, channels, c) < |acc| == |before| && acc[Slot(n, channels, c)] == before[Slot(n, channels, c)]
  {
    hide Slot;
    assert Unswept(before, acc, out, Slot(n, channels, c));
  }

  lemma FoldNothing(f: Reducer, from: Partial, x: seq<Element>, batch: nat, positions: nat, channels: nat, n: nat, c: nat)
    requires |x| == batch * positions * channels && n < batch && c < channels
    ensures Fold(f, from, x, batch, positions, channels, n, c, 0) == from
  {}

  lemma FoldOne(f: Reducer, from: Partial, x: seq<Element>, batch: nat, positions: nat, channels: nat, n: nat, c: nat, p: nat)
    requires |x| == batch * positions * channels && n < batch && c < channels && p < positions
    ensures Cell(n, positions, p, channels, c) < |x|
    ensures Fold(f, from, x, batch, positions, channels, n, c, p + 1) ==
      f.combine(Fold(f, from, x, batch, positions, channels, n, c, p), x[Cell(n, positions, p, channels, c)])
  {
    CellInRange(batch, positions, channels, n, p, c);
  }

  lemma PositionIndex(batch: nat, rows: nat, width: nat, channels: nat, n: nat, h: nat, w: nat, c: nat)
    requires n < batch && h < rows && w < width && c < channels
    ensures h * width + w < rows * width
    ensures ((n * rows + h) * width + w) * channels + c == Cell(n, rows * width, h * width + w, channels, c) < batch * (rows * width) * channels
  {
    NextBlock(h, rows, width);
    CellInRange(batch, rows * width, channels, n, h * width + w, c);
    MulSub(n * rows, -(h as int), width);
    MulNegate(h, width);
    MulAssoc(n, rows, width);
  }

  lemma SweepOne(f: Reducer, x: seq<Element>, batch: nat, positions: nat, channels: nat, carry: Carry, before: seq<Partial>,
                 there: seq<Partial>, left: seq<Option<Element>>, acc: seq<Partial>, out: seq<Option<Element>>, n: nat, c: nat, sum: Partial)
    requires |x| == batch * positions * channels && n < batch && c < channels
    requires SweptTo(f, x, batch, positions, channels, carry, before, there, left, n, c)
    requires var at := Slot(n, channels, c);
      && at < |there| && at < |left|
      && sum == Fold(f, Entering(f, carry, before, at), x, batch, positions, channels, n, c, positions)
      && acc == (if carry.Band? then there[at := sum] else there)
      && out == if carry.Band? && !carry.last then left else left[at := Some(f.finish(sum))]
    ensures SweptTo(f, x, batch, positions, channels, carry, before, acc, out, n, c + 1)
  {
    hide Fold, Slot;
    assert Unswept(before, there, left, Slot(n, channels, c));
    forall m: nat, d: nat | m < batch && d < channels
      ensures if m < n || (m == n && d < c + 1) then Swept(f, x, batch, positions, channels, carry, before, acc, out, m, d)
              else Unswept(before, acc, out, Slot(m, channels, d))
    {
      if Slot(m, channels, d) == Slot(n, channels, c) { SlotInjective(channels, m, d, n, c); }
    }
  }

  lemma SlotInjective(channels: nat, m: nat, d: nat, n: nat, c: nat)
    requires d < channels && c < channels && Slot(m, channels, d) == Slot(n, channels, c)
    ensures m == n && d == c
  {
    LeadingDigit(m, d, n, c, channels);
  }

  lemma NextLine(f: Reducer, x: seq<Element>, batch: nat, positions: nat, channels: nat, carry: Carry,
                 before: seq<Partial>, acc: seq<Partial>, out: seq<Option<Element>>, n: nat)
    requires |x| == batch * positions * channels
    requires SweptTo(f, x, batch, positions, channels, carry, before, acc, out, n, channels)
    ensures SweptTo(f, x, batch, positions, channels, carry, before, acc, out, n + 1, 0)
  {
    hide Swept, Unswept, Slot;
  }

  lemma AllSwept(f: Reducer, x: seq<Element>, batch: nat, positions: nat, channels: nat, carry: Carry,
                 before: seq<Partial>, acc: seq<Partial>, out: seq<Option<Element>>)
    requires |x| == batch * positions * channels
    requires SweptTo(f, x, batch, positions, channels, carry, before, acc, out, batch, 0)
    ensures forall n: nat, c: nat :: n < batch && c < channels ==> Swept(f, x, batch, positions, channels, carry, before, acc, out, n, c)
  {
    hide Swept, Unswept, Slot;
  }

  lemma WholeIsReduced(f: Reducer, x: seq<Element>, batch: nat, positions: nat, channels: nat,
                       before: seq<Partial>, acc: seq<Partial>, out: seq<Option<Element>>)
    requires |x| == batch * positions * channels
    requires forall n: nat, c: nat :: n < batch && c < channels ==> Swept(f, x, batch, positions, channels, Whole, before, acc, out, n, c)
    ensures forall n: nat, c: nat :: n < batch && c < channels ==> HasResult(f, x, batch, positions, channels, out, n, c)
  {
    hide Fold, Slot;
    forall n: nat, c: nat | n < batch && c < channels ensures HasResult(f, x, batch, positions, channels, out, n, c) {
      assert Swept(f, x, batch, positions, channels, Whole, before, acc, out, n, c);
    }
  }

  // A tile is a piece of the input, so its fold carries on where the last one stopped.

  ghost predicate Loaded(src: seq<Element>, tile: seq<Element>, positions: nat, channels: nat, n: nat, c: nat, start: nat,
                         tilePositions: nat, tileChannels: nat, m: nat, d: nat, p: nat) {
    var at, from := Cell(m, tilePositions, p, tileChannels, d), Cell(n, positions, start + p, channels, c);
    at < |tile| && from < |src| && tile[at] == src[from]
  }

  lemma {:induction false} FoldContinues(f: Reducer, src: seq<Element>, batch: nat, positions: nat, channels: nat, n: nat, c: nat, start: nat,
                                         tile: seq<Element>, tileBatch: nat, tilePositions: nat, tileChannels: nat, m: nat, d: nat, count: nat)
    requires |src| == batch * positions * channels && n < batch && c < channels && start + tilePositions <= positions
    requires |tile| == tileBatch * tilePositions * tileChannels && m < tileBatch && d < tileChannels && count <= tilePositions
    requires forall p: nat :: p < tilePositions ==> Loaded(src, tile, positions, channels, n, c, start, tilePositions, tileChannels, m, d, p)
    ensures Fold(f, Fold(f, f.zero, src, batch, positions, channels, n, c, start), tile, tileBatch, tilePositions, tileChannels, m, d, count)
      == Fold(f, f.zero, src, batch, positions, channels, n, c, start + count)
  {
    if count > 0 {
      FoldContinues(f, src, batch, positions, channels, n, c, start, tile, tileBatch, tilePositions, tileChannels, m, d, count - 1);
      assert Loaded(src, tile, positions, channels, n, c, start, tilePositions, tileChannels, m, d, count - 1);
    }
  }

  /** Writes a stretch of the output, none of it written before. */
  method WriteOnce(dst: array<Option<Element>>, at: nat, out: seq<Option<Element>>)
    requires at + |out| <= dst.Length && forall i :: at <= i < at + |out| ==> dst[i].None?
    modifies dst
    ensures forall i :: 0 <= i < dst.Length ==> dst[i] == if at <= i < at + |out| then out[i - at] else old(dst[i])
  {
    for k := 0 to |out|
      invariant forall i :: 0 <= i < dst.Length ==> dst[i] == if at <= i < at + k then out[i - at] else old(dst[i])
    {
      dst[at + k] := out[k];
    }
  }

  /** The partial a slot holds once `done` positions have been folded. */
  ghost predicate Holds(f: Reducer, src: seq<Element>, batch: nat, positions: nat, channels: nat, acc: seq<Partial>, at: nat, n: nat, c: nat, done: nat)
    requires |src| == batch * positions * channels && n < batch && c < channels
  {
    done <= positions && at < |acc| && (done > 0 ==> acc[at] == Fold(f, f.zero, src, batch, positions, channels, n, c, done))
  }

  lemma SlotCarries(f: Reducer, src: seq<Element>, batch: nat, positions: nat, channels: nat, n: nat, c: nat, start: nat,
                    tile: seq<Element>, tileBatch: nat, tilePositions: nat, tileChannels: nat, m: nat, d: nat,
                    carry: Carry, before: seq<Partial>, acc: seq<Partial>, out: seq<Option<Element>>)
    requires |src| == batch * positions * channels && n < batch && c < channels && start + tilePositions <= positions
    requires |tile| == tileBatch * tilePositions * tileChannels && m < tileBatch && d < tileChannels
    requires forall p: nat :: p < tilePositions ==> Loaded(src, tile, positions, channels, n, c, start, tilePositions, tileChannels, m, d, p)
    requires carry.Band? && carry.first == (start == 0)
    requires Holds(f, src, batch, positions, channels, before, Slot(m, tileChannels, d), n, c, start)
    requires Swept(f, tile, tileBatch, tilePositions, tileChannels, carry, before, acc, out, m, d)
    ensures Holds(f, src, batch, positions, channels, acc, Slot(m, tileChannels, d), n, c, start + tilePositions)
    ensures Slot(m, tileChannels, d) < |out|
    ensures out[Slot(m, tileChannels, d)] == if carry.last then Some(f.finish(Fold(f, f.zero, src, batch, positions, channels, n, c, start + tilePositions))) else None
  {
    hide Slot, Loaded;
    FoldContinues(f, src, batch, positions, channels, n, c, start, tile, tileBatch, tilePositions, tileChannels, m, d, tilePositions);
  }

  // Bands of rows.

  lemma RowLoads(src: seq<Element>, tile: seq<Element>, height: nat, width: nat, channels: nat, start: nat, rows: nat, re: nat, n: nat, c: nat, p: nat)
    requires p < rows * width && c < channels && start + rows <= height && re == width * channels
    requires forall i: nat, e: nat :: i < rows && e < re ==> Gathered(src, tile, height, start, rows, re, n, i, e)
    ensures Loaded(src, tile, height * width, channels, n, c, start * width, rows * width, channels, n, c, p)
  {
    hide Gathered, Cell;
    var h, w := Row(p, rows, width);
    NextBlock(w, width, channels);
    var e := w * channels + c;
    assert Gathered(src, tile, height, start, rows, width * channels, n, h, e);
    RowElementIs(n, rows, h, width, w, channels, c);
    RowElementIs(n, height, start + h, width, w, channels, c);
    MulSub(start, -(h as int), width);
    MulNegate(h, width);
    LoadedFrom(src, tile, height, width, channels, start, rows, n, c, h, w);
  }

  lemma Row(p: nat, rows: nat, width: nat) returns (h: nat, w: nat)
    requires p < rows * width
    ensures h < rows && w < width && p == h * width + w
  {
    h, w := p / width, p % width;
    assert p == (p / width) * width + p % width;
    if h >= rows { MulOrder(rows, h, width); }
  }

  lemma RowElementIs(n: nat, rows: nat, h: nat, width: nat, w: nat, channels: nat, c: nat)
    ensures Cell(n, rows * width, h * width + w, channels, c) == Cell(n, rows, h, width * channels, w * channels + c)
  {
    BlockOfRow(n, rows, h, width, w, channels, c);
    MulSub(n * rows, -(h as int), width);
    MulNegate(h, width);
    MulAssoc(n, rows, width);
  }

  lemma LoadedFrom(src: seq<Element>, tile: seq<Element>, height: nat, width: nat, channels: nat, start: nat, rows: nat, n: nat, c: nat, h: nat, w: nat)
    requires Gathered(src, tile, height, start, rows, width * channels, n, h, w * channels + c)
    requires Cell(n, rows * width, h * width + w, channels, c) == Cell(n, rows, h, width * channels, w * channels + c)
    requires Cell(n, height * width, (start + h) * width + w, channels, c) == Cell(n, height, start + h, width * channels, w * channels + c)
    requires (start + h) * width == start * width + h * width
    ensures Loaded(src, tile, height * width, channels, n, c, start * width, rows * width, channels, n, c, h * width + w)
  {}

  /** One band: rows [start, end) of every batch, folded onto what the accumulator holds. */
  method ReduceRows(f: Reducer, src: seq<Element>, batch: nat, height: nat, width: nat, channels: nat, start: nat, end: nat,
                    acc: array<Partial>, dst: array<Option<Element>>)
    requires |src| == batch * (height * width) * channels && start < end <= height && width >= 1
    requires acc.Length == dst.Length == batch * channels && forall i :: 0 <= i < dst.Length ==> dst[i].None?
    requires forall n: nat, c: nat :: n < batch && c < channels ==>
      Holds(f, src, batch, height * width, channels, acc[..], Slot(n, channels, c), n, c, start * width)
    modifies acc, dst
    ensures end < height ==> forall i :: 0 <= i < dst.Length ==> dst[i].None?
    ensures end < height ==> forall n: nat, c: nat :: n < batch && c < channels ==>
      Holds(f, src, batch, height * width, channels, acc[..], Slot(n, channels, c), n, c, end * width)
    ensures end == height ==> forall n: nat, c: nat :: n < batch && c < channels ==>
      HasResult(f, src, batch, height * width, channels, dst[..], n, c)
  {
    hide Holds, Gathered, Swept, HasResult, Cell, Fold, Slot;
    var rows: nat := end - start;
    BandSizes(batch, height, width, channels, rows);
    var tile := GatherRowBand(src, batch, height, start, rows, width * channels);
    ghost var before := acc[..];
    var out := Pool(f, tile, batch, rows, width, channels, Band(start == 0, end == height), acc);
    forall n: nat, c: nat | n < batch && c < channels
      ensures Holds(f, src, batch, height * width, channels, acc[..], Slot(n, channels, c), n, c, end * width)
      ensures Slot(n, channels, c) < |out|
      ensures end == height ==> out[Slot(n, channels, c)] == Some(Reduced(f, src, batch, height * width, channels, n, c))
    {
      RowBandFolds(f, src, tile, batch, height, width, channels, start, rows, width * channels, before, acc[..], out, n, c);
    }
    if end == height {
      assert forall n: nat, c: nat :: n < batch && c < channels ==> out[Slot(n, channels, c)] == Some(Reduced(f, src, batch, height * width, channels, n, c));
      WriteOnce(dst, 0, out);
      forall n: nat, c: nat | n < batch && c < channels ensures HasResult(f, src, batch, height * width, channels, dst[..], n, c) {
        ResultIs(f, src, batch, height * width, channels, dst[..], n, c);
      }
    }
  }

  lemma ResultIs(f: Reducer, src: seq<Element>, batch: nat, positions: nat, channels: nat, dst: seq<Option<Element>>, n: nat, c: nat)
    requires |src| == batch * positions * channels && n < batch && c < channels
    requires Slot(n, channels, c) < |dst| && dst[Slot(n, channels, c)] == Some(Reduced(f, src, batch, positions, channels, n, c))
    ensures HasResult(f, src, batch, positions, channels, dst, n, c)
  {}

  lemma BandSizes(batch: nat, height: nat, width: nat, channels: nat, rows: nat)
    ensures batch * (height * width) * channels == batch * height * (width * channels)
    ensures batch * (rows * width) * channels == batch * rows * (width * channels)
  {
    MulAssoc(batch, height, width);
    MulAssoc(batch * height, width, channels);
    MulAssoc(batch, rows, width);
    MulAssoc(batch * rows, width, channels);
  }

  lemma RowBandFolds(f: Reducer, src: seq<Element>, tile: seq<Element>, batch: nat, height: nat, width: nat, channels: nat, start: nat, rows: nat, re: nat,
                     before: seq<Partial>, acc: seq<Partial>, out: seq<Option<Element>>, n: nat, c: nat)
    requires |src| == batch * (height * width) * channels && start + rows <= height && width >= 1 && n < batch && c < channels
    requires |tile| == batch * (rows * width) * channels && re == width * channels
    requires forall i: nat, e: nat :: i < rows && e < re ==> Gathered(src, tile, height, start, rows, re, n, i, e)
    requires Holds(f, src, batch, height * width, channels, before, Slot(n, channels, c), n, c, start * width)
    requires Swept(f, tile, batch, rows * width, channels, Band(start == 0, start + rows == height), before, acc, out, n, c)
    ensures Holds(f, src, batch, height * width, channels, acc, Slot(n, channels, c), n, c, (start + rows) * width)
    ensures Slot(n, channels, c) < |out|
    ensures start + rows == height ==> out[Slot(n, channels, c)] == Some(Reduced(f, src, batch, height * width, channels, n, c))
  {
    hide Gathered, Swept, Cell, Slot, Loaded;
    var positions := rows * width;
    MulSub(start + rows, start, width);
    MulOrder(start + rows, height, width);
    forall p: nat | p < positions
      ensures Loaded(src, tile, height * width, channels, n, c, start * width, positions, channels, n, c, p)
    {
      RowLoads(src, tile, height, width, channels, start, rows, re, n, c, p);
    }
    FirstBand(start, width);
    SlotCarries(f, src, batch, height * width, channels, n, c, start * width, tile, batch, positions, channels, n, c,
                Band(start == 0, start + rows == height), before, acc, out);
  }

  lemma FirstBand(start: nat, width: nat)
    requires width >= 1
    ensures start * width == 0 <==> start == 0
  {
    MulOrder(1, width, start);
  }

  /** The reduction in bands of input rows, for any band height: the output is written by the last one. */
  method ExecByInput(f: Reducer, src: seq<Element>, batch: nat, height: nat, width: nat, channels: nat, band: nat,
                     acc: array<Partial>, dst: array<Option<Element>>)
    requires |src| == batch * (height * width) * channels && height >= 1 && width >= 1 && band >= 1
    requires acc.Length == dst.Length == batch * channels && forall i :: 0 <= i < dst.Length ==> dst[i].None?
    modifies acc, dst
    ensures forall n: nat, c: nat :: n < batch && c < channels ==> HasResult(f, src, batch, height * width, channels, dst[..], n, c)
  {
    hide Holds, HasResult, Slot;
    var start := 0;
    forall n: nat, c: nat | n < batch && c < channels
      ensures Holds(f, src, batch, height * width, channels, acc[..], Slot(n, channels, c), n, c, 0 * width)
    {
      NothingHeld(f, src, batch, height * width, channels, acc[..], n, c);
    }
    while start < height
      invariant 0 <= start
      invariant start < height ==> forall n: nat, c: nat :: n < batch && c < channels ==>
        Holds(f, src, batch, height * width, channels, acc[..], Slot(n, channels, c), n, c, start * width)
      invariant start < height ==> forall i :: 0 <= i < dst.Length ==> dst[i].None?
      invariant start >= height ==> forall n: nat, c: nat :: n < batch && c < channels ==>
        HasResult(f, src, batch, height * width, channels, dst[..], n, c)
    {
      var end := if height - start < band then height else start + band;
      ReduceRows(f, src, batch, height, width, channels, start, end, acc, dst);
      start := start + band;
    }
  }

  lemma NothingHeld(f: Reducer, src: seq<Element>, batch: nat, positions: nat, channels: nat, acc: seq<Partial>, n: nat, c: nat)
    requires |src| == batch * positions * channels && n < batch && c < channels && |acc| == batch * channels
    ensures Holds(f, src, batch, positions, channels, acc, Slot(n, channels, c), n, c, 0)
  {
    SlotInRange(batch, channels, n, c);
  }

  // Groups of channels over intervals of positions.

  /** Slot d of the accumulator while the group that starts at `channel` is folded. */
  ghost predicate GroupHolds(f: Reducer, src: seq<Element>, batch: nat, spatial: nat, channels: nat, acc: seq<Partial>, n: nat, channel: nat, d: nat, done: nat)
    requires |src| == batch * spatial * channels && n < batch && channel + d < channels
  {
    Holds(f, src, batch, spatial, channels, acc, d, n, channel + d, done)
  }

  ghost predicate GroupResult(f: Reducer, src: seq<Element>, batch: nat, spatial: nat, channels: nat, out: seq<Option<Element>>, n: nat, channel: nat, d: nat)
    requires |src| == batch * spatial * channels && n < batch && channel + d < channels
  {
    d < |out| && out[d] == Some(Reduced(f, src, batch, spatial, channels, n, channel + d))
  }

  /** One group of channels of one batch: every interval of it, then its outputs. */
  method ReduceGroup(f: Reducer, src: seq<Element>, batch: nat, spatial: nat, channels: nat, n: nat, channel: nat, count: nat, interval: nat,
                     acc: array<Partial>, dst: array<Option<Element>>)
    requires |src| == batch * spatial * channels && n < batch && channel + count <= channels && interval >= 1 && spatial >= 1
    requires count <= acc.Length && dst.Length == batch * channels
    requires Slot(n, channels, channel) + count <= dst.Length
    requires forall i :: Slot(n, channels, channel) <= i < Slot(n, channels, channel) + count ==> dst[i].None?
    modifies acc, dst
    ensures forall c: nat :: channel <= c < channel + count ==> HasResult(f, src, batch, spatial, channels, dst[..], n, c)
    ensures forall i :: 0 <= i < dst.Length && !(Slot(n, channels, channel) <= i < Slot(n, channels, channel) + count) ==> dst[i] == old(dst[i])
  {
    hide GroupHolds, GroupResult, HasResult, Slot;
    var at := Slot(n, channels, channel);
    var start := 0;
    forall d: nat | d < count ensures GroupHolds(f, src, batch, spatial, channels, acc[..], n, channel, d, 0) {
      HoldsNone(f, src, batch, spatial, channels, acc[..], n, channel, d);
    }
    while start < spatial
      invariant 0 <= start <= spatial
      invariant start < spatial ==> forall d: nat :: d < count ==> GroupHolds(f, src, batch, spatial, channels, acc[..], n, channel, d, start)
      invariant start < spatial ==> forall i :: at <= i < at + count ==> dst[i].None?
      invariant start == spatial ==> forall c: nat :: channel <= c < channel + count ==> HasResult(f, src, batch, spatial, channels, dst[..], n, c)
      invariant forall i :: 0 <= i < dst.Length && !(at <= i < at + count) ==> dst[i] == old(dst[i])
    {
      var positions := if spatial - start < interval then spatial - start else interval;
      ghost var before := acc[..];
      var out := ReduceInterval(f, src, batch, spatial, channels, n, channel, count, start, start + positions, spatial - start <= interval, acc);
      if spatial - start <= interval {
        WriteOnce(dst, at, out);
        forall c: nat | channel <= c < channel + count ensures HasResult(f, src, batch, spatial, channels, dst[..], n, c) {
          GroupWritten(f, src, batch, spatial, channels, out, dst[..], n, channel, count, c);
        }
      }
      start := start + positions;
    }
  }

  lemma HoldsNone(f: Reducer, src: seq<Element>, batch: nat, spatial: nat, channels: nat, acc: seq<Partial>, n: nat, channel: nat, d: nat)
    requires |src| == batch * spatial * channels && n < batch && channel + d < channels && d < |acc|
    ensures GroupHolds(f, src, batch, spatial, channels, acc, n, channel, d, 0)
  {}

  lemma GroupWritten(f: Reducer, src: seq<Element>, batch: nat, spatial: nat, channels: nat, out: seq<Option<Element>>, dst: seq<Option<Element>>,
                     n: nat, channel: nat, count: nat, c: nat)
    requires |src| == batch * spatial * channels && n < batch && channel <= c < channel + count == channel + |out| <= channels
    requires forall d: nat :: d < count ==> GroupResult(f, src, batch, spatial, channels, out, n, channel, d)
    requires Slot(n, channels, channel) + count <= |dst|
    requires forall i :: 0 <= i < |dst| ==> Slot(n, channels, channel) <= i < Slot(n, channels, channel) + count ==> dst[i] == out[i - Slot(n, channels, channel)]
    ensures HasResult(f, src, batch, spatial, channels, dst, n, c)
  {
    assert GroupResult(f, src, batch, spatial, channels, out, n, channel, c - channel);
    assert Slot(n, channels, c) == Slot(n, channels, channel) + (c - channel);
  }

  /** One tile: positions [start, end) of channels [channel, channel + count). */
  method ReduceInterval(f: Reducer, src: seq<Element>, batch: nat, spatial: nat, channels: nat, n: nat, channel: nat, count: nat,
                        start: nat, end: nat, last: bool, acc: array<Partial>) returns (out: seq<Option<Element>>)
    requires |src| == batch * spatial * channels && n < batch && channel + count <= channels && start <= end <= spatial
    requires count <= acc.Length && (last ==> end == spatial)
    requires forall d: nat :: d < count ==> GroupHolds(f, src, batch, spatial, channels, acc[..], n, channel, d, start)
    modifies acc
    ensures |out| == count
    ensures forall d: nat :: d < count ==> GroupHolds(f, src, batch, spatial, channels, acc[..], n, channel, d, end)
    ensures last ==> forall d: nat :: d < count ==> GroupResult(f, src, batch, spatial, channels, out, n, channel, d)
  {
    hide GroupHolds, GroupResult, Slot, Swept, Gathered;
    var positions: nat := end - start;
    TileBounds(batch, spatial, channels, n, start, positions);
    var base := (n * spatial + start) * channels;
    var first := src[base..base + positions * channels];
    var tile := GatherRowBand(first, positions, channels, channel, count, 1);
    ghost var before := acc[..];
    out := Pool(f, tile, 1, positions, 1, count, Band(start == 0, last), acc);
    forall d: nat | d < count
      ensures GroupHolds(f, src, batch, spatial, channels, acc[..], n, channel, d, end)
      ensures last ==> GroupResult(f, src, batch, spatial, channels, out, n, channel, d)
    {
      assert Swept(f, tile, 1, positions, count, Band(start == 0, last), before, acc[..], out, 0, d);
      IntervalFolds(f, src, first, tile, batch, spatial, channels, n, channel, count, start, positions, last, before, acc[..], out, d);
    }
  }

  lemma TileBounds(batch: nat, spatial: nat, channels: nat, n: nat, start: nat, positions: nat)
    requires n < batch && start + positions <= spatial
    ensures (n * spatial + start) * channels + positions * channels <= batch * spatial * channels
  {
    NextBlock(n, batch, spatial);
    MulOrder(n * spatial + start + positions, batch * spatial, channels);
    MulSub(n * spatial + start, -(positions as int), channels);
    MulNegate(positions, channels);
  }

  lemma IntervalFolds(f: Reducer, src: seq<Element>, first: seq<Element>, tile: seq<Element>, batch: nat, spatial: nat, channels: nat, n: nat, channel: nat,
                      count: nat, start: nat, positions: nat, last: bool, before: seq<Partial>, acc: seq<Partial>, out: seq<Option<Element>>, d: nat)
    requires |src| == batch * spatial * channels && n < batch && channel + count <= channels && start + positions <= spatial && d < count
    requires |tile| == 1 * positions * count && (last ==> start + positions == spatial)
    requires (n * spatial + start) * channels + positions * channels <= |src|
    requires first == src[(n * spatial + start) * channels..(n * spatial + start) * channels + positions * channels]
    requires forall l: nat, i: nat, e: nat :: l < positions && i < count && e < 1 ==> Gathered(first, tile, channels, channel, count, 1, l, i, e)
    requires GroupHolds(f, src, batch, spatial, channels, before, n, channel, d, start)
    requires Swept(f, tile, 1, positions, count, Band(start == 0, last), before, acc, out, 0, d)
    ensures GroupHolds(f, src, batch, spatial, channels, acc, n, channel, d, start + positions)
    ensures last ==> GroupResult(f, src, batch, spatial, channels, out, n, channel, d)
  {
    hide Holds, Gathered, Swept, Cell, Loaded, Fold;
    var c := channel + d;
    forall p: nat | p < positions ensures Loaded(src, tile, spatial, channels, n, c, start, positions, count, 0, d, p) {
      assert Gathered(first, tile, channels, channel, count, 1, p, d, 0);
      IntervalLoads(src, first, tile, spatial, channels, n, channel, count, start, positions, d, p);
    }
    assert Slot(0, count, d) == d;
    SlotCarries(f, src, batch, spatial, channels, n, c, start, tile, 1, positions, count, 0, d, Band(start == 0, last), before, acc, out);
  }

  lemma IntervalLoads(src: seq<Element>, first: seq<Element>, tile: seq<Element>, spatial: nat, channels: nat, n: nat, channel: nat, count: nat,
                      start: nat, positions: nat, d: nat, p: nat)
    requires channel + count <= channels && d < count && p < positions
    requires (n * spatial + start) * channels + positions * channels <= |src|
    requires first == src[(n * spatial + start) * channels..(n * spatial + start) * channels + positions * channels]
    requires Gathered(first, tile, channels, channel, count, 1, p, d, 0)
    ensures Loaded(src, tile, spatial, channels, n, channel + d, start, positions, count, 0, d, p)
  {
    MulSub(n * spatial + start, -(p as int), channels);
    MulNegate(p, channels);
  }

  /** The whole stage, for any group and interval: the accumulator is one group long. */
  method ExecGrouped(f: Reducer, src: seq<Element>, batch: nat, spatial: nat, channels: nat, group: nat, interval: nat,
                     acc: array<Partial>, dst: array<Option<Element>>)
    requires |src| == batch * spatial * channels && spatial >= 1 && group >= 1 && interval >= 1
    requires acc.Length == group && dst.Length == batch * channels && forall i :: 0 <= i < dst.Length ==> dst[i].None?
    modifies acc, dst
    ensures forall n: nat, c: nat :: n < batch && c < channels ==> HasResult(f, src, batch, spatial, channels, dst[..], n, c)
  {
    hide HasResult, Slot;
    for n: nat := 0 to batch
      invariant forall m: nat, c: nat :: m < n && c < channels ==> HasResult(f, src, batch, spatial, channels, dst[..], m, c)
      invariant forall i :: n * channels <= i < dst.Length ==> dst[i].None?
    {
      NextBlock(n, batch, channels);
      SlotIs(n, channels, 0);
      var channel := 0;
      while channel < channels
        invariant 0 <= channel <= channels
        invariant forall m: nat, c: nat :: m < batch && c < channels && (m < n || (m == n && c < channel)) ==>
          HasResult(f, src, batch, spatial, channels, dst[..], m, c)
        invariant forall i :: n * channels + channel <= i < dst.Length ==> dst[i].None?
      {
        var count := if channels - channel < group then channels - channel else group;
        ghost var before := dst[..];
        SlotIs(n, channels, channel);
        ReduceGroup(f, src, batch, spatial, channels, n, channel, count, interval, acc, dst);
        forall m: nat, c: nat | m < batch && c < channels && (m < n || (m == n && c < channel + count))
          ensures HasResult(f, src, batch, spatial, channels, dst[..], m, c)
        {
          if m < n || c < channel {
            StillThere(f, src, batch, spatial, channels, before, dst[..], n, channel, count, m, c);
          }
        }
        channel := channel + count;
      }
      MulSub(n, -1, channels);
    }
  }

  lemma SlotIs(n: nat, channels: nat, c: nat)
    ensures Slot(n, channels, c) == n * channels + c
  {}

  lemma StillThere(f: Reducer, src: seq<Element>, batch: nat, spatial: nat, channels: nat, before: seq<Option<Element>>, dst: seq<Option<Element>>,
                   n: nat, channel: nat, count: nat, m: nat, c: nat)
    requires |src| == batch * spatial * channels && m < batch && c < channels && |dst| == |before|
    requires HasResult(f, src, batch, spatial, channels, before, m, c) && (m < n || (m == n && c < channel))
    requires forall i :: 0 <= i < |dst| && !(Slot(n, channels, channel) <= i < Slot(n, channels, channel) + count) ==> dst[i] == before[i]
    ensures HasResult(f, src, batch, spatial, channels, dst, m, c)
  {
    if m < n { NextBlock(m, n, channels); }
  }
}
