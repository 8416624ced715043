/**
 * Reshapes in bands: the view both shapes share, and that copying it band by
 * band, each side counted in its own rows, moves no element.
 */
module Reshape {
  import opened Rows
  import opened Permute
  import opened TransposeBand

  /** Both sides as blocks of rows; the blocks are the same bytes. */
  datatype View = View(blocks: nat, inputRows: nat, inputWidth: nat, outputRows: nat, outputWidth: nat, inputAxis: nat)

  /** The axis a mode bands: the last but one, the second, or the first past the unit axes. */
  function Axis(shape: seq<nat>, mode: nat): (axis: nat)
    requires |shape| >= 2
    ensures axis < |shape|
    ensures mode > 1 ==> (forall k :: 0 <= k < axis ==> shape[k] == 1) && (axis + 1 < |shape| ==> shape[axis] != 1)
  {
    if mode == 0 then |shape| - 2 else if mode == 1 then 1 else FirstWide(shape, 0)
  }

  function FirstWide(shape: seq<nat>, from: nat): (axis: nat)
    requires from < |shape|
    ensures from <= axis < |shape|
    ensures forall k :: from <= k < axis ==> shape[k] == 1
    ensures axis + 1 < |shape| ==> shape[axis] != 1
    decreases |shape| - from
  {
    if from + 1 < |shape| && shape[from] == 1 then FirstWide(shape, from + 1) else from
  }

  function ViewAt(a: seq<nat>, b: seq<nat>, mode: nat): View
    requires |a| >= 2 && |b| >= 2
  {
    var ia, ib := Axis(a, mode), Axis(b, mode);
    View(Size(a[..ia]), a[ia], Size(a[ia + 1..]), b[ib], Size(b[ib + 1..]), ia)
  }

  /** A mode shows both shapes as the same blocks. */
  predicate Serves(a: seq<nat>, b: seq<nat>, mode: nat)
    requires |a| >= 2 && |b| >= 2
  {
    var v := ViewAt(a, b, mode);
    v.blocks == Size(b[..Axis(b, mode)]) && v.inputRows * v.inputWidth == v.outputRows * v.outputWidth && v.inputRows > 1
  }

  method Extents(shape: seq<nat>, axis: nat) returns (ahead: nat, behind: nat)
    requires axis < |shape|
    ensures ahead == Size(shape[..axis]) && behind == Size(shape[axis + 1..])
  {
    ahead, behind := 1, 1;
    for i: nat := 0 to |shape|
      invariant ahead == Size(shape[..Min(i, axis)])
      invariant behind == if i <= axis + 1 then 1 else Size(shape[axis + 1..i])
    {
      if i < axis { SizeMore(shape, 0, i); ahead := ahead * shape[i]; }
      if i > axis { SizeMore(shape, axis + 1, i); behind := behind * shape[i]; }
    }
    assert shape[axis + 1..|shape|] == shape[axis + 1..];
  }

  lemma SizeMore(shape: seq<nat>, from: nat, i: nat)
    requires from <= i < |shape|
    ensures Size(shape[from..i + 1]) == Size(shape[from..i]) * shape[i] && Size(shape[from..from]) == 1
    ensures shape[0..i] == shape[..i]
  {
    SizeAppend(shape[from..i], [shape[i]]);
    assert shape[from..i + 1] == shape[from..i] + [shape[i]];
  }

  /** The first mode that serves, of those tried: without an own axis order the first mode is not. */
  ghost predicate FirstServing(a: seq<nat>, b: seq<nat>, ownOrder: bool, mode: nat)
    requires |a| >= 2 && |b| >= 2
  {
    var first := if ownOrder then 0 else 1;
    first <= mode < 3 && Serves(a, b, mode) && forall m: nat :: first <= m < mode ==> !Serves(a, b, m)
  }

  /** The first mode that serves; ownOrder says whether both tensors state their own axis order. */
  method ReshapeBand(a: seq<nat>, b: seq<nat>, ownOrder: bool) returns (view: Option<View>)
    requires |a| >= 2 && |b| >= 2
    ensures view.None? <==> forall mode: nat :: (if ownOrder then 0 else 1) <= mode < 3 ==> !Serves(a, b, mode)
    ensures view.Some? ==> var v := view.value;
      && v.blocks * v.inputRows * v.inputWidth == Size(a) && v.blocks * v.outputRows * v.outputWidth == Size(b)
      && v.inputRows * v.inputWidth == v.outputRows * v.outputWidth && v.inputRows > 1
      && v.inputAxis < |a| && v.inputRows == a[v.inputAxis]
    ensures view.Some? ==> exists mode: nat :: FirstServing(a, b, ownOrder, mode) && view.value == ViewAt(a, b, mode)
  {
    var first := if ownOrder then 0 else 1;
    for mode: nat := first to 3
      invariant forall m: nat :: first <= m < mode ==> !Serves(a, b, m)
    {
      var ia := if mode == 0 then |a| - 2 else 1;
      var ib := if mode == 0 then |b| - 2 else 1;
      if mode == 2 {
        ia := PastUnits(a);
        ib := PastUnits(b);
      }
      var blocks, ci := Extents(a, ia);
      var other, co := Extents(b, ib);
      if blocks == other && a[ia] * ci == b[ib] * co && a[ia] > 1 {
        SizeAround(a, ia);
        SizeAround(b, ib);
        assert ViewAt(a, b, mode) == View(blocks, a[ia], ci, b[ib], co, ia) && Serves(a, b, mode);
        assert FirstServing(a, b, ownOrder, mode);
        return Some(View(blocks, a[ia], ci, b[ib], co, ia));
      }
      assert !Serves(a, b, mode);
    }
    return None;
  }

  method PastUnits(shape: seq<nat>) returns (axis: nat)
    requires |shape| >= 1
    ensures axis == FirstWide(shape, 0)
  {
    axis := 0;
    while axis + 1 < |shape| && shape[axis] == 1
      invariant axis < |shape| && FirstWide(shape, 0) == FirstWide(shape, axis)
    {
      axis := axis + 1;
    }
  }

  lemma SizeAround(shape: seq<nat>, axis: nat)
    requires axis < |shape|
    ensures Size(shape[..axis]) * shape[axis] * Size(shape[axis + 1..]) == Size(shape)
  {
    assert shape == shape[..axis] + shape[axis..] && shape[axis..][1..] == shape[axis + 1..];
    SizeAppend(shape[..axis], shape[axis..]);
    MulAssoc(Size(shape[..axis]), shape[axis], Size(shape[axis + 1..]));
  }

  // Copying.

  /** Element y of block l. */
  ghost predicate Same(was: seq<Element>, now: seq<Element>, size: nat, l: nat, y: nat) {
    l * size + y < |was| == |now| && now[l * size + y] == was[l * size + y]
  }

  /** Rows within a block are consecutive. */
  lemma CellInBlock(l: nat, len: nat, i: nat, re: nat, e: nat)
    ensures Cell(l, len, i, re, e) == l * (len * re) + (i * re + e)
  {
    MulSub(l * len, -(i as int), re);
    MulNegate(i, re);
    MulAssoc(l, len, re);
  }

  lemma RowOf(y: nat, re: nat) returns (i: nat, e: nat)
    requires re >= 1
    ensures e < re && y == i * re + e
  {
    i, e := y / re, y % re;
    assert y == (y / re) * re + y % re;
  }

  lemma RowBound(i: nat, re: nat, e: nat, n: nat)
    requires e < re
    ensures i < n <==> i * re + e < n * re
  {
    if i < n { NextBlock(i, n, re); } else { MulOrder(n, i, re); }
  }

  /** A band of both sides: the same bytes, so what lands where is what was there. */
  lemma BandCarries(orig: seq<Element>, buf: seq<Element>, before: seq<Element>, after: seq<Element>, v: View,
                    start: nat, count: nat, toStart: nat, toCount: nat, l: nat, y: nat)
    requires v.inputRows * v.inputWidth == v.outputRows * v.outputWidth && v.inputWidth >= 1 && v.outputWidth >= 1
    requires start + count <= v.inputRows && toStart + toCount <= v.outputRows
    requires toStart * v.outputWidth == start * v.inputWidth && toCount * v.outputWidth == count * v.inputWidth
    requires l < v.blocks && y < v.inputRows * v.inputWidth && |orig| == |after|
    requires forall i: nat, e: nat :: i < count && e < v.inputWidth ==> Gathered(orig, buf, v.inputRows, start, count, v.inputWidth, l, i, e)
    requires forall i: nat, e: nat :: i < v.outputRows && e < v.outputWidth ==>
      Scattered(before, after, buf, v.outputRows, toStart, toCount, v.outputWidth, l, i, e)
    ensures if start * v.inputWidth <= y < (start + count) * v.inputWidth then Same(orig, after, v.inputRows * v.inputWidth, l, y)
            else Same(before, after, v.inputRows * v.inputWidth, l, y)
  {
    hide Gathered, Scattered, Cell;
    var W, V := v.inputWidth, v.outputWidth;
    MulSub(start + count, start, W);
    MulSub(toStart + toCount, toStart, V);
    var i, e := RowOf(y, V);
    RowBound(i, V, e, v.outputRows);
    RowBound(i, V, e, toStart);
    RowBound(i, V, e, toStart + toCount);
    assert Scattered(before, after, buf, v.outputRows, toStart, toCount, V, l, i, e);
    CellInBlock(l, v.outputRows, i, V, e);
    if toStart <= i < toStart + toCount {
      CellInBlock(l, toCount, i - toStart, V, e);
      MulSub(i, toStart, V);
      var j, g := RowOf(y - start * W, W);
      RowBound(j, W, g, count);
      assert Gathered(orig, buf, v.inputRows, start, count, W, l, j, g);
      CellInBlock(l, count, j, W, g);
      CellInBlock(l, v.inputRows, start + j, W, g);
      MulSub(start + j, start, W);
      Carries(orig, buf, before, after, v, start, count, toStart, toCount, l, y, i, e, j, g);
    } else {
      Leaves(before, after, buf, v, toStart, toCount, l, y, i, e);
    }
  }

  lemma Carries(orig: seq<Element>, buf: seq<Element>, before: seq<Element>, after: seq<Element>, v: View,
                start: nat, count: nat, toStart: nat, toCount: nat, l: nat, y: nat, i: nat, e: nat, j: nat, g: nat)
    requires toStart <= i < toStart + toCount
    requires Scattered(before, after, buf, v.outputRows, toStart, toCount, v.outputWidth, l, i, e)
    requires Gathered(orig, buf, v.inputRows, start, count, v.inputWidth, l, j, g)
    requires Cell(l, toCount, i - toStart, v.outputWidth, e) == Cell(l, count, j, v.inputWidth, g)
    requires Cell(l, v.outputRows, i, v.outputWidth, e) == Cell(l, v.inputRows, start + j, v.inputWidth, g) == l * (v.inputRows * v.inputWidth) + y
    requires |orig| == |after|
    ensures Same(orig, after, v.inputRows * v.inputWidth, l, y)
  {}

  lemma Leaves(before: seq<Element>, after: seq<Element>, buf: seq<Element>, v: View, toStart: nat, toCount: nat, l: nat, y: nat, i: nat, e: nat)
    requires !(toStart <= i < toStart + toCount)
    requires Scattered(before, after, buf, v.outputRows, toStart, toCount, v.outputWidth, l, i, e)
    requires Cell(l, v.outputRows, i, v.outputWidth, e) == l * (v.inputRows * v.inputWidth) + y
    ensures Same(before, after, v.inputRows * v.inputWidth, l, y)
  {}

  /** Rows [start, start + count) of the input side copied as rows of the output side. */
  method CopyBand(input: array<Element>, output: array<Element>, v: View, start: nat, count: nat, toStart: nat, toCount: nat)
    requires Copyable(v) && input.Length == output.Length == v.blocks * v.inputRows * v.inputWidth
    requires start + count <= v.inputRows && toStart + toCount <= v.outputRows
    requires toStart * v.outputWidth == start * v.inputWidth && toCount * v.outputWidth == count * v.inputWidth
    modifies output
    ensures forall l: nat, y: nat :: l < v.blocks && y < v.inputRows * v.inputWidth ==>
      BandCopied(old(input[..]), old(output[..]), output[..], v, start, count, l, y)
  {
    hide Gathered, Scattered, BandCopied, Cell, Same;
    SameBlocks(v, count, toCount);
    ghost var orig, before := input[..], output[..];
    var buf := GatherRowBand(input[..], v.blocks, v.inputRows, start, count, v.inputWidth);
    ScatterRowBand(output, buf, v.blocks, v.outputRows, toStart, toCount, v.outputWidth);
    forall l: nat, y: nat | l < v.blocks && y < v.inputRows * v.inputWidth ensures BandCopied(orig, before, output[..], v, start, count, l, y) {
      BandCarries(orig, buf, before, output[..], v, start, count, toStart, toCount, l, y);
      CopiedIs(orig, before, output[..], v, start, count, l, y);
    }
  }

  predicate Copyable(v: View) {
    v.inputRows * v.inputWidth == v.outputRows * v.outputWidth && v.inputWidth >= 1 && v.outputWidth >= 1
  }

  ghost predicate BandCopied(orig: seq<Element>, before: seq<Element>, after: seq<Element>, v: View, start: nat, count: nat, l: nat, y: nat) {
    if start * v.inputWidth <= y < (start + count) * v.inputWidth then Same(orig, after, v.inputRows * v.inputWidth, l, y)
    else Same(before, after, v.inputRows * v.inputWidth, l, y)
  }

  lemma CopiedIs(orig: seq<Element>, before: seq<Element>, after: seq<Element>, v: View, start: nat, count: nat, l: nat, y: nat)
    requires if start * v.inputWidth <= y < (start + count) * v.inputWidth then Same(orig, after, v.inputRows * v.inputWidth, l, y)
             else Same(before, after, v.inputRows * v.inputWidth, l, y)
    ensures BandCopied(orig, before, after, v, start, count, l, y)
  {}

  lemma SameBlocks(v: View, count: nat, toCount: nat)
    requires Copyable(v) && toCount * v.outputWidth == count * v.inputWidth
    ensures v.blocks * v.inputRows * v.inputWidth == v.blocks * v.outputRows * v.outputWidth
    ensures v.blocks * count * v.inputWidth == v.blocks * toCount * v.outputWidth
  {
    MulAssoc(v.blocks, v.inputRows, v.inputWidth);
    MulAssoc(v.blocks, v.outputRows, v.outputWidth);
    MulAssoc(v.blocks, count, v.inputWidth);
    MulAssoc(v.blocks, toCount, v.outputWidth);
  }

  datatype ReshapeResult = Ok | ErrTile

  /** A band the executor accepts: a whole number of output rows. */
  predicate TileValid(v: View, band: nat)
    requires v.outputWidth >= 1
  {
    1 <= band <= v.inputRows && (band * v.inputWidth) % v.outputWidth == 0
  }

  /**
   * The stage: a band height is refused or the output holds the input's
   * elements, in order, whether it has its own buffer or the input's.
   */
  method ExecReshape(input: array<Element>, output: array<Element>, v: View, band: nat) returns (res: ReshapeResult)
    requires Copyable(v) && input.Length == output.Length == v.blocks * v.inputRows * v.inputWidth
    modifies output
    ensures res.Ok? <==> TileValid(v, band)
    ensures res.Ok? ==> output[..] == old(input[..])
    ensures res.ErrTile? ==> output[..] == old(output[..])
  {
    hide BandCopied, Same;
    if band == 0 || band > v.inputRows || (band * v.inputWidth) % v.outputWidth != 0 { return ReshapeResult.ErrTile; }
    ghost var orig, size := input[..], v.inputRows * v.inputWidth;
    var start: nat := 0;
    while start < v.inputRows
      invariant start % band == 0 && input[..] == orig
      invariant forall l: nat, y: nat :: l < v.blocks && y < size ==> y < start * v.inputWidth ==> Same(orig, output[..], size, l, y)
      decreases v.inputRows - start
    {
      var count: nat := v.inputRows - start;
      if count > band { count := band; }
      Divisible(v, band, start, count);
      var toStart, toCount := start * v.inputWidth / v.outputWidth, count * v.inputWidth / v.outputWidth;
      ghost var before := output[..];
      CopyBand(input, output, v, start, count, toStart, toCount);
      forall l: nat, y: nat | l < v.blocks && y < size
        ensures y < (start + band) * v.inputWidth ==> Same(orig, output[..], size, l, y)
        ensures input == output ==> Same(orig, output[..], size, l, y)
      {
        assert BandCopied(orig, before, output[..], v, start, count, l, y);
        StepCopied(orig, before, output[..], v, start, count, band, l, y, input == output);
      }
      if input == output { AllSame(orig, output[..], v); }
      NextBand(start, band);
      start := start + band;
    }
    forall l: nat, y: nat | l < v.blocks && y < size ensures Same(orig, output[..], size, l, y) {
      MulOrder(v.inputRows, start, v.inputWidth);
    }
    AllSame(orig, output[..], v);
    return ReshapeResult.Ok;
  }

  lemma NextBand(start: nat, band: nat)
    requires band >= 1 && start % band == 0
    ensures (start + band) % band == 0
  {
    var q := start / band;
    assert start == q * band + start % band;
    assert start + band == (q + 1) * band + 0;
    var q2, r2 := (start + band) / band, (start + band) % band;
    assert start + band == q2 * band + r2;
    LeadingDigit(q + 1, 0, q2, r2, band);
  }

  /** Every band, the last one too, is a whole number of output rows at a whole output row. */
  lemma Divisible(v: View, band: nat, start: nat, count: nat)
    requires Copyable(v) && TileValid(v, band) && start % band == 0 && start < v.inputRows && count == Min(band, v.inputRows - start)
    ensures (start * v.inputWidth / v.outputWidth) * v.outputWidth == start * v.inputWidth
    ensures (count * v.inputWidth / v.outputWidth) * v.outputWidth == count * v.inputWidth
    ensures start * v.inputWidth / v.outputWidth + count * v.inputWidth / v.outputWidth <= v.outputRows
  {
    var W, V := v.inputWidth, v.outputWidth;
    var q, k := start / band, (band * W) / V;
    assert start == q * band;
    assert band * W == k * V;
    MulAssoc(q, band, W);
    MulAssoc(q, k, V);
    Quotient(q * k, V);
    MulSub(v.inputRows, start, W);
    MulSub(v.outputRows, q * k, V);
    if count == band { Quotient(k, V); } else { FewerRows(v.outputRows, q * k, V); Quotient(v.outputRows - q * k, V); }
    var s, c := start * W / V, count * W / V;
    MulSub(s, -(c as int), V);
    MulNegate(c, V);
    MulSub(start, -(count as int), W);
    MulNegate(count, W);
    MulOrder(start + count, v.inputRows, W);
    FewerRows(v.outputRows, s + c, V);
  }

  lemma Quotient(n: nat, d: nat)
    requires d >= 1
    ensures n * d / d == n
  {
    var x := n * d;
    assert x == (x / d) * d + x % d;
    LeadingDigit(n, 0, x / d, x % d, d);
  }

  lemma FewerRows(n: nat, m: nat, d: nat)
    requires d >= 1 && n * d >= m * d
    ensures n >= m
  {
    if n < m { NextBlock(n, m, d); }
  }

  lemma StepCopied(orig: seq<Element>, before: seq<Element>, after: seq<Element>, v: View, start: nat, count: nat, band: nat, l: nat, y: nat, alias: bool)
    requires y < v.inputRows * v.inputWidth && count == Min(band, v.inputRows - start)
    requires BandCopied(orig, before, after, v, start, count, l, y)
    requires y < start * v.inputWidth ==> Same(orig, before, v.inputRows * v.inputWidth, l, y)
    requires alias ==> before == orig
    ensures y < (start + band) * v.inputWidth ==> Same(orig, after, v.inputRows * v.inputWidth, l, y)
    ensures alias ==> Same(orig, after, v.inputRows * v.inputWidth, l, y)
  {
    MulOrder(v.inputRows, start + count, v.inputWidth);
  }

  lemma AllSame(orig: seq<Element>, now: seq<Element>, v: View)
    requires Copyable(v) && |orig| == |now| == v.blocks * v.inputRows * v.inputWidth
    requires forall l: nat, y: nat :: l < v.blocks && y < v.inputRows * v.inputWidth ==> Same(orig, now, v.inputRows * v.inputWidth, l, y)
    ensures now == orig
  {
    var size := v.inputRows * v.inputWidth;
    MulAssoc(v.blocks, v.inputRows, v.inputWidth);
    forall x | 0 <= x < |orig| ensures now[x] == orig[x] {
      if size == 0 { MulOrder(0, 0, v.blocks); }
      var l, y := RowOf(x, size);
      RowBound(l, size, y, v.blocks);
      assert Same(orig, now, size, l, y);
    }
  }

  predicate PositiveShape(shape: seq<nat>) { forall d :: 0 <= d < |shape| ==> shape[d] >= 1 }

  lemma {:induction false} SizeIsPositive(shape: seq<nat>)
    requires PositiveShape(shape)
    ensures Size(shape) >= 1
  {
    if |shape| > 0 {
      SizeIsPositive(shape[1..]);
      MulOrder(1, shape[0], Size(shape[1..]));
    }
  }

  /** Some mode shows both shapes as one view, and the plan's band is whole output rows of it. */
  ghost predicate Bandable(a: seq<nat>, b: seq<nat>, ownOrder: bool, band: nat)
    requires |a| >= 2 && |b| >= 2
  {
    exists mode: nat :: FirstServing(a, b, ownOrder, mode) && ViewAt(a, b, mode).outputWidth >= 1 && TileValid(ViewAt(a, b, mode), band)
  }

  /**
   * A reshape stage from its shapes alone: it runs exactly when a mode serves
   * and the plan's band divides under it, and then the output, in its own
   * buffer or the input's, holds the input's elements in order.
   */
  method RunReshape(input: array<Element>, output: array<Element>, a: seq<nat>, b: seq<nat>, ownOrder: bool, band: nat)
    returns (res: ReshapeResult)
    requires |a| >= 2 && |b| >= 2 && PositiveShape(a) && PositiveShape(b)
    requires input.Length == Size(a) && output.Length == Size(b)
    modifies output
    ensures res.Ok? <==> Bandable(a, b, ownOrder, band)
    ensures res.Ok? ==> output[..] == old(input[..])
    ensures res.ErrTile? ==> output[..] == old(output[..])
  {
    hide Serves, ViewAt;
    var view := ReshapeBand(a, b, ownOrder);
    if view.None? { return ReshapeResult.ErrTile; }
    ghost var mode: nat :| FirstServing(a, b, ownOrder, mode) && view.value == ViewAt(a, b, mode);
    forall m: nat | FirstServing(a, b, ownOrder, m) ensures m == mode {}
    ViewCopies(a, b, view.value);
    res := ExecReshape(input, output, view.value, band);
  }

  /** A view of two shapes of positive extents can be copied. */
  lemma ViewCopies(a: seq<nat>, b: seq<nat>, v: View)
    requires PositiveShape(a) && PositiveShape(b)
    requires v.blocks * v.inputRows * v.inputWidth == Size(a) && v.blocks * v.outputRows * v.outputWidth == Size(b)
    requires v.inputRows * v.inputWidth == v.outputRows * v.outputWidth
    ensures Copyable(v) && Size(a) == Size(b)
  {
    SizeIsPositive(a);
    SizeIsPositive(b);
    MulAssoc(v.blocks, v.inputRows, v.inputWidth);
    MulAssoc(v.blocks, v.outputRows, v.outputWidth);
  }
}
