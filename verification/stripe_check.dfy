/**
 * The static check that every operator of a banded stage reads the band its
 * executor holds, for the height stripe and for a stage of a chain, and what
 * an accepted stage gives the stripe.
 */
module StripeCheck {
  import opened Rows
  import opened BandPlan
  import opened BandRanges

  /** The executor that runs the stage as one band. */
  datatype Holder = ByStripe | ByChain

  /** A stage of rank-3 or rank-4 tensors: its operators, the width of every tensor, its inputs and outputs. */
  datatype Stage = Stage(holder: Holder, p: Plan, widths: seq<nat>, rank4: bool, ins: seq<Tensor>, outs: seq<Tensor>)

  predicate Shaped(s: Stage) {
    && InRange(s.p) && |s.widths| == |s.p.heights| && |s.ins| >= 1 && |s.outs| >= 1
    && (forall i :: 0 <= i < |s.ins| ==> s.ins[i] < |s.p.heights|)
    && (forall i :: 0 <= i < |s.outs| ==> s.outs[i] < |s.p.heights|)
  }

  /** Whether an operator moves the band: its rows, or, at rank 4, its width. */
  predicate MovesBand(s: Stage, op: Op)
    requires Shaped(s) && OpInRange(s.p, op)
  {
    Moves(s.p, op) || (op.kernel.Spatial? && s.rank4 && s.widths[op.ins[0]] != s.widths[op.outs[0]])
  }

  predicate OneRow(s: Stage, t: Tensor)
    requires Shaped(s) && t < |s.p.heights|
  {
    s.rank4 && s.p.heights[t] == 1
  }

  predicate SameExtents(s: Stage, a: Tensor, b: Tensor)
    requires Shaped(s) && a < |s.p.heights| && b < |s.p.heights|
  {
    s.p.heights[a] == s.p.heights[b] && (s.rank4 ==> s.widths[a] == s.widths[b])
  }

  /** A chain starts from its first input; the stripe from the first that is not one row high, or the first. */
  function BandInput(s: Stage): (t: Tensor)
    requires Shaped(s)
    ensures t in s.ins && t < |s.p.heights|
  {
    if s.holder.ByChain? then s.ins[0] else BandInputFrom(s, 0)
  }

  function BandInputFrom(s: Stage, i: nat): (t: Tensor)
    requires Shaped(s) && i <= |s.ins|
    ensures t in s.ins && t < |s.p.heights|
    decreases |s.ins| - i
  {
    if i == |s.ins| then s.ins[0]
    else if !OneRow(s, s.ins[i]) then s.ins[i]
    else BandInputFrom(s, i + 1)
  }

  /** Input i is the first that is not one row high, or the first of all where every one is. */
  ghost predicate IsFirstTall(s: Stage, i: nat)
    requires Shaped(s) && i < |s.ins|
  {
    && (forall l :: 0 <= l < i ==> s.rank4 && s.p.heights[s.ins[l]] == 1)
    && (s.rank4 && s.p.heights[s.ins[i]] == 1 ==>
          i == 0 && forall l :: 0 <= l < |s.ins| ==> s.p.heights[s.ins[l]] == 1)
  }

  method FindBandInput(s: Stage) returns (t: Tensor)
    requires Shaped(s)
    ensures t == BandInput(s)
    ensures s.holder.ByChain? ==> t == s.ins[0]
    ensures s.holder.ByStripe? ==> exists i :: 0 <= i < |s.ins| && t == s.ins[i] && IsFirstTall(s, i)
  {
    if s.holder.ByStripe? {
      var n := |s.ins|;
      for i := 0 to n
        invariant BandInput(s) == BandInputFrom(s, i)
        invariant forall l :: 0 <= l < i ==> s.rank4 && s.p.heights[s.ins[l]] == 1
      {
        if !OneRow(s, s.ins[i]) { return s.ins[i]; }
      }
    }
    return s.ins[0];
  }

  /** Whether the operator at `position` finds t at the band's rows: produced or read in with no move since. */
  predicate ReadsTheBand(s: Stage, position: nat, t: Tensor)
    requires Shaped(s) && position <= |s.p.ops|
  {
    if position == 0 then t in s.ins
    else
      assert OpInRange(s.p, s.p.ops[position - 1]);
      t in s.p.ops[position - 1].outs
      || (!MovesBand(s, s.p.ops[position - 1]) && ReadsTheBand(s, position - 1, t))
  }

  method FindOnBand(s: Stage, position: nat, t: Tensor) returns (found: bool)
    requires Shaped(s) && position <= |s.p.ops|
    ensures found == ReadsTheBand(s, position, t)
  {
    var j := position;
    while j > 0
      invariant 0 <= j <= position && ReadsTheBand(s, position, t) == ReadsTheBand(s, j, t)
    {
      var op := s.p.ops[j - 1];
      assert OpInRange(s.p, op);
      if t in op.outs { return true; }
      if MovesBand(s, op) { return false; }
      j := j - 1;
    }
    return t in s.ins;
  }

  /** A tensor with the extents of the band ahead of operator j. */
  function ExtentsAt(s: Stage, j: nat): (t: Tensor)
    requires Shaped(s) && j <= |s.p.ops|
    ensures t < |s.p.heights|
  {
    if j == 0 then BandInput(s)
    else
      assert OpInRange(s.p, s.p.ops[j - 1]);
      if MovesBand(s, s.p.ops[j - 1]) then s.p.ops[j - 1].outs[0] else ExtentsAt(s, j - 1)
  }

  predicate IsBinary(op: Op) { op.kernel.Pointwise? && op.kernel.binary && |op.ins| >= 2 }

  /** The operand is on the band; the stripe alone may broadcast a one-row operand. */
  predicate InputAccepted(s: Stage, j: nat, i: nat)
    requires Shaped(s) && j < |s.p.ops| && i < |s.p.ops[j].ins|
  {
    var op := s.p.ops[j];
    assert OpInRange(s.p, op);
    && ReadsTheBand(s, j, op.ins[i])
    && (SameExtents(s, op.ins[i], ExtentsAt(s, j)) || (s.holder.ByStripe? && IsBinary(op) && OneRow(s, op.ins[i])))
  }

  predicate OutputAccepted(s: Stage, j: nat, k: nat)
    requires Shaped(s) && j < |s.p.ops| && k < |s.p.ops[j].outs|
  {
    assert OpInRange(s.p, s.p.ops[j]);
    SameExtents(s, s.p.ops[j].outs[k], ExtentsAt(s, j + 1))
  }

  /** A two-operand elementwise operator of a chain needs only one operand on the band: the chain shifts the other. */
  predicate NeedsOne(s: Stage, j: nat)
    requires Shaped(s) && j < |s.p.ops|
  {
    s.holder.ByChain? && IsBinary(s.p.ops[j]) && |s.p.ops[j].ins| == 2
  }

  predicate OpAccepted(s: Stage, j: nat)
    requires Shaped(s) && j < |s.p.ops|
  {
    && (if NeedsOne(s, j) then exists i :: 0 <= i < |s.p.ops[j].ins| && InputAccepted(s, j, i)
        else forall i :: 0 <= i < |s.p.ops[j].ins| ==> InputAccepted(s, j, i))
    && (forall k :: 0 <= k < |s.p.ops[j].outs| ==> OutputAccepted(s, j, k))
  }

  predicate Accepted(s: Stage)
    requires Shaped(s)
  {
    forall j :: 0 <= j < |s.p.ops| ==> OpAccepted(s, j)
  }

  /** Counts the operands on the band, the running extents alongside. */
  method StageReadsItsBand(s: Stage) returns (ok: bool)
    requires Shaped(s)
    ensures ok <==> Accepted(s)
  {
    var extents := FindBandInput(s);
    var n := |s.p.ops|;
    for j := 0 to n
      invariant extents == ExtentsAt(s, j)
      invariant forall i :: 0 <= i < j ==> OpAccepted(s, i)
    {
      ok, extents := OpReadsItsBand(s, j, extents);
      if !ok {
        assert !OpAccepted(s, j);
        return;
      }
    }
    return true;
  }

  method OpReadsItsBand(s: Stage, j: nat, extents: Tensor) returns (ok: bool, next: Tensor)
    requires Shaped(s) && j < |s.p.ops| && extents == ExtentsAt(s, j)
    ensures ok <==> OpAccepted(s, j)
    ensures ok ==> next == ExtentsAt(s, j + 1)
  {
    var op := s.p.ops[j];
    assert OpInRange(s.p, op);
    next := extents;
    var onBand := 0;
    for i := 0 to |op.ins|
      invariant 0 <= onBand <= i
      invariant onBand == i <==> forall l :: 0 <= l < i ==> InputAccepted(s, j, l)
      invariant onBand > 0 <==> exists l :: 0 <= l < i && InputAccepted(s, j, l)
    {
      var found := FindOnBand(s, j, op.ins[i]);
      if found && (SameExtents(s, op.ins[i], extents) || (s.holder.ByStripe? && IsBinary(op) && OneRow(s, op.ins[i]))) {
        assert InputAccepted(s, j, i);
        onBand := onBand + 1;
      } else {
        assert !InputAccepted(s, j, i);
      }
    }
    if s.holder.ByChain? && |op.ins| == 2 && IsBinary(op) {
      if onBand == 0 { return false, next; }
    } else if onBand != |op.ins| {
      return false, next;
    }
    if MovesBand(s, op) { next := op.outs[0]; }
    for k := 0 to |op.outs|
      invariant forall l :: 0 <= l < k ==> OutputAccepted(s, j, l)
    {
      if !SameExtents(s, op.outs[k], next) {
        assert !OutputAccepted(s, j, k);
        return false, next;
      }
    }
    return true, next;
  }

  // What an accepted stage gives.

  /** The stripe contract: at most one window operator. */
  predicate OneSpatial(s: Stage) {
    forall i, j :: 0 <= i < j < |s.p.ops| ==> !(s.p.ops[i].kernel.Spatial? && s.p.ops[j].kernel.Spatial?)
  }

  /** The stage's window operator, if it has one. */
  function SpatialOp(s: Stage): (j: Option<nat>)
    ensures j.None? ==> forall i :: 0 <= i < |s.p.ops| ==> s.p.ops[i].kernel.Pointwise?
    ensures j.Some? ==> j.value < |s.p.ops| && s.p.ops[j.value].kernel.Spatial?
  {
    SpatialBelow(s, |s.p.ops|)
  }

  function SpatialBelow(s: Stage, n: nat): (j: Option<nat>)
    requires n <= |s.p.ops|
    ensures j.None? ==> forall i :: 0 <= i < n ==> s.p.ops[i].kernel.Pointwise?
    ensures j.Some? ==> j.value < n && s.p.ops[j.value].kernel.Spatial?
  {
    if n == 0 then None
    else if s.p.ops[n - 1].kernel.Spatial? then Some(n - 1)
    else SpatialBelow(s, n - 1)
  }

  /** The tensor whose rows the bands cover: the window operator's output, else the stage's first. */
  function BandOutput(s: Stage): (t: Tensor)
    requires Shaped(s)
    ensures t < |s.p.heights|
  {
    match SpatialOp(s)
    case None => s.outs[0]
    case Some(j) => assert OpInRange(s.p, s.p.ops[j]); s.p.ops[j].outs[0]
  }

  function OutH(s: Stage): nat
    requires Shaped(s)
  {
    s.p.heights[BandOutput(s)]
  }

  /** What the loader establishes of a stripe's stage besides the check. */
  ghost predicate Loaded(s: Stage) {
    && s.holder.ByStripe? && Shaped(s) && OneSpatial(s) && Ordered(s.p)
    && (forall j :: 0 <= j < |s.p.ops| && s.p.ops[j].kernel.Spatial? ==>
          Geometry(s.p.ops[j].kernel.w, s.p.heights[s.p.ops[j].ins[0]], s.p.heights[s.p.ops[j].outs[0]]))
    && (forall i :: 0 <= i < |s.outs| ==> Produced(s, s.outs[i]))
    && (forall i, j :: 0 <= i < j < |s.outs| ==> s.outs[i] != s.outs[j])
    && (forall i, j :: 0 <= i < |s.ins| && 0 <= j < |s.p.ops| ==> s.ins[i] !in s.p.ops[j].outs)
  }

  ghost predicate Produced(s: Stage, t: Tensor) {
    exists j :: 0 <= j < |s.p.ops| && t in s.p.ops[j].outs
  }

  /** Rows of the running extents are the rows of the band: the input's ahead of the window operator, its output's after. */
  lemma {:induction false} ExtentsRows(s: Stage, j: nat)
    requires Loaded(s) && Accepted(s) && j <= |s.p.ops|
    ensures s.p.heights[ExtentsAt(s, j)] ==
      if SpatialOp(s).Some? && SpatialOp(s).value < j then s.p.heights[s.p.ops[SpatialOp(s).value].outs[0]]
      else s.p.heights[BandInput(s)]
  {
    if j > 0 {
      ExtentsRows(s, j - 1);
      var op := s.p.ops[j - 1];
      assert OpAccepted(s, j - 1);
      assert OutputAccepted(s, j - 1, 0);
      if op.kernel.Spatial? { assert InputAccepted(s, j - 1, 0); }
    }
  }

  /** No operator of a pointwise stretch changes the height. */
  lemma {:induction false} HeightRows(s: Stage, j: nat)
    requires Loaded(s) && j <= |s.p.ops|
    ensures HeightAt(s.p, j, OutH(s)) ==
      if SpatialOp(s).Some? && SpatialOp(s).value >= j then s.p.heights[s.p.ops[SpatialOp(s).value].ins[0]] else OutH(s)
    decreases |s.p.ops| - j
  {
    if j < |s.p.ops| {
      HeightRows(s, j + 1);
    }
  }

  /** The extents the check carries are the heights of the band walk. */
  lemma ExtentsAreHeights(s: Stage, j: nat)
    requires Loaded(s) && Accepted(s) && j <= |s.p.ops|
    ensures s.p.heights[ExtentsAt(s, j)] == HeightAt(s.p, j, OutH(s))
  {
    ExtentsRows(s, j);
    HeightRows(s, j);
    match SpatialOp(s)
    case Some(k) =>
      ExtentsRows(s, k);
      assert OpAccepted(s, k) && InputAccepted(s, k, 0);
    case None =>
      assert Produced(s, s.outs[0]);
      var l :| 0 <= l < |s.p.ops| && s.outs[0] in s.p.ops[l].outs;
      var k :| 0 <= k < |s.p.ops[l].outs| && s.p.ops[l].outs[k] == s.outs[0];
      assert OpAccepted(s, l) && OutputAccepted(s, l, k);
      ExtentsRows(s, l + 1);
  }

  /** An accepted stage fits the band walk. */
  lemma AcceptedFits(s: Stage)
    requires Loaded(s) && Accepted(s)
    ensures Fits(s.p, OutH(s))
    ensures s.p.heights[BandInput(s)] == HeightAt(s.p, 0, OutH(s))
  {
    ExtentsAreHeights(s, 0);
    forall j | 0 <= j < |s.p.ops| ensures FitsAt(s.p, j, OutH(s)) {
      ExtentsAreHeights(s, j + 1);
      assert OpAccepted(s, j);
      forall k | 0 <= k < |s.p.ops[j].outs| ensures s.p.heights[s.p.ops[j].outs[k]] == HeightAt(s.p, j + 1, OutH(s)) {
        assert OutputAccepted(s, j, k);
      }
    }
  }

  /** An operator changes what a stripe holds: the height, the rows of some band, or at rank 4 the width. */
  ghost predicate Displaces(s: Stage, op: Op)
    requires Shaped(s) && OpInRange(s.p, op)
  {
    && op.kernel.Spatial?
    && (|| Shifts(op.kernel.w, s.p.heights[op.ins[0]], s.p.heights[op.outs[0]])
        || (s.rank4 && s.widths[op.ins[0]] != s.widths[op.outs[0]]))
  }

  lemma MovesBandExactly(s: Stage, op: Op)
    requires Shaped(s) && OpInRange(s.p, op)
    requires op.kernel.Spatial? ==> Geometry(op.kernel.w, s.p.heights[op.ins[0]], s.p.heights[op.outs[0]])
    ensures MovesBand(s, op) <==> Displaces(s, op)
  {
    MovesExactly(s.p, op);
  }

  /** t is a stage input, for k of 0, or an output of operator k - 1. */
  predicate Came(s: Stage, t: Tensor, k: nat)
    requires k <= |s.p.ops|
  {
    if k == 0 then t in s.ins else t in s.p.ops[k - 1].outs
  }

  /** t came before operator j and nothing displaced it since. */
  ghost predicate Undisplaced(s: Stage, t: Tensor, k: nat, j: nat)
    requires Shaped(s) && k <= j <= |s.p.ops|
  {
    Came(s, t, k) && forall i :: k <= i < j ==> OpInRange(s.p, s.p.ops[i]) && !Displaces(s, s.p.ops[i])
  }

  /**
   * The search refuses no more than it must: a tensor is found on the band if
   * and only if it came before the operator and nothing since then displaced
   * the rows or the width of what is held.
   */
  lemma {:induction false} FoundExactly(s: Stage, j: nat, t: Tensor)
    requires Shaped(s) && j <= |s.p.ops|
    requires forall i :: 0 <= i < j && s.p.ops[i].kernel.Spatial? ==>
      Geometry(s.p.ops[i].kernel.w, s.p.heights[s.p.ops[i].ins[0]], s.p.heights[s.p.ops[i].outs[0]])
    ensures ReadsTheBand(s, j, t) <==> exists k :: 0 <= k <= j && Undisplaced(s, t, k, j)
  {
    hide Displaces, MovesBand;
    if j == 0 {
      assert Undisplaced(s, t, 0, 0) <==> t in s.ins;
    } else {
      var op := s.p.ops[j - 1];
      assert OpInRange(s.p, op);
      MovesBandExactly(s, op);
      FoundExactly(s, j - 1, t);
      assert Undisplaced(s, t, j, j) <==> t in op.outs;
      hide Undisplaced;
      forall k | 0 <= k < j
        ensures Undisplaced(s, t, k, j) <==> Undisplaced(s, t, k, j - 1) && !Displaces(s, op)
      {
        UndisplacedStep(s, t, k, j);
      }
      forall k | 0 <= k <= j && Undisplaced(s, t, k, j) ensures ReadsTheBand(s, j, t) {}
      if t !in op.outs && ReadsTheBand(s, j, t) {
        var k :| 0 <= k <= j - 1 && Undisplaced(s, t, k, j - 1);
        assert Undisplaced(s, t, k, j);
      }
    }
  }

  /** An extent of the band at operator j: the band input's, then that of the last output that displaced it. */
  ghost function Extent(s: Stage, of: seq<nat>, j: nat): nat
    requires Shaped(s) && |of| == |s.p.heights| && j <= |s.p.ops|
  {
    if j == 0 then of[BandInput(s)]
    else
      assert OpInRange(s.p, s.p.ops[j - 1]);
      if Displaces(s, s.p.ops[j - 1]) then of[s.p.ops[j - 1].outs[0]] else Extent(s, of, j - 1)
  }

  /** t is as high, and at rank 4 as wide, as the band at operator j. */
  ghost predicate HasExtents(s: Stage, t: Tensor, j: nat)
    requires Shaped(s) && t < |s.p.heights| && j <= |s.p.ops|
  {
    s.p.heights[t] == Extent(s, s.p.heights, j) && (s.rank4 ==> s.widths[t] == Extent(s, s.widths, j))
  }

  /** Operand i of operator j is where the executor reads it. */
  ghost predicate OperandInPlace(s: Stage, j: nat, i: nat)
    requires Shaped(s) && j < |s.p.ops| && i < |s.p.ops[j].ins|
  {
    assert OpInRange(s.p, s.p.ops[j]);
    var op, t := s.p.ops[j], s.p.ops[j].ins[i];
    && (exists k :: 0 <= k <= j && Undisplaced(s, t, k, j))
    && (|| HasExtents(s, t, j)
        || (s.holder.ByStripe? && op.kernel.Pointwise? && op.kernel.binary && |op.ins| >= 2 && s.rank4 && s.p.heights[t] == 1))
  }

  /** Every operand in place, or in a chain one of the two of an elementwise operator; every output with the extents left. */
  ghost predicate OpInPlace(s: Stage, j: nat)
    requires Shaped(s) && j < |s.p.ops|
  {
    assert OpInRange(s.p, s.p.ops[j]);
    var op := s.p.ops[j];
    && (if s.holder.ByChain? && op.kernel.Pointwise? && op.kernel.binary && |op.ins| == 2
        then OperandInPlace(s, j, 0) || OperandInPlace(s, j, 1)
        else forall i :: 0 <= i < |op.ins| ==> OperandInPlace(s, j, i))
    && forall k :: 0 <= k < |op.outs| ==> HasExtents(s, op.outs[k], j + 1)
  }

  /** What the loader establishes of every window operator's heights. */
  ghost predicate Windows(s: Stage)
    requires Shaped(s)
  {
    forall i :: 0 <= i < |s.p.ops| && s.p.ops[i].kernel.Spatial? ==>
      OpInRange(s.p, s.p.ops[i])
      && Geometry(s.p.ops[i].kernel.w, s.p.heights[s.p.ops[i].ins[0]], s.p.heights[s.p.ops[i].outs[0]])
  }

  /** The check accepts exactly the stages whose operands are all in place and whose outputs have the extents left. */
  lemma AcceptedExactly(s: Stage)
    requires Shaped(s) && Windows(s)
    ensures Accepted(s) <==> forall j :: 0 <= j < |s.p.ops| ==> OpInPlace(s, j)
  {
    hide OpAccepted, OpInPlace;
    forall j | 0 <= j < |s.p.ops| ensures OpAccepted(s, j) <==> OpInPlace(s, j) {
      OpAcceptedExactly(s, j);
    }
  }

  lemma OpAcceptedExactly(s: Stage, j: nat)
    requires Shaped(s) && Windows(s) && j < |s.p.ops|
    ensures OpAccepted(s, j) <==> OpInPlace(s, j)
  {
    assert OpInRange(s.p, s.p.ops[j]);
    forall i | 0 <= i < |s.p.ops[j].ins| ensures InputAccepted(s, j, i) <==> OperandInPlace(s, j, i) {
      InputAcceptedExactly(s, j, i);
    }
    forall k | 0 <= k < |s.p.ops[j].outs| ensures OutputAccepted(s, j, k) <==> HasExtents(s, s.p.ops[j].outs[k], j + 1) {
      ExtentsAreExtent(s, j + 1);
    }
    hide Shaped, InputAccepted, OutputAccepted, OperandInPlace, HasExtents;
    if NeedsOne(s, j) {
      assert (exists i :: 0 <= i < 2 && InputAccepted(s, j, i)) <==> InputAccepted(s, j, 0) || InputAccepted(s, j, 1);
    }
  }

  lemma InputAcceptedExactly(s: Stage, j: nat, i: nat)
    requires Shaped(s) && Windows(s) && j < |s.p.ops| && i < |s.p.ops[j].ins|
    ensures InputAccepted(s, j, i) <==> OperandInPlace(s, j, i)
  {
    assert OpInRange(s.p, s.p.ops[j]);
    FoundExactly(s, j, s.p.ops[j].ins[i]);
    ExtentsAreExtent(s, j);
    hide Undisplaced, ReadsTheBand, ExtentsAt, Extent, InRange;
  }

  lemma {:induction false} ExtentsAreExtent(s: Stage, j: nat)
    requires Shaped(s) && Windows(s) && j <= |s.p.ops|
    ensures s.p.heights[ExtentsAt(s, j)] == Extent(s, s.p.heights, j)
    ensures s.rank4 ==> s.widths[ExtentsAt(s, j)] == Extent(s, s.widths, j)
  {
    if j > 0 {
      assert OpInRange(s.p, s.p.ops[j - 1]);
      ExtentsAreExtent(s, j - 1);
      MovesBandExactly(s, s.p.ops[j - 1]);
      hide MovesBand, Displaces;
    }
  }

  lemma UndisplacedStep(s: Stage, t: Tensor, k: nat, j: nat)
    requires Shaped(s) && k < j <= |s.p.ops| && OpInRange(s.p, s.p.ops[j - 1])
    ensures Undisplaced(s, t, k, j) <==> Undisplaced(s, t, k, j - 1) && !Displaces(s, s.p.ops[j - 1])
  {
    hide Displaces;
  }

  /** A one-row input of a taller band, which the stripe loads whole for every band. */
  predicate Broadcast(s: Stage, t: Tensor)
    requires Shaped(s) && t < |s.p.heights|
  {
    OneRow(s, t) && s.p.heights[BandInput(s)] > 1
  }

  /** The rows the stripe holds of t when operator j runs, in the tile that ends in `last`. */
  function HeldAt(s: Stage, t: Tensor, j: nat, last: Band): Band
    requires Shaped(s) && t < |s.p.heights| && j <= |s.p.ops|
  {
    if j == 0 then (if Broadcast(s, t) then Band(0, 1) else BandAt(s.p, 0, last))
    else if t in s.p.ops[j - 1].outs then BandAt(s.p, j, last)
    else HeldAt(s, t, j - 1, last)
  }

  /** Whether t is loaded or produced before operator j. */
  ghost predicate Available(s: Stage, t: Tensor, j: nat) {
    t in s.ins || exists i :: 0 <= i < j && i < |s.p.ops| && t in s.p.ops[i].outs
  }

  /** A tensor found on the band is held at the band's rows, unless it is loaded whole. */
  lemma {:induction false} OnBandHeld(s: Stage, t: Tensor, j: nat, last: Band)
    requires Loaded(s) && Accepted(s) && t < |s.p.heights| && j <= |s.p.ops| && last.Inside(OutH(s))
    requires Fits(s.p, OutH(s)) && ReadsTheBand(s, j, t)
    ensures Available(s, t, j)
    ensures HeldAt(s, t, j, last) == BandAt(s.p, j, last) || (HeldAt(s, t, j, last) == Band(0, 1) && Broadcast(s, t))
  {
    if j > 0 && t !in s.p.ops[j - 1].outs {
      assert OpInRange(s.p, s.p.ops[j - 1]);
      OnBandHeld(s, t, j - 1, last);
      StillBand(s.p, j - 1, j, OutH(s), last);
    }
  }

  /**
   * The check is sound: in every tile and at every operator of an accepted
   * stage, each operand is held at exactly the band's current rows, or is one
   * row high and broadcast by a two-operand elementwise operator.
   */
  lemma CheckSound(s: Stage, j: nat, i: nat, last: Band)
    requires Loaded(s) && Accepted(s) && last.Inside(OutH(s)) && j < |s.p.ops| && i < |s.p.ops[j].ins|
    ensures var t := s.p.ops[j].ins[i];
      && t < |s.p.heights| && Available(s, t, j)
      && ((s.p.heights[t] == HeightAt(s.p, j, OutH(s)) && HeldAt(s, t, j, last) == BandAt(s.p, j, last))
          || (IsBinary(s.p.ops[j]) && s.p.heights[t] == 1 && HeldAt(s, t, j, last) == Band(0, 1)))
  {
    var t := s.p.ops[j].ins[i];
    assert OpInRange(s.p, s.p.ops[j]);
    AcceptedFits(s);
    assert OpAccepted(s, j) && InputAccepted(s, j, i);
    OnBandHeld(s, t, j, last);
    ExtentsAreHeights(s, j);
    BandInside(s.p, j, OutH(s), last);
    OneRowHeld(s, t, j, last);
  }

  /** A one-row tensor that is found on the band is held whole. */
  lemma {:induction false} OneRowHeld(s: Stage, t: Tensor, j: nat, last: Band)
    requires Loaded(s) && Accepted(s) && t < |s.p.heights| && j <= |s.p.ops| && last.Inside(OutH(s))
    requires Fits(s.p, OutH(s)) && ReadsTheBand(s, j, t)
    ensures OneRow(s, t) ==> HeldAt(s, t, j, last) == Band(0, 1)
  {
    AcceptedFits(s);
    BandInside(s.p, j, OutH(s), last);
    if j > 0 {
      assert OpInRange(s.p, s.p.ops[j - 1]);
      if t in s.p.ops[j - 1].outs {
        assert FitsAt(s.p, j - 1, OutH(s));
      } else {
        OneRowHeld(s, t, j - 1, last);
      }
    }
  }
}
