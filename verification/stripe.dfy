/**
 * The height stripe: one stage run band by band, each tile loading the rows
 * its output rows read, running every operator on them and writing each stage
 * output at the rows its own operator left.
 */
module Stripe {
  import opened Rows
  import opened BandPlan
  import opened BandRanges
  import opened ChainKernels
  import opened ChainState
  import opened StripeBudget
  import opened StripeCheck
  import opened StripeState

  /** The window operator's pads on a tile are past what the tile context can hold. */
  predicate WideTile(s: Stage, last: Band)
    requires Shaped(s)
  {
    SpatialOp(s).Some? &&
      var w := s.p.ops[SpatialOp(s).value].kernel.w;
      PadTop(w, last) > UINT16_MAX || PadBottom(w, s.p.heights[BandInput(s)], last) > UINT16_MAX
  }

  /** Some tile of h rows is. */
  ghost predicate WideTiles(s: Stage, h: int)
    requires Shaped(s)
  {
    exists tile :: 0 <= tile && TileStarts(h, OutH(s), tile) && WideTile(s, Tile(h, OutH(s), tile))
  }

  /** None of the rows the tile's window reads is outside the input. */
  predicate Unclamped(s: Stage, last: Band)
    requires Shaped(s)
  {
    SpatialOp(s).Some? ==>
      assert OpInRange(s.p, s.p.ops[SpatialOp(s).value]);
      var op := s.p.ops[SpatialOp(s).value];
      PadTop(op.kernel.w, last) == 0 && PadBottom(op.kernel.w, s.p.heights[op.ins[0]], last) == 0
  }

  /** On a tile whose window is inside its input the rows the budget counts are the rows every operator leaves. */
  lemma RowsCounted(s: Stage, last: Band)
    requires Shaped(s) && OneSpatial(s) && Unclamped(s, last)
    ensures BandAt(s.p, 0, last).Rows() == InputRows(s, last.Rows())
    ensures forall j :: 0 <= j < |s.p.ops| ==> BandAt(s.p, j + 1, last).Rows() == RowsOf(s, j, last.Rows())
  {
    hide InputRows;
    forall j | 0 <= j < |s.p.ops| ensures BandAt(s.p, j + 1, last).Rows() == RowsOf(s, j, last.Rows()) {
      BandOfProducer(s, j, last);
      InputCounted(s, last);
    }
    InputCounted(s, last);
  }

  lemma InputCounted(s: Stage, last: Band)
    requires Shaped(s) && OneSpatial(s) && Unclamped(s, last)
    ensures BandAt(s.p, 0, last).Rows() == InputRows(s, last.Rows())
  {
    match SpatialOp(s)
    case None => PointwiseBands(s, 0, |s.p.ops|, last);
    case Some(j) =>
      var w := s.p.ops[j].kernel.w;
      PointwiseBands(s, 0, j, last);
      PointwiseBands(s, j + 1, |s.p.ops|, last);
      MulSub(last.hi - 1, last.lo, w.stride);
  }

  predicate TileStarts(h: int, outH: int, tile: int) { tile * h < outH }

  class StripeExec {
    const s: Stage
    const z: Sizing
    const fastSize: int
    const slowSize: int
    const junk: (Tensor, int) -> Row
    /** Whole-tensor values of every tensor, the executor's specification. */
    ghost const full: Env

    var slots: seq<Slot>
    var slow: seq<seq<Row>>
    var covered: seq<int>
    var fastUsed: int
    var fastReserved: int
    var slowUsed: int
    // the tile context
    var inH: int
    var outH: int
    var padTop: int

    /** A stage about to run on the tensors `env`. */
    constructor (s: Stage, env: Env, z: Sizing, fastSize: int, slowSize: int, reserved: int, slowTaken: int,
                 junk: (Tensor, int) -> Row)
      requires Loaded(s) && Accepted(s) && Env?(s.p, env) && Sized(s, z)
      ensures this.s == s && this.z == z && this.fastSize == fastSize && this.slowSize == slowSize
      ensures full == Whole(s.p, env, |s.p.ops|) && slow == env
      ensures Lens() && fastUsed == fastReserved == reserved && slowUsed == slowTaken
    {
      AcceptedFits(s);
      WholeSolves(s.p, env);
      this.s, this.z, this.junk := s, z, junk;
      this.fastSize, this.slowSize := fastSize, slowSize;
      full := Whole(s.p, env, |s.p.ops|);
      slots := seq(|s.p.heights|, _ => Slot(Unset, [], 0, 0));
      slow := env;
      covered := seq(|s.outs|, _ => 0);
      fastUsed, fastReserved, slowUsed := reserved, reserved, slowTaken;
      inH, outH, padTop := 0, 0, 0;
    }

    ghost predicate Lens()
      reads `slots, `slow, `covered
    {
      && Ready(s, full) && Sized(s, z)
      && |slots| == |slow| == |full| == |z.rowBytes| == |s.p.heights| && |covered| == |s.outs|
    }

    lemma InRangeLoaded()
      requires Ready(s, full)
      ensures Shaped(s) && InRange(s.p) && Ordered(s.p) && OneSpatial(s)
    {}

    /** Fast bump allocation of `rows` rows of t. */
    method AllocFast(t: Tensor, rows: int) returns (ok: bool)
      requires Lens() && t < |slots| && rows >= 0
      modifies `slots, `fastUsed
      ensures Lens() && OnlyChanged(old(slots), slots, [t])
      ensures ok <==> old(fastUsed) + RowsBytes(z, t, rows) <= fastSize
      ensures ok ==> slots[t].place == InFast && |slots[t].buf| == rows
      ensures ok ==> fastUsed == old(fastUsed) + RowsBytes(z, t, rows)
    {
      var bytes := RowsBytes(z, t, rows);
      ok := fastUsed + bytes <= fastSize;
      if ok {
        slots := slots[t := slots[t].(place := InFast, buf := seq(rows, i => junk(t, i)))];
        fastUsed := fastUsed + bytes;
      }
    }

    /**
     * Loads the rows [lo, hi) of every stage input; a one-row input of a
     * taller band is loaded whole. It takes no more than the working set of a
     * band of h rows counts for the inputs.
     */
    method LoadBands(lo: int, hi: int, ghost last: Band, ghost h: int) returns (ok: bool)
      requires Lens() && last.Inside(OutH(s)) && Band(lo, hi) == BandAt(s.p, 0, last) && last.Rows() <= h
      requires InputsRight()
      modifies `slots, `fastUsed
      ensures Lens() && (ok ==> StripeAt(s, full, slots, 0, last))
      ensures ok ==> fastUsed <= old(fastUsed) + ListBytes(s, z, s.ins, |s.ins|, InputRows(s, h))
      ensures InputsReach(s) && old(fastUsed) + ListBytes(s, z, s.ins, |s.ins|, InputRows(s, h)) <= fastSize ==> ok
    {
      hide Ready, Loaded, Accepted, Fits, Solves, BandAt, HeightAt, BandInput, Holds, InputRows, InputsReach, Sized, ListBytes;
      InputsInRange();
      InputBandRows(last, h);
      var n := |s.ins|;
      var bandHeight := s.p.heights[BandInput(s)];
      ok := true;
      NoInputBytes(h);
      for i := 0 to n
        invariant Lens() && ok
        invariant fastUsed <= old(fastUsed) + ListBytes(s, z, s.ins, i, InputRows(s, h))
        invariant forall l :: 0 <= l < i ==> Holds(slots[s.ins[l]], full[s.ins[l]], HeldAt(s, s.ins[l], 0, last))
      {
        ok := LoadInput(i, lo, hi, bandHeight, last, h);
        if !ok { return; }
      }
    }

    /** What the working set counts for input i. */
    ghost function InputShare(i: nat, h: int): int
      requires Sized(s, z) && i < |s.ins|
    {
      ListBytes(s, z, s.ins, i + 1, InputRows(s, h)) - ListBytes(s, z, s.ins, i, InputRows(s, h))
    }

    lemma NoInputBytes(h: int)
      requires Sized(s, z)
      ensures ListBytes(s, z, s.ins, 0, InputRows(s, h)) == 0
    {}

    /** One stage input of a tile. */
    method LoadInput(i: nat, lo: int, hi: int, bandHeight: nat, ghost last: Band, ghost h: int) returns (ok: bool)
      requires Lens() && InputsRight() && i < |s.ins| && s.ins[i] < |slots| && Band(lo, hi) == BandAt(s.p, 0, last)
      requires bandHeight == s.p.heights[BandInput(s)] && 0 <= lo < hi <= bandHeight && hi - lo <= InputRows(s, h)
      modifies `slots, `fastUsed
      ensures Lens() && OnlyChanged(old(slots), slots, [s.ins[i]])
      ensures ok ==> Holds(slots[s.ins[i]], full[s.ins[i]], HeldAt(s, s.ins[i], 0, last))
      ensures ListBytes(s, z, s.ins, i + 1, InputRows(s, h)) <= ListBytes(s, z, s.ins, |s.ins|, InputRows(s, h))
      ensures ok ==> fastUsed <= old(fastUsed) + InputShare(i, h)
      ensures InputsReach(s) && old(fastUsed) + InputShare(i, h) <= fastSize ==> ok
    {
      hide Ready, BandAt, BandInput, Holds, InputRows, InputsReach, RowsBytes, ListBytes;
      var t := s.ins[i];
      var broadcast := s.rank4 && bandHeight > 1 && s.p.heights[t] == 1;
      var from, to := if broadcast then 0 else lo, if broadcast then 1 else hi;
      InputBytes(i, from, to, h);
      ok := LoadRows(t, from, to);
    }

    lemma InputsInRange()
      requires Lens()
      ensures Shaped(s) && Sized(s, z) && forall i :: 0 <= i < |s.ins| ==> s.ins[i] < |s.p.heights|
    {}

    /** The input rows of a tile are no more than those counted, and rows of the band's input. */
    lemma InputBandRows(last: Band, h: int)
      requires Lens() && last.Inside(OutH(s)) && last.Rows() <= h
      ensures BandAt(s.p, 0, last).Inside(s.p.heights[BandInput(s)]) && 1 <= BandAt(s.p, 0, last).Rows() <= InputRows(s, h)
    {
      AcceptedFits(s);
      BandInside(s.p, 0, OutH(s), last);
      WindowBand(s, full, last);
      hide Ready, BandAt, HeightAt, OutH;
      if SpatialOp(s).Some? {
        var w := s.p.ops[SpatialOp(s).value].kernel.w;
        MulSub(last.hi - 1, last.lo, w.stride);
        MulOrder(last.Rows() - 1, h - 1, w.stride);
      }
    }

    /** What one input takes is within its share, if it has the rows; one that reaches has. */
    lemma InputBytes(i: nat, from: int, to: int, h: int)
      requires Sized(s, z) && i < |s.ins| && 1 <= InputRows(s, h)
      requires Broadcast(s, s.ins[i]) ==> from == 0 && to == 1
      requires !Broadcast(s, s.ins[i]) ==> 0 <= from < to <= s.p.heights[BandInput(s)] && to - from <= InputRows(s, h)
      ensures ListBytes(s, z, s.ins, i + 1, InputRows(s, h)) <= ListBytes(s, z, s.ins, |s.ins|, InputRows(s, h))
      ensures to <= s.p.heights[s.ins[i]] ==>
        RowsBytes(z, s.ins[i], to - from) <= InputShare(i, h)
      ensures InputsReach(s) ==> to <= s.p.heights[s.ins[i]]
    {
      ListBytesPrefix(s, z, s.ins, i + 1, |s.ins|, InputRows(s, h));
      if to <= s.p.heights[s.ins[i]] {
        RowsBytesGrow(z, s.ins[i], to - from, Min(InputRows(s, h), s.p.heights[s.ins[i]]));
      }
    }

    ghost predicate InputsRight()
      reads `slow
    {
      |slow| == |full| && forall i :: 0 <= i < |s.ins| ==> s.ins[i] < |full| && slow[s.ins[i]] == full[s.ins[i]]
    }

    /** Loads the rows [lo, hi) of t; fails past its last row or the end of fast memory. */
    method LoadRows(t: Tensor, lo: int, hi: int) returns (ok: bool)
      requires Lens() && t < |slots| && slow[t] == full[t] && 0 <= lo < hi
      modifies `slots, `fastUsed
      ensures Lens() && OnlyChanged(old(slots), slots, [t])
      ensures ok ==> Holds(slots[t], full[t], Band(lo, hi))
      ensures ok <==> hi <= s.p.heights[t] && old(fastUsed) + RowsBytes(z, t, hi - lo) <= fastSize
      ensures ok ==> fastUsed == old(fastUsed) + RowsBytes(z, t, hi - lo)
    {
      hide Loaded, Accepted, Fits, Solves;
      if hi > s.p.heights[t] { return false; }
      ok := AllocFast(t, hi - lo);
      if ok { slots := slots[t := Slot(InFast, slow[t][lo..hi], lo, hi)]; }
    }

    /** Fresh bands for the outputs of operator j, within the bytes counted at `most` rows or their heights. */
    method AllocOutputs(j: nat, rows: int, ghost most: int) returns (ok: bool)
      requires Lens() && j < |s.p.ops| && OpInRange(s.p, s.p.ops[j]) && 0 <= rows <= most
      requires forall k :: 0 <= k < |s.p.ops[j].outs| ==> rows <= s.p.heights[s.p.ops[j].outs[k]]
      modifies `slots, `fastUsed
      ensures Lens() && OnlyChanged(old(slots), slots, s.p.ops[j].outs)
      ensures ok ==> OutputsRoom(j, rows)
      ensures ok ==> fastUsed <= old(fastUsed) + ListBytes(s, z, s.p.ops[j].outs, |s.p.ops[j].outs|, most)
      ensures old(fastUsed) + ListBytes(s, z, s.p.ops[j].outs, |s.p.ops[j].outs|, most) <= fastSize ==> ok
    {
      hide Ready, RowsBytes, ListBytes, InRange;
      var outs := s.p.ops[j].outs;
      ok := true;
      NoListBytes(outs, most);
      for k := 0 to |outs|
        invariant Lens() && ok && OnlyChanged(old(slots), slots, outs)
        invariant fastUsed <= old(fastUsed) + ListBytes(s, z, outs, k, most)
        invariant forall l :: 0 <= l < k ==> slots[outs[l]].place == InFast && |slots[outs[l]].buf| == rows
      {
        OutputShare(outs, k, rows, most);
        ok := AllocFast(outs[k], rows);
        if !ok { return; }
      }
    }

    lemma NoListBytes(ts: seq<Tensor>, rows: int)
      requires Sized(s, z) && forall i :: 0 <= i < |ts| ==> ts[i] < |s.p.heights|
      ensures ListBytes(s, z, ts, 0, rows) == 0
    {}

    /** What tensor k of a list takes is within its share. */
    lemma OutputShare(ts: seq<Tensor>, k: nat, rows: int, most: int)
      requires Sized(s, z) && k < |ts| && (forall i :: 0 <= i < |ts| ==> ts[i] < |s.p.heights|)
      requires 0 <= rows <= most && rows <= s.p.heights[ts[k]]
      ensures RowsBytes(z, ts[k], rows) <= ListBytes(s, z, ts, k + 1, most) - ListBytes(s, z, ts, k, most)
      ensures ListBytes(s, z, ts, k + 1, most) <= ListBytes(s, z, ts, |ts|, most)
    {
      ListBytesPrefix(s, z, ts, k + 1, |ts|, most);
      RowsBytesGrow(z, ts[k], rows, Min(most, s.p.heights[ts[k]]));
    }

    ghost predicate OutputsRoom(j: nat, rows: int)
      requires j < |s.p.ops|
      reads `slots
    {
      forall k :: 0 <= k < |s.p.ops[j].outs| ==>
        s.p.ops[j].outs[k] < |slots| && slots[s.p.ops[j].outs[k]].place == InFast && |slots[s.p.ops[j].outs[k]].buf| == rows
    }

    /** The tile context and operands are what the kernel of operator j needs to leave the rows b. */
    ghost predicate KernelReady(j: nat, b: Band)
      requires j < |s.p.ops|
      reads this
    {
      && Lens() && OpInRange(s.p, s.p.ops[j]) && b.Inside(HeightAt(s.p, j + 1, OutH(s))) && outH == b.Rows()
      && (match s.p.ops[j].kernel
          case Pointwise(_, _, _) => forall i :: 0 <= i < |s.p.ops[j].ins| ==> OperandHeld(s, full, slots, j, i, b)
          case Spatial(w, _) =>
            var t := s.p.ops[j].ins[0];
            && inH == Back(w, s.p.heights[t], b).Rows() && padTop == PadTop(w, b)
            && HoldsRows(slots[t].buf, full[t], Back(w, s.p.heights[t], b)))
    }

    /** One output of operator j's kernel, recorded at the rows it holds. */
    method KernelOutput(j: nat, k: nat, lo: int, hi: int)
      requires j < |s.p.ops| && KernelReady(j, Band(lo, hi)) && k < |s.p.ops[j].outs|
      requires slots[s.p.ops[j].outs[k]].place == InFast && |slots[s.p.ops[j].outs[k]].buf| == outH
      requires forall i :: 0 <= i < |s.p.ops[j].ins| ==> s.p.ops[j].ins[i] != s.p.ops[j].outs[k]
      modifies `slots
      ensures KernelReady(j, Band(lo, hi)) && |slots| == |old(slots)|
      ensures slots == old(slots)[s.p.ops[j].outs[k] := slots[s.p.ops[j].outs[k]]]
      ensures Holds(slots[s.p.ops[j].outs[k]], full[s.p.ops[j].outs[k]], Band(lo, hi))
    {
      var op := s.p.ops[j];
      var t := op.outs[k];
      var y := KernelRows(j, k, Band(lo, hi));
      hide Ready;
      slots := slots[t := Slot(InFast, y, lo, hi)];
      forall i | 0 <= i < |op.ins| && op.kernel.Pointwise? ensures OperandHeld(s, full, slots, j, i, Band(lo, hi)) {
        assert old(OperandHeld(s, full, slots, j, i, Band(lo, hi)));
      }
    }

    /** The rows of output k of operator j, from the held operands. */
    method KernelRows(j: nat, k: nat, ghost b: Band) returns (y: seq<Row>)
      requires j < |s.p.ops| && KernelReady(j, b) && k < |s.p.ops[j].outs|
      requires |slots[s.p.ops[j].outs[k]].buf| == outH
      ensures |y| == outH && HoldsRows(y, full[s.p.ops[j].outs[k]], b)
      ensures |full[s.p.ops[j].outs[k]]| == HeightAt(s.p, j + 1, OutH(s))
    {
      var op := s.p.ops[j];
      var t := op.outs[k];
      assert FitsAt(s.p, j, OutH(s));
      hide Loaded, Accepted, Fits;
      match op.kernel {
        case Pointwise(_, _, rowOf) =>
          var bands := slots;
          var bufs := seq(|op.ins|, i requires 0 <= i < |op.ins| => bands[op.ins[i]].buf);
          var oneRow := seq(|op.ins|, i requires 0 <= i < |op.ins| => s.p.heights[op.ins[i]] == 1);
          forall i | 0 <= i < |bufs| ensures (if oneRow[i] then 1 else outH) <= |bufs[i]| {
            assert OperandHeld(s, full, slots, j, i, b);
          }
          y := PointwiseBand(rowOf, k, bufs, oneRow, outH, slots[t].buf);
          PointwiseRowsMean(j, k, b, bufs, oneRow, y);
        case Spatial(w, windowed) =>
          y := WindowRows(windowed, k, w, slots[op.ins[0]].buf, inH, padTop, 0, 0, outH, slots[t].buf);
          WindowMeans(s.p, full, j, k, slots[op.ins[0]].buf, HeightAt(s.p, j + 1, OutH(s)), 0, slots[t].buf, y, b);
      }
    }

    lemma PointwiseRowsMean(j: nat, k: nat, b: Band, bufs: seq<seq<Row>>, oneRow: seq<bool>, y: seq<Row>)
      requires j < |s.p.ops| && KernelReady(j, b) && k < |s.p.ops[j].outs| && s.p.ops[j].kernel.Pointwise?
      requires |bufs| == |oneRow| == |s.p.ops[j].ins| && |y| == outH
      requires s.p.heights[s.p.ops[j].outs[k]] == HeightAt(s.p, j + 1, OutH(s))
      requires forall i :: 0 <= i < |bufs| ==>
        bufs[i] == slots[s.p.ops[j].ins[i]].buf && oneRow[i] == (s.p.heights[s.p.ops[j].ins[i]] == 1)
      requires forall i :: 0 <= i < |bufs| ==> (if oneRow[i] then 1 else outH) <= |bufs[i]|
      requires forall r :: 0 <= r < outH ==> y[r] == s.p.ops[j].kernel.rowOf(k, GatherBand(bufs, oneRow, r))
      ensures HoldsRows(y, full[s.p.ops[j].outs[k]], b)
    {
      hide Accepted, Fits, Solves, SolvedOutput, OperandHeld, HeightAt;
      SolvedAt(j, k);
      forall r | 0 <= r < b.Rows() ensures y[r] == full[s.p.ops[j].outs[k]][b.lo + r] {
        GatherIsWhole(s, full, slots, j, b, bufs, oneRow, r);
        SolvedRow(j, k, b.lo + r);
      }
    }

    lemma SolvedAt(j: nat, k: nat)
      requires Lens() && Solves(s.p, full) && j < |s.p.ops| && k < |s.p.ops[j].outs|
      ensures SolvedOutput(s.p, full, j, k)
    {}

    lemma SolvedRow(j: nat, k: nat, r: nat)
      requires Lens() && j < |s.p.ops| && OpInRange(s.p, s.p.ops[j]) && k < |s.p.ops[j].outs|
      requires SolvedOutput(s.p, full, j, k) && s.p.ops[j].kernel.Pointwise? && r < s.p.heights[s.p.ops[j].outs[k]]
      ensures full[s.p.ops[j].outs[k]][r] == s.p.ops[j].kernel.rowOf(k, OperandRows(s.p.ops[j], full, r))
    {}

    /**
     * Operator j on the current tile: its context, its bands, its kernel. The
     * window operator takes the tile's clamped pads and moves the band to the
     * tile's output rows.
     */
    method RunOp(j: nat, isSpatial: bool, gs: int, ge: int, outStart: int, outEnd: int, pt: int, pb: int, ghost h: int)
      returns (err: Error)
      requires outEnd - outStart <= h
      requires Lens() && j < |s.p.ops| && Band(outStart, outEnd).Inside(OutH(s))
      requires isSpatial <==> s.p.ops[j].kernel.Spatial?
      requires Band(gs, ge) == BandAt(s.p, j, Band(outStart, outEnd))
      requires isSpatial ==> pt == PadTop(s.p.ops[j].kernel.w, Band(outStart, outEnd)) && BandAt(s.p, j + 1, Band(outStart, outEnd)) == Band(outStart, outEnd)
      requires StripeAt(s, full, slots, j, Band(outStart, outEnd))
      modifies `slots, `fastUsed, `inH, `outH, `padTop
      ensures Lens()
      ensures err == Ok ==> StripeAt(s, full, slots, j + 1, Band(outStart, outEnd))
      ensures err == ErrTile <==> isSpatial && (pt > UINT16_MAX || pb < 0 || pb > UINT16_MAX)
      ensures err == Ok ==> fastUsed - OpsBytes(s, z, j + 1, h) <= old(fastUsed) - OpsBytes(s, z, j, h)
      ensures err == ErrMem ==> old(fastUsed) - OpsBytes(s, z, j, h) + OpsBytes(s, z, j + 1, h) > fastSize
    {
      hide Loaded, Accepted, Fits, Solves, HeightAt, StripeAt, OperandHeld, HeldAt, OutH, OutputsRoom, ListBytes, RowsOf, Sized;
      ghost var last := Band(outStart, outEnd);
      InRangeLoaded();
      OutputRows(j, last, h);
      BandInside(s.p, j + 1, OutH(s), last);
      OperandsFromCheck(s, full, slots, j, last);
      if isSpatial {
        if pt < 0 || pt > UINT16_MAX || pb < 0 || pb > UINT16_MAX { return ErrTile; }
        inH, outH, padTop := ge - gs, outEnd - outStart, pt;
      } else {
        inH, outH, padTop := ge - gs, ge - gs, 0;
      }
      var ok := AllocOutputs(j, outH, RowsOf(s, j, h));
      if !ok { return ErrMem; }
      var from, to := if isSpatial then outStart else gs, if isSpatial then outEnd else ge;
      assert KernelReady(j, Band(from, to)) by { OperandsKept(old(slots), j, last); }
      label placed:
      Kernel(j, from, to);
      OnlyChangedTrans(old(slots), old@placed(slots), slots, s.p.ops[j].outs);
      StripeAdvances(s, full, old(slots), slots, j, last);
      return Ok;
    }

    /** The rows operator j leaves on a tile are rows of its outputs, no more than those counted for a band of h rows. */
    lemma OutputRows(j: nat, last: Band, h: int)
      requires Lens() && j < |s.p.ops| && last.Inside(OutH(s)) && last.Rows() <= h
      ensures OpInRange(s.p, s.p.ops[j]) && BandAt(s.p, j + 1, last).Rows() <= RowsOf(s, j, h)
      ensures forall k :: 0 <= k < |s.p.ops[j].outs| ==> BandAt(s.p, j + 1, last).Rows() <= s.p.heights[s.p.ops[j].outs[k]]
    {
      BandInside(s.p, j + 1, OutH(s), last);
      assert FitsAt(s.p, j, OutH(s)) && OneSpatial(s);
      hide Ready, Loaded, Accepted, BandAt, HeightAt, OutH, SpatialOp, InputRows;
      BandOfProducer(s, j, last);
      InputBandRows(last, h);
    }

    /** Placing operator j's outputs leaves its operands held. */
    lemma OperandsKept(before: seq<Slot>, j: nat, last: Band)
      requires Lens() && j < |s.p.ops| && OpInRange(s.p, s.p.ops[j]) && last.Inside(OutH(s))
      requires OnlyChanged(before, slots, s.p.ops[j].outs)
      requires forall i :: 0 <= i < |s.p.ops[j].ins| ==> OperandHeld(s, full, before, j, i, BandAt(s.p, j, last))
      ensures forall i :: 0 <= i < |s.p.ops[j].ins| ==> OperandHeld(s, full, slots, j, i, BandAt(s.p, j, last))
      ensures forall i :: 0 <= i < |s.p.ops[j].ins| ==> slots[s.p.ops[j].ins[i]] == before[s.p.ops[j].ins[i]]
    {
      hide BandAt, Fits, Accepted, Solves;
      forall i | 0 <= i < |s.p.ops[j].ins| ensures slots[s.p.ops[j].ins[i]] == before[s.p.ops[j].ins[i]] {
        assert s.p.ops[j].ins[i] !in s.p.ops[j].outs;
      }
      forall i | 0 <= i < |s.p.ops[j].ins| ensures OperandHeld(s, full, slots, j, i, BandAt(s.p, j, last)) {
        assert OperandHeld(s, full, before, j, i, BandAt(s.p, j, last));
      }
    }

    /** Every output of operator j's kernel. */
    method Kernel(j: nat, lo: int, hi: int)
      requires j < |s.p.ops| && KernelReady(j, Band(lo, hi)) && OutputsRoom(j, outH)
      modifies `slots
      ensures Lens() && OnlyChanged(old(slots), slots, s.p.ops[j].outs)
      ensures forall k :: 0 <= k < |s.p.ops[j].outs| ==>
        s.p.ops[j].outs[k] < |slots| && Holds(slots[s.p.ops[j].outs[k]], full[s.p.ops[j].outs[k]], Band(lo, hi))
    {
      var outs := s.p.ops[j].outs;
      assert Ordered(s.p);
      hide Ready, Ordered, Holds;
      for k := 0 to |outs|
        invariant KernelReady(j, Band(lo, hi)) && OnlyChanged(old(slots), slots, outs)
        invariant forall l :: k <= l < |outs| ==> slots[outs[l]].place == InFast && |slots[outs[l]].buf| == outH
        invariant forall l :: 0 <= l < k ==> Holds(slots[outs[l]], full[outs[l]], Band(lo, hi))
      {
        OutputsDistinct(s.p, j, k);
        KernelOutput(j, k, lo, hi);
      }
    }

    /** Every operator of the stage on the current tile. */
    method RunOps(inStart: int, inEnd: int, outStart: int, outEnd: int, sp: Option<nat>, pt: int, pb: int, ghost h: int)
      returns (err: Error)
      requires outEnd - outStart <= h
      requires Lens() && sp == SpatialOp(s) && Band(outStart, outEnd).Inside(OutH(s))
      requires Band(inStart, inEnd) == BandAt(s.p, 0, Band(outStart, outEnd))
      requires sp.Some? ==> pt == PadTop(s.p.ops[sp.value].kernel.w, Band(outStart, outEnd))
      requires StripeAt(s, full, slots, 0, Band(outStart, outEnd))
      modifies `slots, `fastUsed, `inH, `outH, `padTop
      ensures Lens()
      ensures err == Ok ==> StripeAt(s, full, slots, |s.p.ops|, Band(outStart, outEnd))
      ensures err == ErrTile ==> sp.Some? && (pt > UINT16_MAX || pb < 0 || pb > UINT16_MAX)
      ensures err == Ok ==> !(sp.Some? && (pt > UINT16_MAX || pb < 0 || pb > UINT16_MAX))
      ensures err == ErrMem ==> old(fastUsed) + OpsBytes(s, z, |s.p.ops|, h) > fastSize
    {
      hide Ready, Loaded, Accepted, Fits, Solves, StripeAt, OneSpatial, OutH, OpsBytes, BandAt, Sized, SpatialOp, InRange;
      ghost var last := Band(outStart, outEnd);
      OpsRoom(last, h);
      err := Ok;
      var gs, ge := inStart, inEnd;
      for j := 0 to |s.p.ops|
        invariant Lens() && err == Ok && StripeAt(s, full, slots, j, last)
        invariant Band(gs, ge) == BandAt(s.p, j, last) && fastUsed <= old(fastUsed) + OpsBytes(s, z, j, h)
        invariant sp.Some? && sp.value < j ==> pt <= UINT16_MAX && 0 <= pb <= UINT16_MAX
      {
        SpatialIs(s, j);
        OpBand(j, last, h);
        var isSpatial := sp == Some(j);
        err := RunOp(j, isSpatial, gs, ge, outStart, outEnd, pt, pb, h);
        if err != Ok { return; }
        if isSpatial { gs, ge := outStart, outEnd; }
      }
    }

    /** What the walk over the operators starts from. */
    lemma OpsRoom(last: Band, h: int)
      requires Lens() && last.Inside(OutH(s))
      ensures Shaped(s) && OneSpatial(s) && OpsBytes(s, z, 0, h) == 0
      ensures SpatialOp(s).Some? ==> SpatialOp(s).value < |s.p.ops|
    {}

    lemma StageValid()
      requires Lens()
      ensures Shaped(s) && Sized(s, z) && OneSpatial(s)
      ensures SpatialOp(s).Some? ==> s.p.ops[SpatialOp(s).value].kernel.w.Valid()
    {}

    /** Where the band goes at operator j, and that its bytes are part of the stage's. */
    lemma OpBand(j: nat, last: Band, h: int)
      requires Lens() && j < |s.p.ops| && last.Inside(OutH(s)) && last.Rows() <= h
      ensures OpsBytes(s, z, j + 1, h) <= OpsBytes(s, z, |s.p.ops|, h)
      ensures SpatialOp(s) == Some(j) ==> BandAt(s.p, j + 1, last) == last
      ensures SpatialOp(s) != Some(j) ==> BandAt(s.p, j + 1, last) == BandAt(s.p, j, last)
    {
      hide Ready, OpsBytes, HeightAt;
      StageValid();
      WindowBand(s, full, last);
      SpatialIs(s, j);
      OpsBytesPrefix(s, z, j + 1, |s.p.ops|, h);
    }

    /** Every stage output is written up to its covered rows. */
    ghost predicate WrittenRight()
      reads `slow, `covered
    {
      && |slow| == |full| && |covered| == |s.outs|
      && forall i :: 0 <= i < |s.outs| ==>
        s.outs[i] < |full| && RowsWritten(slow[s.outs[i]], full[s.outs[i]], covered[i])
    }

    /** Every output is covered up to the end of its rows of the tile before `tile`. */
    ghost predicate CoveredBy(h: int, tile: int)
      requires Shaped(s)
      reads `covered
    {
      |covered| == |s.outs| && forall i :: 0 <= i < |covered| ==>
        covered[i] == if tile == 0 then 0 else OutputBand(s, i, Tile(h, OutH(s), tile - 1)).hi
    }

    ghost predicate OnlyOutputs(before: seq<seq<Row>>)
      reads `slow
    {
      |slow| == |before| && forall t :: 0 <= t < |slow| && t !in s.outs ==> slow[t] == before[t]
    }

    /** Writes the rows stage output i holds to slow; refuses a gap. */
    method SpillOne(i: nat) returns (ok: bool)
      requires |slots| == |slow| == |full| && |covered| == |s.outs| && i < |s.outs| && s.outs[i] < |slots|
      requires RowsWritten(slow[s.outs[i]], full[s.outs[i]], covered[i]) && Held(slots[s.outs[i]], full[s.outs[i]])
      modifies `slow, `covered
      ensures ok <==> slots[s.outs[i]].gs <= old(covered)[i]
      ensures |slow| == |old(slow)| && slow == old(slow)[s.outs[i] := slow[s.outs[i]]]
      ensures ok ==> covered == old(covered)[i := Max(old(covered)[i], slots[s.outs[i]].ge)]
      ensures !ok ==> covered == old(covered)
      ensures RowsWritten(slow[s.outs[i]], full[s.outs[i]], covered[i])
    {
      var t := s.outs[i];
      if slots[t].gs > covered[i] { return false; }
      SpillExtends(slow[t], full[t], covered[i], slots[t]);
      slow := slow[t := Spilled(slow[t], slots[t])];
      covered := covered[i := Max(covered[i], slots[t].ge)];
      return true;
    }

    /** Spills every stage output, each at the rows its own operator left. */
    method Spill() returns (ok: bool)
      requires |slots| == |full| && WrittenRight() && (forall i, j :: 0 <= i < j < |s.outs| ==> s.outs[i] != s.outs[j])
      requires forall i :: 0 <= i < |s.outs| ==> Held(slots[s.outs[i]], full[s.outs[i]])
      modifies `slow, `covered
      ensures WrittenRight() && OnlyOutputs(old(slow)) && |slow| == |full| && |covered| == |s.outs|
      ensures ok <==> forall i :: 0 <= i < |s.outs| ==> slots[s.outs[i]].gs <= old(covered)[i]
      ensures ok ==> forall i :: 0 <= i < |s.outs| ==> covered[i] == Max(old(covered)[i], slots[s.outs[i]].ge)
    {
      hide Held, RowsWritten;
      var n := |s.outs|;
      ok := true;
      for i := 0 to n
        invariant ok && WrittenRight() && OnlyOutputs(old(slow))
        invariant forall l :: 0 <= l < i ==> slots[s.outs[l]].gs <= old(covered)[l]
        invariant forall l :: 0 <= l < n ==>
          covered[l] == if l < i then Max(old(covered)[l], slots[s.outs[l]].ge) else old(covered)[l]
      {
        ok := SpillOne(i);
        if !ok { return; }
      }
    }

    /** The tile's input rows and clamped pads, from its output rows. */
    method TileInput(sp: Option<nat>, outStart: int, outEnd: int) returns (inStart: int, inEnd: int, pt: int, pb: int)
      requires Lens() && sp == SpatialOp(s) && Band(outStart, outEnd).Inside(OutH(s))
      ensures Band(inStart, inEnd) == BandAt(s.p, 0, Band(outStart, outEnd))
      ensures sp.Some? ==> var w := s.p.ops[sp.value].kernel.w;
        pt == PadTop(w, Band(outStart, outEnd)) && pb == PadBottom(w, s.p.heights[BandInput(s)], Band(outStart, outEnd))
    {
      WindowBand(s, full, Band(outStart, outEnd));
      hide Ready, BandAt;
      inStart, inEnd, pt, pb := outStart, outEnd, 0, 0;
      if sp.Some? {
        var w := s.p.ops[sp.value].kernel.w;
        var fullInH := s.p.heights[BandInput(s)];
        inStart := outStart * w.stride - w.padTop;
        inEnd := (outEnd - 1) * w.stride - w.padTop + w.Span();
        MulNonNegative(outStart, w.stride);
        MulOrder(outEnd - 1, OutH(s) - 1, w.stride);
        if inStart < 0 { pt := -inStart; inStart := 0; }
        if inEnd > fullInH { pb := inEnd - fullInH; inEnd := fullInH; }
      }
    }

    /** The rows of one tile in fast: its input rows, the loads, every operator. */
    method ComputeTile(outStart: int, outEnd: int, sp: Option<nat>, ghost h: int) returns (err: Error)
      requires outEnd - outStart <= h
      requires Lens() && sp == SpatialOp(s) && Band(outStart, outEnd).Inside(OutH(s)) && InputsRight()
      modifies `slots, `fastUsed, `inH, `outH, `padTop
      ensures Lens()
      ensures err == Ok ==> StripeAt(s, full, slots, |s.p.ops|, Band(outStart, outEnd))
      ensures err == ErrTile ==> WideTile(s, Band(outStart, outEnd))
      ensures err == Ok ==> !WideTile(s, Band(outStart, outEnd))
      ensures err == ErrMem ==> !InputsReach(s) || old(fastUsed) + BandBytes(s, z, h) > fastSize
    {
      hide Ready, OutH, StripeAt, InputsRight, SpatialOp, BandAt, OpsBytes, ListBytes, InputsReach, Sized, BandInput;
      OpsNonNegative(h);
      InRangeLoaded();
      var inStart, inEnd, pt, pb := TileInput(sp, outStart, outEnd);
      var ok := LoadBands(inStart, inEnd, Band(outStart, outEnd), h);
      if !ok { return ErrMem; }
      err := RunOps(inStart, inEnd, outStart, outEnd, sp, pt, pb, h);
    }

    lemma OpsNonNegative(h: int)
      requires Lens() && h >= 1
      ensures OpsBytes(s, z, |s.p.ops|, h) >= 0
    {
      OpsBytesPrefix(s, z, 0, |s.p.ops|, h);
    }

    /** One tile: compute it, spill it, reset the arena. */
    method RunTile(h: int, tile: int, sp: Option<nat>) returns (err: Error)
      requires Lens() && sp == SpatialOp(s) && h >= 1 && 0 <= tile && tile * h < OutH(s)
      requires InputsRight() && WrittenRight() && CoveredBy(h, tile) && fastUsed == fastReserved
      modifies `slots, `slow, `covered, `fastUsed, `inH, `outH, `padTop
      ensures err == Ok ==> Lens() && WrittenRight() && CoveredBy(h, tile + 1) && fastUsed == fastReserved
      ensures err == Ok ==> OnlyOutputs(old(slow)) && NoGap(h, tile) && !WideTile(s, Tile(h, OutH(s), tile))
      ensures err == ErrTile ==> !NoGap(h, tile) || WideTile(s, Tile(h, OutH(s), tile))
      ensures err == ErrMem ==> !InputsReach(s) || fastReserved + BandBytes(s, z, h) > fastSize
    {
      hide Ready, WrittenRight, OutH, StripeAt, InputsRight, SpatialOp, Held, Adjoins, OutputBand, BandBytes, InputsReach, WideTile;
      hide Sized;
      TileInside(h, tile);
      var outStart := tile * h;
      var fullOutH := s.p.heights[BandOutput(s)];
      var outEnd := if fullOutH - outStart < h then fullOutH else outStart + h;
      err := ComputeTile(outStart, outEnd, sp, h);
      if err != Ok { return; }
      OutputsReady(h, tile);
      var ok := Spill();
      if !ok { return ErrTile; }
      fastUsed := fastReserved;
    }

    /** The rows of every stage output on this tile start at or before the end of the tile before. */
    ghost predicate NoGap(h: int, tile: int)
      requires Shaped(s)
    {
      forall i :: 0 <= i < |s.outs| ==> Adjoins(h, tile, i)
    }

    ghost predicate Adjoins(h: int, tile: int, i: nat)
      requires Shaped(s) && i < |s.outs|
    {
      tile > 0 ==> OutputBand(s, i, Tile(h, OutH(s), tile)).lo <= OutputBand(s, i, Tile(h, OutH(s), tile - 1)).hi
    }

    lemma TileInside(h: int, tile: int)
      requires Lens() && h >= 1 && 0 <= tile && tile * h < OutH(s)
      ensures Shaped(s) && Tile(h, OutH(s), tile).Inside(OutH(s)) && BandOutput(s) < |s.p.heights|
      ensures tile > 0 ==> Tile(h, OutH(s), tile - 1).Inside(OutH(s)) && Tile(h, OutH(s), tile - 1).hi == tile * h
      ensures OutH(s) == s.p.heights[BandOutput(s)]
    {
      MulNonNegative(tile, h);
      MulSub(tile, 1, h);
      if tile > 0 { MulNonNegative(tile - 1, h); }
    }

    /** At the end of a tile every stage output is held at its rows, no earlier than the tile before's. */
    lemma OutputsReady(h: int, tile: int)
      requires Lens() && h >= 1 && 0 <= tile && tile * h < OutH(s)
      requires StripeAt(s, full, slots, |s.p.ops|, Tile(h, OutH(s), tile)) && CoveredBy(h, tile)
      ensures forall i, j :: 0 <= i < j < |s.outs| ==> s.outs[i] != s.outs[j]
      ensures forall i :: 0 <= i < |s.outs| ==>
        && s.outs[i] < |slots| && Held(slots[s.outs[i]], full[s.outs[i]])
        && slots[s.outs[i]].Range() == OutputBand(s, i, Tile(h, OutH(s), tile))
        && (slots[s.outs[i]].gs <= covered[i] <==> Adjoins(h, tile, i))
        && Max(covered[i], slots[s.outs[i]].ge) == slots[s.outs[i]].ge
    {
      forall i | 0 <= i < |s.outs|
        ensures s.outs[i] < |slots| && Held(slots[s.outs[i]], full[s.outs[i]])
        ensures slots[s.outs[i]].Range() == OutputBand(s, i, Tile(h, OutH(s), tile))
        ensures slots[s.outs[i]].gs <= covered[i] <==> Adjoins(h, tile, i)
        ensures Max(covered[i], slots[s.outs[i]].ge) == slots[s.outs[i]].ge
      {
        OutputReady(h, tile, i);
      }
    }

    lemma OutputReady(h: int, tile: int, i: nat)
      requires Lens() && h >= 1 && 0 <= tile && tile * h < OutH(s) && i < |s.outs|
      requires StripeAt(s, full, slots, |s.p.ops|, Tile(h, OutH(s), tile)) && CoveredBy(h, tile)
      ensures s.outs[i] < |slots| && Held(slots[s.outs[i]], full[s.outs[i]])
      ensures slots[s.outs[i]].Range() == OutputBand(s, i, Tile(h, OutH(s), tile))
      ensures slots[s.outs[i]].gs <= covered[i] <==> Adjoins(h, tile, i)
      ensures Max(covered[i], slots[s.outs[i]].ge) == slots[s.outs[i]].ge
    {
      hide Ready, OutH, HeldAt, StripeCheck.Available, Held, BandAt, Ahead;
      InRangeLoaded();
      TileInside(h, tile);
      var last := Tile(h, OutH(s), tile);
      OutputAt(s, full, i, last);
      OutputBandsAdvance(s, full, i, if tile > 0 then Tile(h, OutH(s), tile - 1) else last, last);
    }

    /** Nothing of the outputs is written yet: fresh slow tensors of their heights. */
    method AllocOutputsSlow() returns (ok: bool)
      requires Lens() && InputsRight()
      modifies `slow, `covered, `slowUsed
      ensures Lens() && (ok ==> WrittenRight() && InputsRight() && OnlyOutputs(old(slow)))
      ensures ok ==> CoveredBy(0, 0)
      ensures ok <==> old(slowUsed) + SlowBytes(s, z, |s.outs|) <= slowSize
    {
      hide Ready, SpatialOp, RowsBytes;
      InRangeLoaded();
      InputsApart();
      var n := |s.outs|;
      covered := seq(n, _ => 0);
      ok := true;
      for i := 0 to n
        invariant Lens() && ok && OnlyOutputs(old(slow))
        invariant forall l :: 0 <= l < n ==> covered[l] == 0
        invariant slowUsed == old(slowUsed) + SlowBytes(s, z, i) && (i > 0 ==> slowUsed <= slowSize)
        invariant forall l :: 0 <= l < i ==> |slow[s.outs[l]]| == s.p.heights[s.outs[l]]
      {
        SlowBytesPrefix(s, z, i + 1, n);
        var t := s.outs[i];
        var bytes := RowsBytes(z, t, s.p.heights[t]);
        if slowUsed + bytes > slowSize { return false; }
        slowUsed := slowUsed + bytes;
        slow := slow[t := seq(s.p.heights[t], r => junk(t, r))];
      }
    }

    /** No stage input is a stage output. */
    lemma InputsApart()
      requires Ready(s, full)
      ensures forall i :: 0 <= i < |s.ins| ==> s.ins[i] !in s.outs
      ensures forall t :: 0 <= t < |full| ==> |full[t]| == s.p.heights[t]
    {
      forall i | 0 <= i < |s.ins| ensures s.ins[i] !in s.outs {
        forall l | 0 <= l < |s.outs| ensures s.outs[l] != s.ins[i] { assert StripeCheck.Produced(s, s.outs[l]); }
      }
    }

    /** The check after the last tile: every row of every output was written. */
    method CheckCovered() returns (ok: bool)
      requires Lens() && WrittenRight()
      ensures ok <==> forall i :: 0 <= i < |s.outs| ==> covered[i] == s.p.heights[s.outs[i]]
      ensures ok ==> forall i :: 0 <= i < |s.outs| ==> slow[s.outs[i]] == full[s.outs[i]]
    {
      hide Ready, SpatialOp;
      InRangeLoaded();
      InputsApart();
      var n := |s.outs|;
      for i := 0 to n
        invariant forall l :: 0 <= l < i ==> covered[l] == s.p.heights[s.outs[l]]
      {
        if covered[i] != s.p.heights[s.outs[i]] { return false; }
      }
      return true;
    }

    /** No tile leaves a gap and the last ends every output exactly when the tiles leave every output whole. */
    lemma GaplessIff(h: int, n: int)
      requires Ready(s, full) && h >= 1 && n >= 1 && (n - 1) * h < OutH(s) <= n * h
      ensures Gapless(s, h) ==> forall tile :: 0 <= tile < n ==> NoGap(h, tile)
      ensures Gapless(s, h) ==> Ended(h, n)
      ensures (n > 1 ==> NoGap(h, 1)) && Ended(h, n) ==> Gapless(s, h)
    {
      hide Ready, OutH, OutputBand, SpatialOp;
      InRangeLoaded();
      MulOrder(n, 1, h);
      if n > 1 { MulOrder(1, n - 1, h); }
      forall tile, i | 0 <= tile < n && 0 <= i < |s.outs| && Gapless(s, h) ensures Adjoins(h, tile, i) {
        TilesAdjoinAt(h, n, tile, i);
      }
      forall i | 0 <= i < |s.outs| && Gapless(s, h) ensures EndedAt(h, n, i) { EndsAt(h, n, i); }
      if (n > 1 ==> NoGap(h, 1)) && Ended(h, n) {
        forall i | 0 <= i < |s.outs| && Ahead(s, s.outs[i])
          ensures InputWalked(s.p.ops[SpatialOp(s).value].kernel.w, s.p.heights[BandInput(s)], OutH(s), h)
        {
          EndsAt(h, n, i);
          if n > 1 {
            assert Adjoins(h, 1, i);
            TilesAdjoinAt(h, n, 1, i);
          }
        }
      }
    }

    ghost predicate Ended(h: int, n: int)
      requires Shaped(s)
    {
      forall i :: 0 <= i < |s.outs| ==> EndedAt(h, n, i)
    }

    ghost predicate EndedAt(h: int, n: int, i: nat)
      requires Shaped(s) && i < |s.outs|
    {
      OutputBand(s, i, Tile(h, OutH(s), n - 1)).hi == s.p.heights[s.outs[i]]
    }

    lemma CoveredEnds(h: int, n: int)
      requires Shaped(s) && CoveredBy(h, n) && n >= 1
      ensures Ended(h, n) <==> forall i :: 0 <= i < |s.outs| ==> covered[i] == s.p.heights[s.outs[i]]
    {
      hide OutH, OutputBand;
      forall i | 0 <= i < |s.outs| ensures EndedAt(h, n, i) <==> covered[i] == s.p.heights[s.outs[i]] {}
    }

    lemma TilesAdjoinAt(h: int, n: int, tile: int, i: nat)
      requires Ready(s, full) && h >= 1 && (n - 1) * h < OutH(s) && 0 <= tile < n && i < |s.outs|
      ensures tile > 0 ==> (Adjoins(h, tile, i) <==>
        !(Ahead(s, s.outs[i]) && s.p.ops[SpatialOp(s).value].kernel.w.Span() < s.p.ops[SpatialOp(s).value].kernel.w.stride))
      ensures tile == 0 ==> Adjoins(h, tile, i)
      ensures tile > 0 ==> h < OutH(s)
    {
      hide Ready, Ahead, OutH, OutputBand, SpatialOp;
      InRangeLoaded();
      if tile > 0 {
        MulOrder(tile, n - 1, h);
        MulOrder(1, tile, h);
        MulSub(tile, 1, h);
        MulNonNegative(tile - 1, h);
        TilesAdjoin(s, full, i, Tile(h, OutH(s), tile - 1), Tile(h, OutH(s), tile));
      }
    }

    lemma EndsAt(h: int, n: int, i: nat)
      requires Ready(s, full) && h >= 1 && n >= 1 && (n - 1) * h < OutH(s) <= n * h && i < |s.outs|
      ensures EndedAt(h, n, i) <==>
        !(Ahead(s, s.outs[i]) &&
          var w := s.p.ops[SpatialOp(s).value].kernel.w; (OutH(s) - 1) * w.stride - w.padTop + w.Span() < s.p.heights[BandInput(s)])
    {
      hide Ready, Ahead, OutH, OutputBand, SpatialOp;
      InRangeLoaded();
      MulNonNegative(n - 1, h);
      MulSub(n, 1, h);
      LastTileEnds(s, full, i, Tile(h, OutH(s), n - 1));
    }

    /** Every tile of h output rows, and the check that the outputs are whole. */
    method RunTiles(h: int, sp: Option<nat>) returns (err: Error)
      requires Lens() && sp == SpatialOp(s) && InputsRight() && WrittenRight() && CoveredBy(h, 0)
      requires fastUsed == fastReserved && 1 <= h <= OutH(s) && fastReserved + BandBytes(s, z, h) <= fastSize
      modifies `slots, `slow, `covered, `fastUsed, `inH, `outH, `padTop
      ensures err == Ok ==> Lens() && OnlyOutputs(old(slow)) && forall i :: 0 <= i < |s.outs| ==> slow[s.outs[i]] == full[s.outs[i]]
      ensures err == Ok ==> Gapless(s, h) && !WideTiles(s, h)
      ensures err == ErrTile ==> !Gapless(s, h) || WideTiles(s, h)
      ensures err == ErrMem ==> !InputsReach(s)
    {
      hide Ready, WrittenRight, SpatialOp, OutH, Gapless, Ended, NoGap, WideTile, BandBytes, InputsReach, Sized;
      InRangeLoaded();
      InputsApart();
      var fullOutH := s.p.heights[BandOutput(s)];
      var numTiles := 1 + (fullOutH - 1) / h;
      TilesOf(fullOutH, h, numTiles);
      OutHIs(s);
      GaplessIff(h, numTiles);
      err := Ok;
      for tile := 0 to numTiles
        invariant Lens() && err == Ok && WrittenRight() && InputsRight() && OnlyOutputs(old(slow))
        invariant CoveredBy(h, tile) && fastUsed == fastReserved
        invariant tile > 1 ==> NoGap(h, 1)
        invariant forall l :: 0 <= l < tile ==> !WideTile(s, Tile(h, OutH(s), l))
      {
        MulOrder(tile, numTiles - 1, h);
        err := RunTile(h, tile, sp);
        assert TileStarts(h, OutH(s), tile);
        if err != Ok { return; }
      }
      forall l | 0 <= l && TileStarts(h, OutH(s), l) ensures l < numTiles { MulOrder(numTiles, l, h); }
      CoveredEnds(h, numTiles);
      var ok := CheckCovered();
      if !ok { return ErrTile; }
    }

    /**
     * Runs the stage in bands of the height the plan states or the search
     * finds. On Ok every stage output in slow is the whole-tensor output.
     * Memory fails only for the outputs, and for an input that ends before the
     * band; the stage is refused exactly when no band fits, a pad is past the
     * tile context, or an output is ahead of a window operator that skips rows.
     */
    method ExecStageTiled() returns (err: Error)
      requires Lens() && InputsRight() && fastUsed == fastReserved
      modifies this
      ensures err == Ok ==> Lens() && OnlyOutputs(old(slow)) && forall i :: 0 <= i < |s.outs| ==> slow[s.outs[i]] == full[s.outs[i]]
      ensures err == Outcome(s, z, old(fastSize - fastReserved), old(slowSize - slowUsed)) || (err == ErrMem && !InputsReach(s))
    {
      hide Ready, WrittenRight, SpatialOp, OutH, Gapless, WideTiles, BandBytes, InputsReach, SlowBytes, StripeBand, Sized;
      InRangeLoaded();
      InputsApart();
      var sp := FindSpatial();
      var ok := AllocOutputsSlow();
      if !ok { return ErrMem; }
      var h := BandRows(s, z, sp, fastSize - fastReserved);
      if h.None? { return ErrTile; }
      BandFits(h.value);
      err := RunTiles(h.value, sp);
    }

    lemma BandFits(h: nat)
      requires Sized(s, z) && StripeBand(s, z, fastSize - fastReserved) == Some(h)
      ensures 1 <= h <= OutH(s) && fastReserved + BandBytes(s, z, h) <= fastSize
    {
      hide BandBytes, OutH, FittingBand;
    }

    lemma TilesOf(outH: int, h: int, n: int)
      requires 1 <= h && outH >= 1 && n == 1 + (outH - 1) / h
      ensures n >= 1 && (n - 1) * h < outH <= n * h
    {
      FloorBound(outH - 1, h);
      MulSub(n, 1, h);
    }

    /** The stage's window operator. */
    method FindSpatial() returns (sp: Option<nat>)
      requires OneSpatial(s)
      ensures sp == SpatialOp(s)
    {
      for j := 0 to |s.p.ops|
        invariant SpatialBelow(s, j) == None
      {
        if s.p.ops[j].kernel.Spatial? {
          SpatialIs(s, j);
          return Some(j);
        }
      }
      return None;
    }
  }

  /** What an accepted stage whose inputs reach comes to, with `room` fast and `slowRoom` slow bytes free. */
  ghost function Outcome(s: Stage, z: Sizing, room: int, slowRoom: int): Error
    requires Sized(s, z)
  {
    if SlowBytes(s, z, |s.outs|) > slowRoom then ErrMem
    else
      match StripeBand(s, z, room)
      case None => ErrTile
      case Some(h) => if Gapless(s, h) && !WideTiles(s, h) then Ok else ErrTile
  }

  /**
   * A stage run from fresh state: the stripe only when the check accepts it,
   * and then on Ok each stage output in slow memory is what its operators give
   * on whole tensors. The plan, the sizes and the room decide the result, but
   * for an input shorter than the band.
   */
  method RunStripe(s: Stage, env: Env, z: Sizing, fastSize: int, slowSize: int, reserved: int, slowTaken: int,
                   junk: (Tensor, int) -> Row)
    returns (err: Error, slow: Env)
    requires Loaded(s) && Env?(s.p, env) && Sized(s, z)
    ensures |slow| == |env|
    ensures err == Ok ==> Accepted(s)
    ensures err == Ok ==> forall i :: 0 <= i < |s.outs| ==> slow[s.outs[i]] == Whole(s.p, env, |s.p.ops|)[s.outs[i]]
    ensures err == Ok ==> forall t :: 0 <= t < |slow| && t !in s.outs ==> slow[t] == env[t]
    ensures !Accepted(s) ==> err == ErrTile
    ensures Accepted(s) ==> err == Outcome(s, z, fastSize - reserved, slowSize - slowTaken) || (err == ErrMem && !InputsReach(s))
  {
    hide Loaded, Ordered, Accepted, Outcome, InputsReach, Sized, Fits, Solves;
    slow := env;
    InputsUnwritten(s);
    var ok := StageReadsItsBand(s);
    if !ok { return ErrTile, env; }
    var exec := new StripeExec(s, env, z, fastSize, slowSize, reserved, slowTaken, junk);
    forall i | 0 <= i < |s.ins| ensures Whole(s.p, env, |s.p.ops|)[s.ins[i]] == env[s.ins[i]] {
      InputsKept(s.p, env, s.ins[i]);
    }
    err := exec.ExecStageTiled();
    if err == Ok { slow := exec.slow; }
  }

  lemma InputsUnwritten(s: Stage)
    requires Loaded(s)
    ensures Shaped(s) && InRange(s.p) && forall i, j :: 0 <= i < |s.ins| && 0 <= j < |s.p.ops| ==> s.ins[i] !in s.p.ops[j].outs
  {}
}
