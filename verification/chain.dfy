/**
 * The chain executor: stages tiled together, band by band, through fast
 * buffers that a line-buffered chain keeps and rolls from tile to tile.
 *
 * ChainExec holds what the executor updates in place: the fast band buffers
 * and the rows each one holds, the slow tensors, the per-tile ranges, the
 * arena offsets and the tile context. Whole tensors are the specification:
 * `full` is what running the operators one after another gives.
 *
 * Between operators the invariant is that an operator which has run on the
 * current tile holds exactly its own rows of it, and one which has not still
 * holds those of the tile before, which is what it rolls.
 */
module Chain {
  import opened Rows
  import opened BandPlan
  import opened BandRanges
  import opened ChainBudget
  import opened ChainBytes
  import opened ChainKernels
  import opened ChainState
  import opened ChainTiles

  class ChainExec {
    const ch: ChainPlan
    const fastSize: int
    const slowSize: int
    /** Stale bytes a fresh fast allocation starts with. */
    const junk: (Tensor, int) -> Row
    /** Whole-tensor values of every tensor, the executor's specification. */
    ghost const full: Env

    var slots: seq<Slot>
    var slow: seq<seq<Row>>
    // per spatial operator of the tile: output range, clamped pads, input rows
    var walk: seq<OpWalk>
    // per stage: composed receptive field, input rows of a full tile, input range of the current tile
    var info: seq<Field>
    var sIn: seq<int>
    var stageIn: seq<Band>
    /** Per chain output: the rows the tiles have written so far. */
    var covered: seq<int>
    var fastUsed: int
    var fastReserved: int
    var slowUsed: int
    // the tile context
    var inH: int
    var outH: int
    var padTop: int
    var outRowStart: int
    var inRowStart: int

    /** A chain about to run on the tensors `env`, its weights already taking the first `reserved` fast bytes. */
    constructor (ch: ChainPlan, env: Env, fastSize: int, slowSize: int, reserved: int, slowTaken: int, junk: (Tensor, int) -> Row)
      requires WellFormed(ch) && Env?(ch.p, env)
      ensures this.ch == ch && this.fastSize == fastSize && this.slowSize == slowSize
      ensures full == Whole(ch.p, env, |ch.p.ops|) && Static(ch, full) && slow == env
      ensures Lens() && fastUsed == fastReserved == reserved && slowUsed == slowTaken
    {
      WholeSolves(ch.p, env);
      this.ch, this.fastSize, this.slowSize, this.junk := ch, fastSize, slowSize, junk;
      full := Whole(ch.p, env, |ch.p.ops|);
      slots := seq(|ch.p.heights|, _ => Slot(Unset, [], 0, 0));
      slow := env;
      walk := seq(|ch.p.ops|, _ => OpWalk(0, 0, 0, 0, 0));
      info := seq(|ch.cuts| - 1, _ => Field(1, 1, 0));
      sIn := seq(|ch.cuts| - 1, _ => 0);
      stageIn := seq(|ch.cuts| - 1, _ => Band(0, 0));
      covered := seq(|ch.outs|, _ => 0);
      fastUsed, fastReserved, slowUsed := reserved, reserved, slowTaken;
      inH, outH, padTop, outRowStart, inRowStart := 0, 0, 0, 0, 0;
    }

    /** Arrays are as long as what indexes them. */
    ghost predicate Lens()
      reads this
    {
      && |slots| == |ch.p.heights| && |slow| == |ch.p.heights|
      && |walk| == |ch.p.ops| && |covered| == |ch.outs|
      && |info| == |ch.cuts| - 1 && |sIn| == |ch.cuts| - 1 && |stageIn| == |ch.cuts| - 1
    }

    /** Fast bump allocation of `rows` rows of t. */
    method AllocFast(t: Tensor, rows: int) returns (ok: bool)
      requires ch.align >= 1 && t < |ch.rowBytes| && t < |slots| && rows >= 0
      modifies `slots, `fastUsed
      ensures ok <==> old(fastUsed) + ch.TensorBytes(t, rows) <= fastSize
      ensures !ok ==> slots == old(slots) && fastUsed == old(fastUsed)
      ensures ok ==> fastUsed == old(fastUsed) + ch.TensorBytes(t, rows)
      ensures ok ==> |slots| == |old(slots)| && slots == old(slots)[t := slots[t]]
      ensures ok ==> slots[t].place == InFast && |slots[t].buf| == rows && slots[t].Range() == old(slots)[t].Range()
    {
      var bytes := ch.TensorBytes(t, rows);
      ok := fastUsed + bytes <= fastSize;
      if ok {
        slots := slots[t := slots[t].(place := InFast, buf := seq(rows, i => junk(t, i)))];
        fastUsed := fastUsed + bytes;
      }
    }

    /** Fast allocations of `rows` rows for a list of tensors. */
    method AllocList(ts: seq<Tensor>, rows: int) returns (ok: bool)
      requires ch.align >= 1 && |ch.rowBytes| == |slots| && rows >= 0
      requires forall i :: 0 <= i < |ts| ==> ts[i] < |ch.rowBytes|
      modifies `slots, `fastUsed
      ensures OnlyChanged(old(slots), slots, ts)
      ensures |ts| > 0 ==> (ok <==> old(fastUsed) + ch.ListBytes(ts, |ts|, rows) <= fastSize)
      ensures |ts| == 0 ==> ok
      ensures ok ==> fastUsed == old(fastUsed) + ch.ListBytes(ts, |ts|, rows)
      ensures ok ==> forall k :: 0 <= k < |ts| ==> slots[ts[k]].place == InFast && |slots[ts[k]].buf| == rows
    {
      ok := true;
      for k := 0 to |ts|
        invariant ok && OnlyChanged(old(slots), slots, ts)
        invariant fastUsed == old(fastUsed) + ch.ListBytes(ts, k, rows)
        invariant k > 0 ==> fastUsed <= fastSize
        invariant forall l :: 0 <= l < k ==> slots[ts[l]].place == InFast && |slots[ts[l]].buf| == rows
      {
        ok := AllocFast(ts[k], rows);
        if !ok {
          ListBytesPrefix(ch, ts, k + 1, |ts|, rows);
          return;
        }
      }
    }

    /** Output k of operator j has room for the rows b, of which the rolled ones are already in place. */
    ghost predicate OutputReady(j: nat, k: nat, b: Band)
      requires Static(ch, full) && OpOk(ch, slots, j) && k < |ch.p.ops[j].outs|
      reads this
    {
      var t := ch.p.ops[j].outs[k];
      HasRoom(slots[t].place, slots[t].buf, full[t], outRowStart, b)
    }

    /** The tile context and the operands are as the kernel of operator j needs them to leave the rows b. */
    ghost predicate OperandsReady(j: nat, offs: seq<nat>, b: Band)
      requires Static(ch, full) && OpOk(ch, slots, j) && |offs| == |ch.p.ops[j].ins|
      reads this
    {
      var op := ch.p.ops[j];
      && 0 <= outRowStart && 0 <= outH && outRowStart + outH == b.Rows() && b.Inside(HeightAt(ch.p, j + 1, LastH(ch)))
      && (match op.kernel
          case Pointwise(_, concat, _) =>
            && inRowStart == outRowStart && (concat ==> outRowStart == 0)
            && forall i :: 0 <= i < |op.ins| ==>
              && offs[i] + b.Rows() <= |slots[op.ins[i]].buf|
              && HoldsFrom(slots[op.ins[i]].buf, offs[i], full[op.ins[i]], b)
          case Spatial(w, _) =>
            var in_ := Back(w, ch.p.heights[op.ins[0]], b);
            && inRowStart == 0 && inH == in_.Rows() && padTop == PadTop(w, b)
            && HoldsRows(slots[op.ins[0]].buf, full[op.ins[0]], in_))
    }

    /** The kernel of operator j on the current tile context, its operands read past `offs`. */
    method Kernel(j: nat, offs: seq<nat>, ghost b: Band)
      requires Static(ch, full) && Ordered(ch.p) && OpOk(ch, slots, j) && |offs| == |ch.p.ops[j].ins|
      requires OperandsReady(j, offs, b)
      requires forall k :: 0 <= k < |ch.p.ops[j].outs| ==> OutputReady(j, k, b)
      modifies `slots
      ensures OpOk(ch, slots, j) && OnlyChanged(old(slots), slots, ch.p.ops[j].outs) && SameBuffers(old(slots), slots)
      ensures forall t :: 0 <= t < |slots| ==> slots[t].Range() == old(slots)[t].Range()
      ensures forall k :: 0 <= k < |ch.p.ops[j].outs| ==>
        HoldsRows(slots[ch.p.ops[j].outs[k]].buf, full[ch.p.ops[j].outs[k]], b)
    {
      var op := ch.p.ops[j];
      var n := |op.outs|;
      for k := 0 to n
        invariant OpOk(ch, slots, j) && OperandsReady(j, offs, b)
        invariant OnlyChanged(old(slots), slots, op.outs) && SameBuffers(old(slots), slots)
        invariant forall t :: 0 <= t < |slots| ==> slots[t].Range() == old(slots)[t].Range()
        invariant forall l :: k <= l < n ==> OutputReady(j, l, b)
        invariant forall l :: 0 <= l < k ==> HoldsRows(slots[op.outs[l]].buf, full[op.outs[l]], b)
      {
        OutputsDistinct(ch.p, j, k);
        label before:
        KernelOutput(j, k, offs, b);
        forall l | k < l < n ensures OutputReady(j, l, b) {
          assert old@before(OutputReady(j, l, b)) && op.outs[l] != op.outs[k];
        }
      }
    }

    /** One output of the kernel. */
    method KernelOutput(j: nat, k: nat, offs: seq<nat>, ghost b: Band)
      requires Static(ch, full) && OpOk(ch, slots, j) && k < |ch.p.ops[j].outs| && |offs| == |ch.p.ops[j].ins|
      requires OperandsReady(j, offs, b) && OutputReady(j, k, b)
      requires forall i :: 0 <= i < |ch.p.ops[j].ins| ==> ch.p.ops[j].ins[i] != ch.p.ops[j].outs[k]
      modifies `slots
      ensures OpOk(ch, slots, j) && OperandsReady(j, offs, b)
      ensures slots == old(slots)[ch.p.ops[j].outs[k] := old(slots)[ch.p.ops[j].outs[k]].(buf := slots[ch.p.ops[j].outs[k]].buf)]
      ensures |slots[ch.p.ops[j].outs[k]].buf| == |old(slots)[ch.p.ops[j].outs[k]].buf|
      ensures HoldsRows(slots[ch.p.ops[j].outs[k]].buf, full[ch.p.ops[j].outs[k]], b)
    {
      var op := ch.p.ops[j];
      var t := op.outs[k];
      var y: seq<Row>;
      assert FitsAt(ch.p, j, LastH(ch));
      match op.kernel {
        case Pointwise(_, _, rowOf) =>
          var bands := slots;
          var bufs := seq(|op.ins|, i requires 0 <= i < |op.ins| => bands[op.ins[i]].buf);
          y := PointwiseRows(rowOf, k, bufs, offs, inRowStart, outRowStart, outH, slots[t].buf);
          PointwiseMeans(ch.p, full, j, k, bufs, offs, outRowStart, slots[t].buf, y, b);
        case Spatial(w, windowed) =>
          y := WindowRows(windowed, k, w, slots[op.ins[0]].buf, inH, padTop, inRowStart, outRowStart, outH, slots[t].buf);
          WindowMeans(ch.p, full, j, k, slots[op.ins[0]].buf, HeightAt(ch.p, j + 1, LastH(ch)), outRowStart, slots[t].buf, y, b);
      }
      slots := slots[t := slots[t].(buf := y)];
    }

    /** The tile context, the outputs and the placed operands are ready for operator j's rows b. */
    ghost predicate KernelReady(j: nat, b: Band)
      requires Static(ch, full) && OpOk(ch, slots, j)
      reads this
    {
      && 0 <= outRowStart && 0 <= outH && outRowStart + outH == b.Rows()
      && (forall k :: 0 <= k < |ch.p.ops[j].outs| ==> OutputReady(j, k, b))
      && match ch.p.ops[j].kernel
         case Pointwise(_, concat, _) =>
           && inRowStart == outRowStart && (concat ==> outRowStart == 0)
           && (forall i :: 0 <= i < |ch.p.ops[j].ins| ==> OperandPlaced(ch, full, slots, j, i, b))
         case Spatial(w, _) =>
           var in_ := Back(w, ch.p.heights[ch.p.ops[j].ins[0]], b);
           && inRowStart == 0 && inH == in_.Rows() && padTop == PadTop(w, b)
           && HoldsRows(slots[ch.p.ops[j].ins[0]].buf, full[ch.p.ops[j].ins[0]], in_)
    }

    /** The operands of any other operator lie on the band from their first rows. */
    lemma UnshiftedReady(j: nat, zeros: seq<nat>, b: Band)
      requires Static(ch, full) && OpOk(ch, slots, j) && KernelReady(j, b) && b.Inside(HeightAt(ch.p, j + 1, LastH(ch)))
      requires !IsPair(ch.p.ops[j]) && |zeros| == |ch.p.ops[j].ins| && forall i :: 0 <= i < |zeros| ==> zeros[i] == 0
      ensures OperandsReady(j, zeros, b)
      ensures forall i :: 0 <= i < |ch.p.ops[j].ins| ==> !Uncovered(ch, slots, j, i, b)
    {
      var op := ch.p.ops[j];
      if op.kernel.Pointwise? {
        forall i | 0 <= i < |op.ins|
          ensures zeros[i] + b.Rows() <= |slots[op.ins[i]].buf|
          ensures HoldsFrom(slots[op.ins[i]].buf, zeros[i], full[op.ins[i]], b)
        {
          assert OperandPlaced(ch, full, slots, j, i, b);
        }
      }
    }

    /**
     * Runs the kernel of operator j for output rows b, with each operand of a
     * two-operand elementwise operator shifted from the rows its buffer holds
     * to the band; refuses an operand whose buffer does not cover it.
     */
    method ChainKernel(j: nat, gs: int, ge: int, ghost b: Band) returns (err: Error)
      requires Static(ch, full) && Ordered(ch.p) && OpOk(ch, slots, j)
      requires b == Band(gs, ge) && b.Inside(HeightAt(ch.p, j + 1, LastH(ch)))
      requires KernelReady(j, b)
      modifies `slots
      ensures OpOk(ch, slots, j) && OnlyChanged(old(slots), slots, ch.p.ops[j].outs) && SameBuffers(old(slots), slots)
      ensures forall t :: 0 <= t < |slots| ==> slots[t].Range() == old(slots)[t].Range()
      ensures err == ErrTile <==> exists i :: 0 <= i < |ch.p.ops[j].ins| && old(Uncovered(ch, slots, j, i, b))
      ensures err != ErrMem && (ch.p.ops[j].kernel.Spatial? ==> err == Ok)
      ensures err == Ok ==> forall k :: 0 <= k < |ch.p.ops[j].outs| ==>
        HoldsRows(slots[ch.p.ops[j].outs[k]].buf, full[ch.p.ops[j].outs[k]], b)
    {
      var op := ch.p.ops[j];
      if op.kernel.Spatial? || !op.kernel.binary || |op.ins| != 2 {
        var zeros := seq(|op.ins|, _ => 0);
        UnshiftedReady(j, zeros, b);
        Kernel(j, zeros, b);
        return Ok;
      }
      var offs := [0, 0];
      for i := 0 to 2
        invariant |offs| == 2
        invariant forall l :: i <= l < 2 ==> offs[l] == 0
        invariant forall l :: 0 <= l < i ==> offs[l] >= 0 && offs[l] + b.Rows() <= |slots[op.ins[l]].buf|
        invariant forall l :: 0 <= l < i ==> HoldsFrom(slots[op.ins[l]].buf, offs[l], full[op.ins[l]], b)
        invariant forall l :: 0 <= l < i ==> !Uncovered(ch, slots, j, l, b)
      {
        var t := op.ins[i];
        assert OperandPlaced(ch, full, slots, j, i, b);
        if ch.p.batches[t] == 1 && ch.p.heights[t] > 1 && slots[t].ge > slots[t].gs {
          if slots[t].place == Unset || gs < slots[t].gs || ge > slots[t].ge {
            assert Uncovered(ch, slots, j, i, b);
            return ErrTile;
          }
          offs := offs[i := gs - slots[t].gs];
        }
      }
      Kernel(j, offs, b);
      return Ok;
    }

    /**
     * The line-buffer roll of operator j's only output: the rows the previous
     * tile left that this tile's range [gs, ge) starts with move to the front
     * of the buffer, and the tile context shrinks to the new rows.
     */
    method Roll(j: nat, spatial: bool, gs: int, ge: int) returns (fullyRolled: bool)
      requires Static(ch, full) && OpOk(ch, slots, j) && |ch.p.ops[j].outs| == 1
      requires outRowStart == 0 && inRowStart == 0 && outH == ge - gs && gs < ge <= ch.p.heights[ch.p.ops[j].outs[0]]
      requires Held(slots[ch.p.ops[j].outs[0]], full[ch.p.ops[j].outs[0]])
      requires NoLater(slots[ch.p.ops[j].outs[0]].Range(), Band(gs, ge))
      modifies `slots, `outH, `outRowStart, `inRowStart
      ensures OpOk(ch, slots, j)
      ensures outRowStart >= 0 && outH >= 0 && outRowStart + outH == ge - gs
      ensures inRowStart == if spatial then 0 else outRowStart
      ensures fullyRolled <==> outH == 0
      ensures outRowStart ==
        if ch.p.batches[ch.p.ops[j].outs[0]] == 1 then Max(0, old(slots)[ch.p.ops[j].outs[0]].ge - gs) else 0
      ensures slots == old(slots)[ch.p.ops[j].outs[0] := old(slots)[ch.p.ops[j].outs[0]].(buf := slots[ch.p.ops[j].outs[0]].buf)]
      ensures |slots[ch.p.ops[j].outs[0]].buf| == |old(slots)[ch.p.ops[j].outs[0]].buf|
      ensures HoldsRows(slots[ch.p.ops[j].outs[0]].buf, full[ch.p.ops[j].outs[0]], Band(gs, gs + outRowStart))
    {
      var t := ch.p.ops[j].outs[0];
      fullyRolled := false;
      var existing := outH;
      var this_ := ge - gs;
      if ch.p.batches[t] == 1 && this_ == existing {
        var prev := slots[t].ge - slots[t].gs;
        var overlap := slots[t].ge - gs;
        if overlap < 0 { overlap := 0; }
        if overlap > this_ { overlap := this_; }
        if overlap > prev { overlap := prev; }
        if overlap > 0 {
          var src := gs - slots[t].gs;
          var buf := slots[t].buf;
          slots := slots[t := slots[t].(buf := buf[src..src + overlap] + buf[overlap..])];
          outRowStart := overlap;
          inRowStart := if spatial then 0 else overlap;
          outH := existing - overlap;
          fullyRolled := outH == 0;
        }
      }
    }

    /** A pad of operator j's is past what the tile context can hold. */
    ghost predicate WidePad(j: nat)
      requires OpOk(ch, slots, j) && |walk| == |ch.p.ops|
      reads this
    {
      ch.p.ops[j].kernel.Spatial? && (walk[j].pt > UINT16_MAX || walk[j].pb > UINT16_MAX)
    }

    /** Sets the extents and pads operator j runs under; refuses a pad the context cannot hold. */
    method SetTile(j: nat, curH: int, ghost last: Band) returns (ok: bool)
      requires Static(ch, full) && OpOk(ch, slots, j) && |walk| == |ch.p.ops|
      requires last.Inside(LastH(ch)) && Propagated(ch, walk, j, last) && curH == BandAt(ch.p, j, last).Rows()
      modifies `inH, `outH, `padTop, `outRowStart, `inRowStart
      ensures ok ==> outRowStart == 0 && inRowStart == 0 && outH == BandAt(ch.p, j + 1, last).Rows()
      ensures ok && ch.p.ops[j].kernel.Spatial? ==>
        inH == BandAt(ch.p, j, last).Rows() && padTop == PadTop(ch.p.ops[j].kernel.w, BandAt(ch.p, j + 1, last))
      ensures !ok <==> WidePad(j)
    {
      var op := ch.p.ops[j];
      if op.kernel.Spatial? {
        if walk[j].pt < 0 || walk[j].pt > UINT16_MAX || walk[j].pb < 0 || walk[j].pb > UINT16_MAX {
          return false;
        }
        inH := walk[j].inH;
        outH := walk[j].ge - walk[j].gs;
        padTop := walk[j].pt;
      } else {
        inH := curH;
        outH := curH;
        padTop := 0;
      }
      outRowStart := 0;
      inRowStart := 0;
      return true;
    }

    /** Records the rows the outputs of operator j are about to hold. */
    method Record(j: nat, gs: int, ge: int)
      requires OpOk(ch, slots, j)
      modifies `slots
      ensures OpOk(ch, slots, j) && OnlyChanged(old(slots), slots, ch.p.ops[j].outs)
      ensures forall t :: 0 <= t < |slots| ==> slots[t].place == old(slots)[t].place && slots[t].buf == old(slots)[t].buf
      ensures forall k :: 0 <= k < |ch.p.ops[j].outs| ==> slots[ch.p.ops[j].outs[k]].Range() == Band(gs, ge)
    {
      var outs := ch.p.ops[j].outs;
      for k := 0 to |outs|
        invariant OpOk(ch, slots, j) && OnlyChanged(old(slots), slots, outs)
        invariant forall t :: 0 <= t < |slots| ==> slots[t].place == old(slots)[t].place && slots[t].buf == old(slots)[t].buf
        invariant forall l :: 0 <= l < k ==> slots[outs[l]].Range() == Band(gs, ge)
      {
        slots := slots[outs[k] := slots[outs[k]].(gs := gs, ge := ge)];
      }
    }

    /**
     * Readies the outputs of operator j for the rows [gs, ge): a fresh band
     * per output, or the persistent buffer, rolled where the stage may roll.
     */
    method PlaceOutputs(j: nat, rollable: bool, gs: int, ge: int, ghost last: Band, ghost prev: Band)
      returns (ok: bool, fullyRolled: bool)
      requires Static(ch, full) && OpOk(ch, slots, j)
      requires last.Inside(LastH(ch)) && Band(gs, ge) == BandAt(ch.p, j + 1, last)
      requires outRowStart == 0 && inRowStart == 0 && outH == ge - gs
      requires ch.lineBuffered ==> Persistent(ch, slots, j, ge - gs)
      requires ch.lineBuffered && rollable ==> Ran(ch, full, slots, j, prev) && NoLater(prev, last) && !IsConcat(ch, j)
      modifies `slots, `fastUsed, `outH, `outRowStart, `inRowStart
      ensures OpOk(ch, slots, j) && OnlyChanged(old(slots), slots, ch.p.ops[j].outs)
      ensures ch.lineBuffered ==> ok && SameBuffers(old(slots), slots) && fastUsed == old(fastUsed)
      ensures !ch.lineBuffered ==> (ok <==> old(fastUsed) + OutBytes(ch, j, ge - gs) <= fastSize)
      ensures !ch.lineBuffered && ok ==> fastUsed == old(fastUsed) + OutBytes(ch, j, ge - gs) && !fullyRolled
      ensures ok ==> 0 <= outRowStart && 0 <= outH && outRowStart + outH == ge - gs
      ensures ok ==> inRowStart == if ch.p.ops[j].kernel.Spatial? then 0 else outRowStart
      ensures ok && IsConcat(ch, j) ==> outRowStart == 0
      ensures ok && fullyRolled ==> outH == 0
      ensures ok ==> forall k :: 0 <= k < |ch.p.ops[j].outs| ==> OutputReady(j, k, Band(gs, ge))
    {
      var op := ch.p.ops[j];
      BandInside(ch.p, j + 1, LastH(ch), last);
      assert FitsAt(ch.p, j, LastH(ch));
      ok, fullyRolled := true, false;
      if !ch.lineBuffered {
        ok := AllocList(op.outs, outH);
      } else if rollable && |op.outs| == 1 {
        BandNoLater(ch.p, j + 1, prev, last);
        assert Holds(slots[op.outs[0]], full[op.outs[0]], BandAt(ch.p, j + 1, prev));
        fullyRolled := Roll(j, op.kernel.Spatial?, gs, ge);
      }
    }

    /** The tile context and outputs are ready for operator j's kernel. */
    ghost predicate ComputeReady(j: nat, gs: int, ge: int, fullyRolled: bool, last: Band)
      requires Static(ch, full) && OpOk(ch, slots, j)
      reads this
    {
      && 0 <= outRowStart && 0 <= outH && outRowStart + outH == ge - gs && (fullyRolled ==> outH == 0)
      && (inRowStart == if ch.p.ops[j].kernel.Spatial? then 0 else outRowStart)
      && (IsConcat(ch, j) ==> outRowStart == 0)
      && (ch.p.ops[j].kernel.Spatial? ==>
            inH == BandAt(ch.p, j, last).Rows() && padTop == PadTop(ch.p.ops[j].kernel.w, BandAt(ch.p, j + 1, last)))
      && (forall k :: 0 <= k < |ch.p.ops[j].outs| ==>
            OutputReady(j, k, Band(gs, ge)) && slots[ch.p.ops[j].outs[k]].Range() == Band(gs, ge))
    }

    /** Readies operator j on the current tile: its context, its output buffers, the roll and the bookkeeping. */
    method Prepare(j: nat, rollable: bool, runGs: int, runGe: int, ghost last: Band, ghost prev: Band)
      returns (err: Error, gs: int, ge: int, fullyRolled: bool)
      requires Static(ch, full) && OpOk(ch, slots, j) && |walk| == |ch.p.ops|
      requires last.Inside(LastH(ch)) && Propagated(ch, walk, j, last) && Band(runGs, runGe) == BandAt(ch.p, j, last)
      requires ch.lineBuffered ==> Persistent(ch, slots, j, BandAt(ch.p, j + 1, last).Rows())
      requires ch.lineBuffered && rollable ==> Ran(ch, full, slots, j, prev) && NoLater(prev, last) && !IsConcat(ch, j)
      modifies `slots, `fastUsed, `inH, `outH, `padTop, `outRowStart, `inRowStart
      ensures OpOk(ch, slots, j) && OnlyChanged(old(slots), slots, ch.p.ops[j].outs)
      ensures ch.lineBuffered ==> SameBuffers(old(slots), slots) && fastUsed == old(fastUsed) && err != ErrMem
      ensures err == Ok ==> Band(gs, ge) == BandAt(ch.p, j + 1, last) && ComputeReady(j, gs, ge, fullyRolled, last)
      ensures err == Ok && !ch.lineBuffered ==>
        fastUsed == old(fastUsed) + OutBytes(ch, j, BandAt(ch.p, j + 1, last).Rows())
      ensures !ch.lineBuffered && err != ErrTile ==>
        (err == ErrMem <==> old(fastUsed) + OutBytes(ch, j, BandAt(ch.p, j + 1, last).Rows()) > fastSize)
      ensures !ch.lineBuffered && err == Ok ==> !fullyRolled
      ensures err == ErrTile <==> WidePad(j)
    {
      BandInside(ch.p, j, LastH(ch), last);
      BandInside(ch.p, j + 1, LastH(ch), last);
      hide Solves, Fits, ValidWindows, Stages, HasRoom, Ran, Persistent, HeightAt;
      var op := ch.p.ops[j];
      gs := if op.kernel.Spatial? then walk[j].gs else runGs;
      ge := if op.kernel.Spatial? then walk[j].ge else runGe;
      fullyRolled := false;
      var ok := SetTile(j, runGe - runGs, last);
      if !ok { err := ErrTile; return; }
      ok, fullyRolled := PlaceOutputs(j, rollable, gs, ge, last, prev);
      if !ok { err := ErrMem; return; }
      label placed:
      Record(j, gs, ge);
      forall k | 0 <= k < |op.outs| ensures OutputReady(j, k, Band(gs, ge)) {
        assert old@placed(OutputReady(j, k, Band(gs, ge)));
      }
      err := Ok;
    }

    /** A placed operator is ready for its kernel; the operand of a window operator is never shifted. */
    lemma PlacedIsReady(j: nat, gs: int, ge: int, fullyRolled: bool, last: Band)
      requires Static(ch, full) && OpOk(ch, slots, j)
      requires last.Inside(LastH(ch)) && Band(gs, ge) == BandAt(ch.p, j + 1, last)
      requires ComputeReady(j, gs, ge, fullyRolled, last)
      requires forall i :: 0 <= i < |ch.p.ops[j].ins| ==> OperandPlaced(ch, full, slots, j, i, BandAt(ch.p, j, last))
      ensures Band(gs, ge).Inside(HeightAt(ch.p, j + 1, LastH(ch))) && KernelReady(j, Band(gs, ge))
      ensures ch.p.ops[j].kernel.Pointwise? ==> BandAt(ch.p, j, last) == Band(gs, ge)
    {
      BandInside(ch.p, j, LastH(ch), last);
      BandInside(ch.p, j + 1, LastH(ch), last);
      hide Solves, Stages, ValidWindows, HasRoom, HeightAt;
      if ch.p.ops[j].kernel.Spatial? { assert OperandPlaced(ch, full, slots, j, 0, BandAt(ch.p, j, last)); }
    }

    /** Outputs that hold the band's rows where the bookkeeping says. */
    lemma RowsAreRan(j: nat, gs: int, ge: int, last: Band)
      requires Static(ch, full) && OpOk(ch, slots, j)
      requires last.Inside(LastH(ch)) && Band(gs, ge) == BandAt(ch.p, j + 1, last)
      requires forall k :: 0 <= k < |ch.p.ops[j].outs| ==>
        && slots[ch.p.ops[j].outs[k]].place == InFast && slots[ch.p.ops[j].outs[k]].Range() == Band(gs, ge)
        && HoldsRows(slots[ch.p.ops[j].outs[k]].buf, full[ch.p.ops[j].outs[k]], Band(gs, ge))
      ensures Ran(ch, full, slots, j, last)
    {
      BandInside(ch.p, j + 1, LastH(ch), last);
      assert FitsAt(ch.p, j, LastH(ch));
    }

    /** Runs operator j's kernel on placed operands and outputs, unless every row was carried. */
    method Compute(j: nat, gs: int, ge: int, fullyRolled: bool, ghost last: Band) returns (err: Error)
      requires Static(ch, full) && Ordered(ch.p) && OpOk(ch, slots, j)
      requires last.Inside(LastH(ch)) && Band(gs, ge) == BandAt(ch.p, j + 1, last)
      requires ComputeReady(j, gs, ge, fullyRolled, last)
      requires forall i :: 0 <= i < |ch.p.ops[j].ins| ==> OperandPlaced(ch, full, slots, j, i, BandAt(ch.p, j, last))
      modifies `slots
      ensures OpOk(ch, slots, j) && OnlyChanged(old(slots), slots, ch.p.ops[j].outs) && SameBuffers(old(slots), slots)
      ensures err != ErrMem
      ensures err == Ok ==> Ran(ch, full, slots, j, last)
      ensures err == ErrTile ==> exists i :: 0 <= i < |ch.p.ops[j].ins| && old(Uncovered(ch, slots, j, i, BandAt(ch.p, j, last)))
      ensures err == Ok && !fullyRolled ==>
        forall i :: 0 <= i < |ch.p.ops[j].ins| ==> !old(Uncovered(ch, slots, j, i, BandAt(ch.p, j, last)))
    {
      PlacedIsReady(j, gs, ge, fullyRolled, last);
      hide Static, InRange, BandAt, KernelReady, OperandPlaced, Uncovered, Ran, HoldsRows;
      err := Ok;
      label placed:
      if !fullyRolled {
        err := ChainKernel(j, gs, ge, Band(gs, ge));
      }
      if err == Ok {
        forall k | 0 <= k < |ch.p.ops[j].outs|
          ensures slots[ch.p.ops[j].outs[k]].place == InFast && slots[ch.p.ops[j].outs[k]].Range() == Band(gs, ge)
          ensures HoldsRows(slots[ch.p.ops[j].outs[k]].buf, full[ch.p.ops[j].outs[k]], Band(gs, ge))
        {
          assert old@placed(OutputReady(j, k, Band(gs, ge)));
        }
        RowsAreRan(j, gs, ge, last);
      }
    }

    /** Why operator j may be refused on a tile: a pad past 16 bits, or an operand whose buffer misses the band. */
    ghost predicate Refusable(j: nat, last: Band)
      requires Static(ch, full) && OpOk(ch, slots, j) && |walk| == |ch.p.ops|
      reads this
    {
      WidePad(j) || exists i :: 0 <= i < |ch.p.ops[j].ins| && Uncovered(ch, slots, j, i, BandAt(ch.p, j, last))
    }

    /**
     * One operator of a stage on the current tile: its context, its output
     * bands unless they persist, the roll, the bookkeeping and the kernel.
     * Whether it rolled, was carried whole or computed in full, its outputs
     * then hold exactly its rows of the whole tensors.
     */
    method RunOp(j: nat, rollable: bool, runGs: int, runGe: int, ghost last: Band, ghost prev: Band) returns (err: Error)
      requires Static(ch, full) && Ordered(ch.p) && OpOk(ch, slots, j) && |walk| == |ch.p.ops|
      requires last.Inside(LastH(ch)) && Propagated(ch, walk, j, last) && Band(runGs, runGe) == BandAt(ch.p, j, last)
      requires forall i :: 0 <= i < |ch.p.ops[j].ins| ==> OperandPlaced(ch, full, slots, j, i, BandAt(ch.p, j, last))
      requires ch.lineBuffered ==> Persistent(ch, slots, j, BandAt(ch.p, j + 1, last).Rows())
      requires ch.lineBuffered && rollable ==> Ran(ch, full, slots, j, prev) && NoLater(prev, last) && !IsConcat(ch, j)
      modifies `slots, `fastUsed, `inH, `outH, `padTop, `outRowStart, `inRowStart
      ensures OpOk(ch, slots, j) && OnlyChanged(old(slots), slots, ch.p.ops[j].outs)
      ensures err == Ok ==> Ran(ch, full, slots, j, last)
      ensures ch.lineBuffered ==> SameBuffers(old(slots), slots) && fastUsed == old(fastUsed) && err != ErrMem
      ensures err == Ok && !ch.lineBuffered ==>
        fastUsed == old(fastUsed) + OutBytes(ch, j, BandAt(ch.p, j + 1, last).Rows())
      ensures !ch.lineBuffered && err != ErrTile ==>
        (err == ErrMem <==> old(fastUsed) + OutBytes(ch, j, BandAt(ch.p, j + 1, last).Rows()) > fastSize)
      ensures err == ErrTile ==> old(Refusable(j, last))
      ensures err == Ok && !ch.lineBuffered ==> !old(Refusable(j, last))
    {
      hide Solves, Fits, ValidWindows, Stages, HeightAt, ComputeReady, HoldsRows;
      var op := ch.p.ops[j];
      var gs, ge, fullyRolled;
      err, gs, ge, fullyRolled := Prepare(j, rollable, runGs, runGe, last, prev);
      if err != Ok { return; }
      forall i | 0 <= i < |op.ins|
        ensures OperandPlaced(ch, full, slots, j, i, BandAt(ch.p, j, last))
        ensures Uncovered(ch, slots, j, i, BandAt(ch.p, j, last)) <==> old(Uncovered(ch, slots, j, i, BandAt(ch.p, j, last)))
      {
        assert old(OperandPlaced(ch, full, slots, j, i, BandAt(ch.p, j, last))) && op.ins[i] !in op.outs;
      }
      label ready:
      err := Compute(j, gs, ge, fullyRolled, last);
      OnlyChangedTrans(old(slots), old@ready(slots), slots, op.outs);
      if ch.lineBuffered { SameBuffersTrans(old(slots), old@ready(slots), slots); }
      outH := ge - gs;
      outRowStart := 0;
      inRowStart := 0;
    }

    /** What refuses operator j on the held rows refuses it on the tile's bands. */
    lemma RefusedByTile(j: nat, last: Band)
      requires WellFormed(ch) && Static(ch, full) && OpOk(ch, slots, j) && |walk| == |ch.p.ops|
      requires last.Inside(LastH(ch)) && Propagated(ch, walk, j, last) && ReadsOp(ch, j, last)
      requires InputsLoaded(ch, full, slots, last) && RanBelow(ch, full, slots, j, last)
      ensures Refusable(j, last) <==> OpRefused(ch, j, last)
    {
      hide WellFormed, Solves, Fits, ValidWindows, Stages, HeightAt, HoldsRows, ReadsOp, Missed, Uncovered;
      forall i | 0 <= i < |ch.p.ops[j].ins|
        ensures Uncovered(ch, slots, j, i, BandAt(ch.p, j, last)) <==> Missed(ch, j, i, last)
      {
        OperandFromTile(ch, full, slots, j, i, last);
      }
    }

    /** One operator takes the tile one operator on. */
    method StepOp(j: nat, tile: int, rollable: bool, runGs: int, runGe: int,
                  ghost last: Band, ghost prev: Band, ghost caps: seq<int>) returns (err: Error)
      requires WellFormed(ch) && Static(ch, full) && OpOk(ch, slots, j) && |walk| == |ch.p.ops|
      requires last.Inside(LastH(ch)) && Propagated(ch, walk, j, last) && Band(runGs, runGe) == BandAt(ch.p, j, last)
      requires ReadsOp(ch, j, last)
      requires TileAt(ch, full, slots, j, tile, last, prev, caps) && (ch.lineBuffered ==> CapsCoverTile(ch, caps, last))
      requires rollable ==> tile > 0 && !IsConcat(ch, j)
      requires tile > 0 ==> NoLater(prev, last)
      modifies `slots, `fastUsed, `inH, `outH, `padTop, `outRowStart, `inRowStart
      ensures OpOk(ch, slots, j)
      ensures err == Ok ==> TileAt(ch, full, slots, j + 1, tile, last, prev, caps)
      ensures ch.lineBuffered ==> SameBuffers(old(slots), slots) && fastUsed == old(fastUsed) && err != ErrMem
      ensures err == Ok && !ch.lineBuffered ==>
        fastUsed == old(fastUsed) + OutBytes(ch, j, BandAt(ch.p, j + 1, last).Rows())
      ensures !ch.lineBuffered && err != ErrTile ==>
        (err == ErrMem <==> old(fastUsed) + OutBytes(ch, j, BandAt(ch.p, j + 1, last).Rows()) > fastSize)
      ensures err == ErrTile ==> OpRefused(ch, j, last)
      ensures err == Ok && !ch.lineBuffered ==> !OpRefused(ch, j, last)
    {
      RefusedByTile(j, last);
      forall i | 0 <= i < |ch.p.ops[j].ins| ensures OperandPlaced(ch, full, slots, j, i, BandAt(ch.p, j, last)) {
        OperandFromTile(ch, full, slots, j, i, last);
      }
      assert Ordered(ch.p);
      hide WellFormed, Solves, Fits, ValidWindows, Stages, Held, BandAt;
      err := RunOp(j, rollable, runGs, runGe, last, prev);
      if err == Ok {
        TileAdvances(ch, full, old(slots), slots, j, tile, last, prev, caps);
      }
    }

    /** One operator of the range walk, last to first: its output range, its clamped pads, its input range. */
    method BackOp(j: nat, os: int, oe: int, ghost last: Band) returns (is_: int, ie: int)
      requires Static(ch, full) && Lens() && OpOk(ch, slots, j)
      requires Band(os, oe) == BandAt(ch.p, j + 1, last) && PropagatedFrom(ch, walk, j + 1, last)
      modifies `walk
      ensures Lens() && PropagatedFrom(ch, walk, j, last)
      ensures Band(is_, ie) == BandAt(ch.p, j, last)
    {
      var op := ch.p.ops[j];
      is_, ie := os, oe;
      if op.kernel.Spatial? {
        var w := op.kernel.w;
        var h := ch.p.heights[op.ins[0]];
        is_ := os * w.stride - w.padTop;
        ie := (oe - 1) * w.stride - w.padTop + w.Span();
        var ept, epb := 0, 0;
        if is_ < 0 { ept := -is_; is_ := 0; }
        if ie > h { epb := ie - h; ie := h; }
        walk := walk[j := OpWalk(os, oe, ept, epb, ie - is_)];
      }
      forall i | j <= i < |ch.p.ops| ensures OpInRange(ch.p, ch.p.ops[i]) && Propagated(ch, walk, i, last) {
        if i > j { assert Propagated(ch, old(walk), i, last); }
      }
    }

    /** Walks the ranges of a tile from the chain's output back to its input. */
    method BackPropagate(start: int, end: int, ghost last: Band)
      requires Static(ch, full) && Lens() && last == Band(start, end)
      modifies `walk, `stageIn
      ensures Lens() && PropagatedFrom(ch, walk, 0, last) && Walked(ch, stageIn, 0, last)
    {
      var os, oe := start, end;
      var c := |ch.cuts| - 1;
      while c > 0
        invariant 0 <= c <= |ch.cuts| - 1 && Lens()
        invariant ch.cuts[c] <= |ch.p.ops|
        invariant Band(os, oe) == BandAt(ch.p, ch.cuts[c], last)
        invariant PropagatedFrom(ch, walk, ch.cuts[c], last) && Walked(ch, stageIn, c, last)
      {
        c := c - 1;
        assert ch.cuts[c] <= ch.cuts[c + 1] <= ch.cuts[|ch.cuts| - 1];
        os, oe := BackStage(c, os, oe, last);
      }
    }

    /** The same over the operators of one stage. */
    method BackStage(c: nat, os0: int, oe0: int, ghost last: Band) returns (os: int, oe: int)
      requires Static(ch, full) && Lens() && c < |ch.cuts| - 1 && ch.cuts[c] <= ch.cuts[c + 1] <= |ch.p.ops|
      requires Band(os0, oe0) == BandAt(ch.p, ch.cuts[c + 1], last)
      requires PropagatedFrom(ch, walk, ch.cuts[c + 1], last) && Walked(ch, stageIn, c + 1, last)
      modifies `walk, `stageIn
      ensures Lens() && PropagatedFrom(ch, walk, ch.cuts[c], last) && Walked(ch, stageIn, c, last)
      ensures Band(os, oe) == BandAt(ch.p, ch.cuts[c], last)
    {
      hide Solves, Fits, Stages, ValidWindows;
      os, oe := os0, oe0;
      var j := ch.cuts[c + 1];
      while j > ch.cuts[c]
        invariant ch.cuts[c] <= j <= ch.cuts[c + 1] && Lens()
        invariant Band(os, oe) == BandAt(ch.p, j, last) && PropagatedFrom(ch, walk, j, last)
        invariant stageIn == old(stageIn)
      {
        j := j - 1;
        assert OpInRange(ch.p, ch.p.ops[j]);
        os, oe := BackOp(j, os, oe, last);
      }
      stageIn := stageIn[c := Band(os, oe)];
      forall d | c <= d < |ch.cuts| - 1
        ensures ch.cuts[d] <= |ch.p.ops| && stageIn[d] == BandAt(ch.p, ch.cuts[d], last)
      {
        if d > c { assert Walked(ch, old(stageIn), c + 1, last); }
      }
    }

    /** Whether stage c may roll on this tile: not the first, no window operator clamped, no Concat. */
    method StageRollable(c: nat, tile: int) returns (rollable: bool)
      requires Lens() && c < |ch.cuts| - 1 && ch.cuts[c] <= ch.cuts[c + 1] <= |ch.p.ops|
      ensures rollable <==> ch.lineBuffered && tile > 0 && forall j :: ch.cuts[c] <= j < ch.cuts[c + 1] ==>
        !IsConcat(ch, j) && (ch.p.ops[j].kernel.Spatial? ==> walk[j].pt == 0 && walk[j].pb == 0)
    {
      if !ch.lineBuffered || tile <= 0 { return false; }
      for j := ch.cuts[c] to ch.cuts[c + 1]
        invariant forall i :: ch.cuts[c] <= i < j ==>
          !IsConcat(ch, i) && (ch.p.ops[i].kernel.Spatial? ==> walk[i].pt == 0 && walk[i].pb == 0)
      {
        if IsConcat(ch, j) || (ch.p.ops[j].kernel.Spatial? && (walk[j].pt != 0 || walk[j].pb != 0)) {
          return false;
        }
      }
      return true;
    }

    /** Operator j on the current tile, and the range it leaves running. */
    method StageOp(j: nat, tile: int, rollable: bool, runGs: int, runGe: int,
                   ghost last: Band, ghost prev: Band, ghost caps: seq<int>)
      returns (err: Error, nextGs: int, nextGe: int)
      requires WellFormed(ch) && Static(ch, full) && |slots| == |ch.p.heights| && |walk| == |ch.p.ops| && j < |ch.p.ops|
      requires last.Inside(LastH(ch)) && Band(runGs, runGe) == BandAt(ch.p, j, last)
      requires PropagatedFrom(ch, walk, 0, last) && ReadsTile(ch, last)
      requires TileAt(ch, full, slots, j, tile, last, prev, caps) && (ch.lineBuffered ==> CapsCoverTile(ch, caps, last))
      requires rollable ==> tile > 0 && !IsConcat(ch, j)
      requires tile > 0 ==> NoLater(prev, last)
      modifies `slots, `fastUsed, `inH, `outH, `padTop, `outRowStart, `inRowStart
      ensures |slots| == |ch.p.heights|
      ensures err == Ok ==> TileAt(ch, full, slots, j + 1, tile, last, prev, caps)
      ensures err == Ok ==> Band(nextGs, nextGe) == BandAt(ch.p, j + 1, last)
      ensures ch.lineBuffered ==> SameBuffers(old(slots), slots) && fastUsed == old(fastUsed) && err != ErrMem
      ensures !ch.lineBuffered && err == Ok ==>
        fastUsed - OpsBytes(ch, j + 1, last) == old(fastUsed) - OpsBytes(ch, j, last)
      ensures err == ErrMem ==> old(fastUsed) - OpsBytes(ch, j, last) + OpsBytes(ch, j + 1, last) > fastSize
      ensures err == ErrTile ==> OpRefused(ch, j, last)
      ensures err == Ok && !ch.lineBuffered ==> fastUsed <= fastSize && !OpRefused(ch, j, last)
    {
      assert ReadsOp(ch, j, last);
      hide WellFormed, Solves, Fits, Stages, ValidWindows, TileAt, CapsCoverTile, SameBuffers, ReadsOp, ReadsTile, OpRefused;
      hide OutBytes, PropagatedFrom, BandAt;
      nextGs, nextGe := runGs, runGe;
      PropagatedAt(ch, walk, j, last);
      err := StepOp(j, tile, rollable, runGs, runGe, last, prev, caps);
      if ch.p.ops[j].kernel.Spatial? {
        nextGs, nextGe := walk[j].gs, walk[j].ge;
      }
    }

    /** Runs stage c of the chain on the current tile. */
    method RunStage(c: nat, tile: int, ghost last: Band, ghost prev: Band, ghost caps: seq<int>) returns (err: Error)
      requires WellFormed(ch) && Static(ch, full) && ch.Shaped() && Stages(ch.p, ch.cuts) && ValidWindows(ch.p) && Lens()
      requires c < |ch.cuts| - 1 && ch.cuts[c] <= ch.cuts[c + 1] <= |ch.p.ops| && last.Inside(LastH(ch))
      requires PropagatedFrom(ch, walk, 0, last) && Walked(ch, stageIn, 0, last) && ReadsTile(ch, last)
      requires TileAt(ch, full, slots, ch.cuts[c], tile, last, prev, caps) && (ch.lineBuffered ==> CapsCoverTile(ch, caps, last))
      requires tile > 0 ==> NoLater(prev, last)
      modifies `slots, `fastUsed, `inH, `outH, `padTop, `outRowStart, `inRowStart
      ensures |slots| == |ch.p.heights|
      ensures err == Ok ==> TileAt(ch, full, slots, ch.cuts[c + 1], tile, last, prev, caps)
      ensures ch.lineBuffered ==> SameBuffers(old(slots), slots) && fastUsed == old(fastUsed) && err != ErrMem
      ensures !ch.lineBuffered && err == Ok ==>
        fastUsed - OpsBytes(ch, ch.cuts[c + 1], last) == old(fastUsed) - OpsBytes(ch, ch.cuts[c], last)
      ensures err == ErrMem ==> old(fastUsed) - OpsBytes(ch, ch.cuts[c], last) + OpsBytes(ch, |ch.p.ops|, last) > fastSize
      ensures err == ErrTile ==> TileRefused(ch, last)
      ensures err == Ok && !ch.lineBuffered && old(fastUsed) <= fastSize ==> fastUsed <= fastSize
      ensures err == Ok && !ch.lineBuffered ==> NoneRefused(ch.cuts[c], ch.cuts[c + 1], last)
    {
      hide WellFormed, Static, InRange, Stages, ValidWindows, TileAt, CapsCoverTile, SameBuffers, ReadsTile, OpRefused, Fits;
      hide ch.StageBytes, OpsBytes, PropagatedFrom, Walked, BandAt;
      StaticFits();
      StageStarts(ch, stageIn, c, last, 1);
      SameBuffersSelf(slots);
      var rollable := StageRollable(c, tile);
      var runGs, runGe := stageIn[c].lo, stageIn[c].hi;
      err := Ok;
      for j := ch.cuts[c] to ch.cuts[c + 1]
        invariant |slots| == |ch.p.heights| && err == Ok
        invariant Band(runGs, runGe) == BandAt(ch.p, j, last)
        invariant TileAt(ch, full, slots, j, tile, last, prev, caps)
        invariant ch.lineBuffered ==> SameBuffers(old(slots), slots) && fastUsed == old(fastUsed)
        invariant !ch.lineBuffered ==> fastUsed - OpsBytes(ch, j, last) == old(fastUsed) - OpsBytes(ch, ch.cuts[c], last)
        invariant !ch.lineBuffered && old(fastUsed) <= fastSize ==> fastUsed <= fastSize
        invariant !ch.lineBuffered ==> NoneRefused(ch.cuts[c], j, last)
      {
        label before:
        OpsBytesGrow(ch, j + 1, |ch.p.ops|, last);
        err, runGs, runGe := StageOp(j, tile, rollable, runGs, runGe, last, prev, caps);
        if ch.lineBuffered { SameBuffersTrans(old(slots), old@before(slots), slots); }
        if err != Ok { return; }
      }
    }

    /** No operator from i up to j is refused. */
    ghost predicate NoneRefused(i: nat, j: nat, last: Band)
      requires ch.Shaped() && j <= |ch.p.ops|
    {
      forall l :: i <= l < j ==> !OpRefused(ch, l, last)
    }

    lemma StaticFits()
      requires Static(ch, full)
      ensures ch.Shaped() && |ch.outs| >= 1 && Fits(ch.p, LastH(ch))
    {}

    /** Runs every stage of the chain on the current tile. */
    method RunStages(tile: int, ghost last: Band, ghost prev: Band, ghost caps: seq<int>) returns (err: Error)
      requires WellFormed(ch) && Static(ch, full) && ch.Shaped() && Stages(ch.p, ch.cuts) && ValidWindows(ch.p) && Lens()
      requires last.Inside(LastH(ch))
      requires PropagatedFrom(ch, walk, 0, last) && Walked(ch, stageIn, 0, last) && ReadsTile(ch, last)
      requires TileAt(ch, full, slots, 0, tile, last, prev, caps) && (ch.lineBuffered ==> CapsCoverTile(ch, caps, last))
      requires tile > 0 ==> NoLater(prev, last)
      modifies `slots, `fastUsed, `inH, `outH, `padTop, `outRowStart, `inRowStart
      ensures |slots| == |ch.p.heights|
      ensures err == Ok ==> TileAt(ch, full, slots, |ch.p.ops|, tile, last, prev, caps)
      ensures ch.lineBuffered ==> SameBuffers(old(slots), slots) && fastUsed == old(fastUsed) && err != ErrMem
      ensures !ch.lineBuffered && err == Ok ==> fastUsed == old(fastUsed) + OpsBytes(ch, |ch.p.ops|, last)
      ensures err == ErrMem ==> !ch.lineBuffered && old(fastUsed) + OpsBytes(ch, |ch.p.ops|, last) > fastSize
      ensures err == ErrTile ==> TileRefused(ch, last)
      ensures err == Ok && !ch.lineBuffered && old(fastUsed) <= fastSize ==> fastUsed <= fastSize
      ensures err == Ok && !ch.lineBuffered ==> !TileRefused(ch, last)
    {
      hide WellFormed, Static, InRange, Stages, ValidWindows, TileAt, CapsCoverTile, SameBuffers, ReadsTile, TileRefused;
      hide ch.StageBytes, OpsBytes, PropagatedFrom, Walked, BandAt, NoneRefused, Fits;
      NoBytes(last);
      CutsEnd(ch);
      SameBuffersSelf(slots);
      err := Ok;
      var n := |ch.cuts| - 1;
      for c := 0 to n
        invariant |slots| == |ch.p.heights| && err == Ok && ch.cuts[c] <= |ch.p.ops|
        invariant TileAt(ch, full, slots, ch.cuts[c], tile, last, prev, caps)
        invariant ch.lineBuffered ==> SameBuffers(old(slots), slots) && fastUsed == old(fastUsed)
        invariant !ch.lineBuffered ==> fastUsed == old(fastUsed) + OpsBytes(ch, ch.cuts[c], last)
        invariant !ch.lineBuffered && old(fastUsed) <= fastSize ==> fastUsed <= fastSize
        invariant !ch.lineBuffered ==> NoneRefused(0, ch.cuts[c], last)
      {
        StageStarts(ch, stageIn, c, last, 1);
        label before:
        err := RunStage(c, tile, last, prev, caps);
        if ch.lineBuffered { SameBuffersTrans(old(slots), old@before(slots), slots); }
        if err != Ok {
          return;
        }
        NoneRefusedJoin(ch.cuts[c], ch.cuts[c + 1], last);
      }
      NoneRefusedIs(last);
    }

    lemma NoBytes(last: Band)
      requires ch.Shaped()
      ensures OpsBytes(ch, 0, last) == 0 && NoneRefused(0, 0, last)
    {}

    lemma NoneRefusedJoin(i: nat, j: nat, last: Band)
      requires ch.Shaped() && i <= j <= |ch.p.ops|
      ensures NoneRefused(0, i, last) && NoneRefused(i, j, last) ==> NoneRefused(0, j, last)
    {
      hide OpRefused;
    }

    lemma NoneRefusedIs(last: Band)
      requires ch.Shaped()
      ensures NoneRefused(0, |ch.p.ops|, last) <==> !TileRefused(ch, last)
    {
      hide OpRefused;
    }

    /** Loads the rows every tile starts from: the chain's inputs, from slow into fresh fast bands. */
    method LoadInputs(ghost last: Band) returns (err: Error)
      requires WellFormed(ch) && Static(ch, full) && Lens()
      requires last.Inside(LastH(ch)) && Walked(ch, stageIn, 0, last)
      requires forall i :: 0 <= i < |ch.ins| ==> slow[ch.ins[i]] == full[ch.ins[i]]
      modifies `slots, `fastUsed
      ensures OnlyChanged(old(slots), slots, ch.ins)
      ensures err == Ok ==> InputsLoaded(ch, full, slots, last)
      ensures err == Ok ==> fastUsed == old(fastUsed) + ch.ListBytes(ch.ins, |ch.ins|, BandAt(ch.p, 0, last).Rows())
      ensures err == Ok && |ch.ins| >= 1 ==> fastUsed <= fastSize
      ensures err != ErrTile
      ensures err == ErrMem ==>
        || old(fastUsed) + ch.ListBytes(ch.ins, |ch.ins|, BandAt(ch.p, 0, last).Rows()) > fastSize
        || exists i :: 0 <= i < |ch.ins| && ch.p.heights[ch.ins[i]] < BandAt(ch.p, 0, last).hi
    {
      hide WellFormed, Static, InRange, Stages, ValidWindows, BandAt, Walked, HeightAt, OnlyChanged, Holds;
      InputBand(ch, full, stageIn, last);
      var n := |ch.ins|;
      var lo, hi := stageIn[0].lo, stageIn[0].hi;
      err := Ok;
      NothingChanged(slots, ch.ins);
      for i := 0 to n
        invariant |slots| == |ch.p.heights| && err == Ok
        invariant OnlyChanged(old(slots), slots, ch.ins)
        invariant fastUsed == old(fastUsed) + ch.ListBytes(ch.ins, i, hi - lo) && (i > 0 ==> fastUsed <= fastSize)
        invariant forall l :: 0 <= l < i ==> Holds(slots[ch.ins[l]], full[ch.ins[l]], Band(lo, hi))
      {
        var t := ch.ins[i];
        if hi > ch.p.heights[t] {
          err := ErrMem;
          return;
        }
        ghost var before := slots;
        var ok := AllocFast(t, hi - lo);
        if !ok {
          ListBytesPrefix(ch, ch.ins, i + 1, n, hi - lo);
          err := ErrMem;
          return;
        }
        slots := slots[t := Slot(InFast, slow[t][lo..hi], lo, hi)];
        InputLoads(ch, full, old(slots), before, slots, i, Band(lo, hi));
      }
    }

    /**
     * Writes the rows each chain output holds into its slow tensor, at the
     * range its own operator left; refuses a tile that would leave a gap. The
     * persistent buffers come back for the next tile.
     */
    method SpillOutputs(again: bool) returns (err: Error)
      requires OutsIndexed() && WrittenTo(ch, full, slow, covered)
      requires forall i :: 0 <= i < |ch.outs| ==> Held(slots[ch.outs[i]], full[ch.outs[i]])
      modifies `slots, `slow, `covered
      ensures OutsIndexed()
      ensures err == Ok ==> WrittenTo(ch, full, slow, covered)
      ensures err == Ok ==> forall i :: 0 <= i < |ch.outs| ==> covered[i] == Max(old(covered)[i], old(slots)[ch.outs[i]].ge)
      ensures |slow| == |old(slow)| && forall t :: 0 <= t < |slow| && t !in ch.outs ==> slow[t] == old(slow)[t]
      ensures err == Ok ==> again && ch.lineBuffered ==> slots == old(slots)
      ensures err == Ok && !(again && ch.lineBuffered) ==>
        forall i :: 0 <= i < |ch.outs| ==> slots[ch.outs[i]].place == InSlow
      ensures OnlyChanged(old(slots), slots, ch.outs)
      ensures err != ErrMem
      ensures err == Ok <==> forall i :: 0 <= i < |ch.outs| ==> old(slots)[ch.outs[i]].gs <= old(covered)[i]
    {
      hide Held, Written;
      var n := |ch.outs|;
      err := Ok;
      for i := 0 to n
        invariant OutsIndexed() && err == Ok && WrittenTo(ch, full, slow, covered)
        invariant forall l :: 0 <= l < i ==> old(slots)[ch.outs[l]].gs <= old(covered)[l]
        invariant forall l :: 0 <= l < i ==> covered[l] == Max(old(covered)[l], old(slots)[ch.outs[l]].ge)
        invariant forall l :: i <= l < n ==> covered[l] == old(covered)[l] && slots[ch.outs[l]] == old(slots)[ch.outs[l]]
        invariant |slow| == |old(slow)| && forall t :: 0 <= t < |slow| && t !in ch.outs ==> slow[t] == old(slow)[t]
        invariant again && ch.lineBuffered ==> slots == old(slots)
        invariant !(again && ch.lineBuffered) ==> forall l :: 0 <= l < i ==> slots[ch.outs[l]].place == InSlow
        invariant OnlyChanged(old(slots), slots, ch.outs)
      {
        err := SpillOne(i, again);
        if err != Ok { return; }
      }
    }

    /** The chain's outputs are distinct tensors with a slot each. */
    ghost predicate OutsIndexed()
      reads this
    {
      && |full| == |slots| == |slow| && |covered| == |ch.outs|
      && (forall i :: 0 <= i < |ch.outs| ==> ch.outs[i] < |slots|)
      && (forall i, j :: 0 <= i < j < |ch.outs| ==> ch.outs[i] != ch.outs[j])
    }

    method SpillOne(i: nat, again: bool) returns (err: Error)
      requires OutsIndexed() && WrittenTo(ch, full, slow, covered)
      requires i < |ch.outs| && Held(slots[ch.outs[i]], full[ch.outs[i]])
      modifies `slots, `slow, `covered
      ensures OutsIndexed() && WrittenTo(ch, full, slow, covered)
      ensures err == Ok ==> covered == old(covered)[i := Max(old(covered)[i], old(slots)[ch.outs[i]].ge)]
      ensures err == Ok ==> slow == old(slow)[ch.outs[i] := slow[ch.outs[i]]]
      ensures err == Ok ==> slots == if again && ch.lineBuffered then old(slots)
        else old(slots)[ch.outs[i] := old(slots)[ch.outs[i]].(place := InSlow)]
      ensures err != ErrMem
      ensures err == ErrTile <==> old(slots)[ch.outs[i]].gs > old(covered)[i]
      ensures err == ErrTile ==> slots == old(slots) && slow == old(slow) && covered == old(covered)
    {
      var t := ch.outs[i];
      assert Written(ch, full, slow, i, covered[i]);
      var gs, ge := slots[t].gs, slots[t].ge;
      if gs > covered[i] { return ErrTile; }
      SpillExtends(slow[t], full[t], covered[i], slots[t]);
      var y := Spilled(slow[t], slots[t]);
      WrittenOthers(slow, i, y);
      slow := slow[t := y];
      covered := covered[i := Max(covered[i], ge)];
      if !(again && ch.lineBuffered) {
        slots := slots[t := slots[t].(place := InSlow)];
      }
      return Ok;
    }

    lemma WrittenOthers(before: seq<seq<Row>>, i: nat, y: seq<Row>)
      requires WrittenTo(ch, full, before, covered) && i < |ch.outs|
      requires forall l, j :: 0 <= l < j < |ch.outs| ==> ch.outs[l] != ch.outs[j]
      requires Written(ch, full, before, i, covered[i])
      ensures forall l :: 0 <= l < |ch.outs| && l != i ==> Written(ch, full, before[ch.outs[i] := y], l, covered[l])
    {}

    /** Slow memory is right as far as it is covered, and the inputs are untouched. */
    ghost predicate SlowRight()
      reads this
    {
      && WellFormed(ch) && Static(ch, full) && Lens() && OutsIndexed()
      && (forall i :: 0 <= i < |ch.ins| ==> slow[ch.ins[i]] == full[ch.ins[i]])
      && WrittenTo(ch, full, slow, covered)
    }

    /** Slow memory differs from `before` at the chain's outputs only. */
    ghost predicate SpillsOnly(before: seq<seq<Row>>)
      reads this
    {
      |slow| == |before| && forall t :: 0 <= t < |slow| && t !in ch.outs ==> slow[t] == before[t]
    }

    /** Every output is covered up to the end of its rows of the tile before `tile`. */
    ghost predicate CoveredBy(rows: seq<int>, h: int, tile: int)
      requires ch.Shaped() && |ch.outs| >= 1
    {
      |rows| == |ch.outs| && forall i :: 0 <= i < |rows| ==>
        rows[i] == if tile == 0 then 0 else OutputBand(ch, i, TileBand(ch, h, tile - 1)).hi
    }

    /** A rolling chain's persistent bands, and what the last tile left in them. */
    ghost predicate Rolling(slots_: seq<Slot>, tile: int, prev: Band, caps: seq<int>)
      requires Static(ch, full) && |slots_| == |ch.p.heights|
    {
      ch.lineBuffered ==> Reserved(ch, slots_, caps) && (tile > 0 ==> RanFrom(ch, full, slots_, 0, prev))
    }

    /** What a tile needs of its inputs, and the rest of its bytes. */
    lemma TileInputs(last: Band)
      requires WellFormed(ch) && Static(ch, full) && last.Inside(LastH(ch))
      ensures ch.Shaped() && |ch.ins| >= 1 && OpsBytes(ch, |ch.p.ops|, last) >= 0
      ensures InputsTall(ch) ==> forall i :: 0 <= i < |ch.ins| ==> ch.p.heights[ch.ins[i]] >= BandAt(ch.p, 0, last).hi
    {
      TallInputsLoad(ch, full, last, last.Rows());
      OpsBytesGrow(ch, 0, |ch.p.ops|, last);
    }

    /** Computes the rows of one tile in fast: the range walk, the loads, every stage. */
    method ComputeTile(start: int, end: int, tile: int, ghost prev: Band, ghost caps: seq<int>) returns (err: Error)
      requires ch.Shaped() && Stages(ch.p, ch.cuts) && ValidWindows(ch.p) && |ch.outs| >= 1
      requires SlowRight() && Rolling(slots, tile, prev, caps) && Band(start, end).Inside(LastH(ch))
      requires ReadsTile(ch, Band(start, end)) && (ch.lineBuffered ==> CapsCoverTile(ch, caps, Band(start, end)))
      requires tile > 0 ==> NoLater(prev, Band(start, end))
      modifies `slots, `walk, `stageIn, `fastUsed, `inH, `outH, `padTop, `outRowStart, `inRowStart
      ensures Lens()
      ensures err == Ok ==> InputsLoaded(ch, full, slots, Band(start, end)) && RanBelow(ch, full, slots, |ch.p.ops|, Band(start, end))
      ensures err == Ok ==> Rolling(slots, tile + 1, Band(start, end), caps)
      ensures err == ErrMem ==> !InputsTall(ch) || old(fastUsed) + TileBytes(ch, Band(start, end)) > fastSize
      ensures err == ErrTile ==> TileRefused(ch, Band(start, end))
      ensures err == Ok && !ch.lineBuffered ==>
        old(fastUsed) + TileBytes(ch, Band(start, end)) <= fastSize && !TileRefused(ch, Band(start, end))
    {
      hide WellFormed, Static, InRange, Stages, ValidWindows, TileAt, CapsCoverTile, SameBuffers, ReadsTile, TileRefused, Fits;
      hide PropagatedFrom, Walked, BandAt, Reserved, RanFrom, RanBelow, InputsLoaded, Held, WrittenTo, InputsTall;
      hide OpsBytes, ch.ListBytes;
      ghost var last := Band(start, end);
      TileInputs(last);
      BackPropagate(start, end, last);
      label walked:
      err := LoadInputs(last);
      if err != Ok { return; }
      LoadKeeps(ch, full, old@walked(slots), slots, tile, last, prev, caps);
      err := RunStages(tile, last, prev, caps);
      if err != Ok { return; }
      TileEnds(ch, full, slots, tile, last, prev, caps);
    }

    lemma SlowParts()
      requires SlowRight()
      ensures WellFormed(ch) && Static(ch, full) && Lens() && OutsIndexed() && WrittenTo(ch, full, slow, covered)
      ensures forall i :: 0 <= i < |ch.ins| ==> ch.ins[i] < |slow| && slow[ch.ins[i]] == full[ch.ins[i]]
    {}

    /** Writing the outputs leaves the inputs alone. */
    lemma SlowStaysRight(before: seq<seq<Row>>)
      requires WellFormed(ch) && Static(ch, full) && Lens() && OutsIndexed() && WrittenTo(ch, full, slow, covered)
      requires |slow| == |before| && forall t :: 0 <= t < |slow| && t !in ch.outs ==> slow[t] == before[t]
      requires forall i :: 0 <= i < |ch.ins| ==> ch.ins[i] < |before| && before[ch.ins[i]] == full[ch.ins[i]]
      ensures SlowRight() && SpillsOnly(before)
    {
      InputsNotOutputs(ch);
    }

    /** Spills a computed tile; refuses a gap in an output. */
    method SpillTile(tile: int, h: int, again: bool) returns (err: Error)
      requires ch.Shaped() && |ch.outs| >= 1 && h >= 1 && IsTile(ch, h, tile) && SlowRight()
      requires InputsLoaded(ch, full, slots, TileBand(ch, h, tile)) && RanBelow(ch, full, slots, |ch.p.ops|, TileBand(ch, h, tile))
      requires CoveredBy(covered, h, tile)
      modifies `slots, `slow, `covered
      ensures err == Ok ==> SlowRight() && SpillsOnly(old(slow))
      ensures err == Ok && again && ch.lineBuffered ==> slots == old(slots)
      ensures err == Ok ==> CoveredBy(covered, h, tile + 1) && forall i :: 0 <= i < |ch.outs| ==> !GapAt(ch, h, i, tile)
      ensures err != ErrMem
      ensures err == ErrTile ==> exists i :: 0 <= i < |ch.outs| && GapAt(ch, h, i, tile)
    {
      hide WellFormed, Static, InRange, Stages, ValidWindows, Held, WrittenTo, InputsLoaded, RanBelow, OutputBand, IsTile, Fits;
      hide CoveredBy, GapAt, OutputAdvanced, SlowRight, SpillsOnly;
      SlowParts();
      TilesAdvance(ch, h, tile);
      StaticFits();
      OutputsAdvance(h, tile);
      OutputsHeld(ch, full, slots, TileBand(ch, h, tile));
      err := SpillOutputs(again);
      if err == Ok {
        SpillCovers(h, tile, old(covered), old(slots));
        SlowStaysRight(old(slow));
      } else {
        ghost var i :| 0 <= i < |ch.outs| && old(slots)[ch.outs[i]].gs > old(covered)[i];
        GapFound(h, tile, i, old(covered));
      }
    }

    /** One tile: compute it, spill its rows, reset the arena. */
    method RunTile(tile: int, numTiles: int, h: int, ghost prev: Band, ghost caps: seq<int>) returns (err: Error)
      requires ch.Shaped() && Stages(ch.p, ch.cuts) && ValidWindows(ch.p) && |ch.outs| >= 1
      requires h >= 1 && IsTile(ch, h, tile) && ReadsTile(ch, TileBand(ch, h, tile))
      requires ch.lineBuffered ==> CapsCoverTile(ch, caps, TileBand(ch, h, tile))
      requires SlowRight() && Rolling(slots, tile, prev, caps) && fastUsed == fastReserved
      requires tile > 0 ==> prev == TileBand(ch, h, tile - 1)
      requires CoveredBy(covered, h, tile)
      modifies `slots, `slow, `covered, `walk, `stageIn, `fastUsed, `inH, `outH, `padTop, `outRowStart, `inRowStart
      ensures err == Ok ==> SlowRight() && fastUsed == fastReserved
      ensures err == Ok ==> SpillsOnly(old(slow))
      ensures err == Ok && tile + 1 < numTiles ==> Rolling(slots, tile + 1, TileBand(ch, h, tile), caps)
      ensures err == Ok ==> CoveredBy(covered, h, tile + 1) && forall i :: 0 <= i < |ch.outs| ==> !GapAt(ch, h, i, tile)
      ensures err == ErrMem ==> !InputsTall(ch) || fastReserved + TileBytes(ch, TileBand(ch, h, tile)) > fastSize
      ensures err == ErrTile ==>
        TileRefused(ch, TileBand(ch, h, tile)) || exists i :: 0 <= i < |ch.outs| && GapAt(ch, h, i, tile)
      ensures err == Ok && !ch.lineBuffered ==>
        fastReserved + TileBytes(ch, TileBand(ch, h, tile)) <= fastSize && !TileRefused(ch, TileBand(ch, h, tile))
    {
      hide WellFormed, Static, InRange, Stages, ValidWindows, CapsCoverTile, ReadsTile, TileRefused, WrittenTo, InputsTall;
      hide InputsLoaded, RanBelow, Reserved, RanFrom, TileBytes, IsTile, CoveredBy, GapAt;
      TilesAdvance(ch, h, tile);
      var start := tile * h;
      var end := start + h;
      if end > ch.p.heights[ch.outs[0]] { end := ch.p.heights[ch.outs[0]]; }
      err := ComputeTile(start, end, tile, prev, caps);
      if err != Ok { return; }
      err := SpillTile(tile, h, tile + 1 < numTiles);
      if err != Ok { return; }
      fastUsed := fastReserved;
    }

    /** Spilling a tile's rows without a gap covers the outputs up to its end. */
    lemma SpillCovers(h: int, tile: int, before: seq<int>, held: seq<Slot>)
      requires ch.Shaped() && |ch.outs| >= 1 && tile >= 0 && OutsIndexed() && |held| == |slots|
      requires CoveredBy(before, h, tile) && forall i :: 0 <= i < |ch.outs| ==> OutputAdvanced(h, i, tile)
      requires forall i :: 0 <= i < |ch.outs| ==>
        && held[ch.outs[i]].Range() == OutputBand(ch, i, TileBand(ch, h, tile))
        && held[ch.outs[i]].gs <= before[i] && covered[i] == Max(before[i], held[ch.outs[i]].ge)
      ensures CoveredBy(covered, h, tile + 1) && forall i :: 0 <= i < |ch.outs| ==> !GapAt(ch, h, i, tile)
    {
      hide OutputBand;
      forall i | 0 <= i < |ch.outs|
        ensures covered[i] == OutputBand(ch, i, TileBand(ch, h, tile)).hi && !GapAt(ch, h, i, tile)
      {
        assert OutputAdvanced(h, i, tile);
      }
    }

    lemma OutputsAdvance(h: int, tile: int)
      requires ch.Shaped() && |ch.outs| >= 1 && h >= 1 && IsTile(ch, h, tile) && Fits(ch.p, LastH(ch))
      ensures forall i :: 0 <= i < |ch.outs| ==> OutputAdvanced(h, i, tile)
    {
      forall i | 0 <= i < |ch.outs| ensures OutputAdvanced(h, i, tile) { OutputAdvances(ch, h, i, tile); }
    }

    /** Rows that start past what is covered leave a gap. */
    lemma GapFound(h: int, tile: int, i: nat, before: seq<int>)
      requires ch.Shaped() && |ch.outs| >= 1 && tile >= 0 && i < |ch.outs| && CoveredBy(before, h, tile)
      requires OutputAdvanced(h, i, tile) && OutputBand(ch, i, TileBand(ch, h, tile)).lo > before[i]
      ensures GapAt(ch, h, i, tile)
    {}

    /** Output i starts at 0 in the first tile and ends no earlier than in the tile before. */
    ghost predicate OutputAdvanced(h: int, i: nat, tile: int)
      requires ch.Shaped() && i < |ch.outs|
    {
      var b := OutputBand(ch, i, TileBand(ch, h, tile));
      && b.hi >= 0 && (tile == 0 ==> b.lo == 0)
      && (tile > 0 ==> OutputBand(ch, i, TileBand(ch, h, tile - 1)).hi <= b.hi)
    }

    /** Each stage's composed receptive field. */
    method Setup()
      requires ch.Shaped() && Lens()
      modifies `info
      ensures Lens() && Composed()
    {
      hide InRange, Stages, ValidWindows;
      var n := |ch.cuts| - 1;
      for c := 0 to n
        invariant |info| == n
        invariant forall d :: 0 <= d < c ==> info[d] == StageField(ch, d)
      {
        var f := SetupStage(c);
        info := info[c := f];
      }
    }

    method SetupStage(c: nat) returns (f: Field)
      requires ch.Shaped() && c < |ch.cuts| - 1
      ensures f == StageField(ch, c)
    {
      assert ch.cuts[c] <= ch.cuts[c + 1] <= ch.cuts[|ch.cuts| - 1];
      hide InRange, Stages, ValidWindows;
      f := Field(1, 1, 0);
      for j := ch.cuts[c] to ch.cuts[c + 1]
        invariant f == Compose(ch.p, ch.cuts[c], j)
      {
        match ch.p.ops[j].kernel {
          case Pointwise(_, _, _) =>
          case Spatial(w, _) =>
            f := Field(f.stride * w.stride, f.span + (w.Span() - 1) * f.stride, f.pad + w.padTop * f.stride);
        }
      }
    }

    ghost predicate Composed()
      requires ch.Shaped() && Lens()
      reads this
    {
      forall c :: 0 <= c < |info| ==> info[c] == StageField(ch, c)
    }

    /** Band heights of every stage for tiles of h rows of the last output. */
    method Heights(h: int)
      requires ch.Shaped() && Lens() && Composed()
      modifies `sIn
      ensures Lens() && HeightsFor(h)
    {
      hide InRange, Stages, ValidWindows, StageRows, StageField;
      StageRowsEnd(ch, h);
      var n := |ch.cuts| - 1;
      var out := h;
      var c := n;
      while c > 0
        invariant 0 <= c <= n && |sIn| == n
        invariant out == StageRows(ch.p, ch.cuts, c, h)
        invariant forall d :: c <= d < n ==> sIn[d] == StageRows(ch.p, ch.cuts, d, h)
      {
        c := c - 1;
        StageRowsStep(ch, c, h);
        var overlap := info[c].span - info[c].stride;
        sIn := sIn[c := out * info[c].stride + (if overlap > 0 then overlap else 0)];
        out := sIn[c];
      }
    }

    ghost predicate HeightsFor(h: int)
      requires ch.Shaped() && Lens()
      reads this
    {
      forall c :: 0 <= c < |sIn| ==> sIn[c] == StageRows(ch.p, ch.cuts, c, h)
    }

    /**
     * Walks the output bands of operator j at `rows` rows: their bytes, and
     * with `alloc` their fast allocation.
     */
    method OpBands(j: nat, rows: int, alloc: bool, ghost caps: seq<int>) returns (ok: bool, bytes: int)
      requires ch.Shaped() && |slots| == |ch.p.heights| && j < |ch.p.ops| && rows >= 0 && OpInRange(ch.p, ch.p.ops[j])
      requires alloc ==> Ordered(ch.p) && ReservedTo(ch, slots, j, caps)
      modifies `slots, `fastUsed
      ensures |slots| == |ch.p.heights| && bytes == OutBytes(ch, j, rows)
      ensures !alloc ==> ok && slots == old(slots) && fastUsed == old(fastUsed)
      ensures alloc ==> (ok <==> old(fastUsed) + bytes <= fastSize)
      ensures alloc && ok ==> fastUsed == old(fastUsed) + bytes && ReservedTo(ch, slots, j + 1, caps + [rows])
    {
      var op := ch.p.ops[j];
      bytes := ch.ListBytes(op.outs, |op.outs|, rows);
      ok := true;
      if alloc {
        ok := AllocList(op.outs, rows);
        if ok { ReservedStep(ch, old(slots), slots, j, caps, rows); }
      }
    }

    /** The same over one stage, dividing the rows back down operator by operator. */
    method StageBands(c: nat, alloc: bool, ghost h: int, ghost caps0: seq<int>) returns (ok: bool, bytes: int, ghost caps: seq<int>)
      requires ch.Shaped() && Lens() && HeightsFor(h) && h >= 1
      requires c < |ch.cuts| - 1 && ch.cuts[c] <= ch.cuts[c + 1] <= |ch.p.ops|
      requires CapsAre(ch, caps0, ch.cuts[c], h)
      requires alloc ==> Ordered(ch.p) && ReservedTo(ch, slots, ch.cuts[c], caps0)
      modifies `slots, `fastUsed
      ensures Lens()
      ensures !alloc ==> ok && slots == old(slots) && fastUsed == old(fastUsed)
      ensures ok ==> bytes == ch.StageBytes(c, ch.cuts[c + 1], h) && CapsAre(ch, caps, ch.cuts[c + 1], h)
      ensures alloc && !ok ==> old(fastUsed) + ch.StageBytes(c, ch.cuts[c + 1], h) > fastSize
      ensures alloc && ok ==> fastUsed == old(fastUsed) + bytes && ReservedTo(ch, slots, ch.cuts[c + 1], caps)
    {
      hide InRange, Stages, ValidWindows, ReservedTo, CapsAre, ch.StageBytes, StageRows, BandRows;
      BandStart(ch, c, h);
      bytes := 0;
      caps := caps0;
      ok := true;
      var cur := sIn[c];
      for j := ch.cuts[c] to ch.cuts[c + 1]
        invariant |slots| == |ch.p.heights| && ok
        invariant cur == RowsAfter(ch.p, ch.cuts[c], j, StageRows(ch.p, ch.cuts, c, h))
        invariant bytes == ch.StageBytes(c, j, h)
        invariant CapsAre(ch, caps, j, h)
        invariant !alloc ==> slots == old(slots) && fastUsed == old(fastUsed)
        invariant alloc ==> fastUsed == old(fastUsed) + bytes && ReservedTo(ch, slots, j, caps)
      {
        BandStep(ch, c, j, caps, h);
        if ch.p.ops[j].kernel.Spatial? {
          var w := ch.p.ops[j].kernel.w;
          var overlap := if w.Span() > w.stride then w.Span() - w.stride else 0;
          cur := (cur - overlap) / w.stride;
        }
        var b;
        ok, b := OpBands(j, cur, alloc, caps);
        if !ok { return; }
        bytes := bytes + b;
        caps := caps + [cur];
      }
    }

    /**
     * The walk over every stage, adding the bytes of each output band to the
     * total and stopping after the first stage that takes it past `limit`.
     */
    method Bands(limit: int, alloc: bool, total0: int, ghost h: int) returns (ok: bool, total: int, ghost caps: seq<int>)
      requires ch.Shaped() && Lens() && HeightsFor(h) && h >= 1
      requires alloc ==> Ordered(ch.p)
      modifies `slots, `fastUsed
      ensures Lens()
      ensures !alloc ==> ok && slots == old(slots) && fastUsed == old(fastUsed)
      ensures ok ==> (total <= limit <==> total0 + ch.StagesBytes(|ch.cuts| - 1, h) <= limit)
      ensures ok && total <= limit ==> total == total0 + ch.StagesBytes(|ch.cuts| - 1, h)
      ensures alloc && !ok ==> old(fastUsed) + ch.StagesBytes(|ch.cuts| - 1, h) > fastSize
      ensures alloc && ok && total <= limit ==>
        && fastUsed == old(fastUsed) + ch.StagesBytes(|ch.cuts| - 1, h)
        && Reserved(ch, slots, caps) && CapsAre(ch, caps, |ch.p.ops|, h)
    {
      hide InRange, ValidWindows, CapsAre, StageRows, ReservedTo, ch.StagesBytes, ch.ListBytes;
      CutsEnd(ch);
      total := total0;
      caps := [];
      ok := true;
      var n := |ch.cuts| - 1;
      var c := 0;
      NoBands(ch, slots, h);
      while c < n && total <= limit
        invariant 0 <= c <= n && Lens() && ok && ch.cuts[c] <= |ch.p.ops|
        invariant total == total0 + ch.StagesBytes(c, h)
        invariant CapsAre(ch, caps, ch.cuts[c], h)
        invariant !alloc ==> slots == old(slots) && fastUsed == old(fastUsed)
        invariant alloc ==> fastUsed == old(fastUsed) + total - total0 && ReservedTo(ch, slots, ch.cuts[c], caps)
      {
        StagesBytesStep(ch, c, h);
        var b;
        ok, b, caps := StageBands(c, alloc, h, caps);
        if !ok { return; }
        total := total + b;
        c := c + 1;
      }
      StagesBytesPrefix(ch, c, n, h);
    }

    /**
     * The largest tile height, up to the plan's, whose working set fits the
     * fast room left: a binary search over the heights.
     */
    method Budget() returns (best: int)
      requires ch.Shaped() && Lens() && Composed() && |ch.outs| >= 1 && |ch.cuts| >= 2
      modifies `sIn, `slots, `fastUsed
      ensures Lens() && slots == old(slots) && fastUsed == old(fastUsed)
      ensures best == ch.TileHeight(fastSize - fastReserved)
    {
      hide InRange, Stages, ValidWindows, CapsAre, StageRows, ch.StagesBytes, ch.ListBytes;
      var cth := ch.tileRows;
      if cth <= 0 { cth := 1; }
      if cth > ch.p.heights[ch.outs[0]] { cth := ch.p.heights[ch.outs[0]]; }
      var eff := fastSize - fastReserved;
      var lo, hi := 1, cth;
      best := 0;
      while lo <= hi
        invariant 1 <= lo == best + 1 && hi <= cth && lo <= hi + 1 && Lens()
        invariant slots == old(slots) && fastUsed == old(fastUsed)
        invariant forall g :: 1 <= g <= best ==> ch.Total(g) <= eff
        invariant forall g :: hi < g <= cth ==> ch.Total(g) > eff
        decreases hi - lo
      {
        var mid := (lo + hi) / 2;
        Heights(mid);
        var total := ch.ListBytes(ch.ins, |ch.ins|, sIn[0]);
        var ok;
        ghost var caps;
        ok, total, caps := Bands(eff, false, total, mid);
        if total <= eff {
          forall g | 1 <= g <= mid ensures ch.Total(g) <= eff { TotalGrows(ch, g, mid); }
          best := mid;
          lo := mid + 1;
        } else {
          forall g | mid <= g <= cth ensures ch.Total(g) > eff { TotalGrows(ch, mid, g); }
          hi := mid - 1;
        }
      }
      HeightFittingIs(eff, cth, best);
    }

    lemma {:induction false} HeightFittingIs(room: int, n: nat, best: nat)
      requires ch.Shaped() && best <= n && (best >= 1 ==> ch.Total(best) <= room)
      requires forall g :: best < g <= n ==> ch.Total(g) > room
      ensures best == ch.HeightFitting(room, n)
    {
      if n > best { HeightFittingIs(room, n - 1, best); }
    }

    /** Slow bump allocation of the whole of tensor t. */
    method AllocSlow(t: Tensor) returns (ok: bool)
      requires ch.align >= 1 && |ch.rowBytes| == |slots| == |slow| == |ch.p.heights| && t < |slots|
      modifies `slots, `slow, `slowUsed
      ensures |slots| == |old(slots)| && |slow| == |old(slow)|
      ensures ok <==> old(slowUsed) + ch.TensorBytes(t, ch.p.heights[t]) <= slowSize
      ensures ok ==> slowUsed == old(slowUsed) + ch.TensorBytes(t, ch.p.heights[t])
      ensures ok ==> slow == old(slow)[t := slow[t]] && |slow[t]| == ch.p.heights[t]
      ensures !ok ==> slots == old(slots) && slow == old(slow) && slowUsed == old(slowUsed)
    {
      var bytes := ch.TensorBytes(t, ch.p.heights[t]);
      ok := slowUsed + bytes <= slowSize;
      if ok {
        slots := slots[t := slots[t].(place := InSlow)];
        slow := slow[t := seq(ch.p.heights[t], i => junk(t, i))];
        slowUsed := slowUsed + bytes;
      }
    }

    /** Allocates every chain output whole in slow, nothing of it written yet. */
    method AllocOutputsSlow() returns (ok: bool)
      requires ch.Shaped() && OutsIndexed() && Env?(ch.p, full) && |slots| == |ch.p.heights| && |ch.outs| >= 1
      modifies `slots, `slow, `slowUsed, `covered
      ensures OutsIndexed() && |slots| == |old(slots)|
      ensures ok <==> old(slowUsed) + OutputsBytes(ch, |ch.outs|) <= slowSize
      ensures ok ==> WrittenTo(ch, full, slow, covered) && CoveredBy(covered, 1, 0)
      ensures SpillsOnly(old(slow))
    {
      hide InRange, Stages, ValidWindows, Written, OutputsBytes;
      var n := |ch.outs|;
      covered := seq(n, _ => 0);
      OutputsBytesStep(ch, 0);
      ok := true;
      for i := 0 to n
        invariant OutsIndexed() && |slots| == |ch.p.heights| && ok && CoveredBy(covered, 1, 0)
        invariant slowUsed == old(slowUsed) + OutputsBytes(ch, i) && (i > 0 ==> slowUsed <= slowSize)
        invariant forall l :: 0 <= l < i ==> Written(ch, full, slow, l, 0)
        invariant forall t :: 0 <= t < |slow| && t !in ch.outs ==> slow[t] == old(slow)[t]
      {
        OutputsBytesGrow(ch, i + 1, n);
        OutputsBytesStep(ch, i);
        label before:
        ok := AllocSlow(ch.outs[i]);
        if !ok { return; }
        FreshWritten(old@before(slow), slow, i);
      }
    }

    /** A freshly allocated output has its height and nothing written; the others stay as they were. */
    lemma FreshWritten(before: seq<seq<Row>>, after: seq<seq<Row>>, i: nat)
      requires ch.Shaped() && OutsIndexed() && Env?(ch.p, full) && |before| == |full| && i < |ch.outs|
      requires |after| == |before| && after == before[ch.outs[i] := after[ch.outs[i]]]
      requires |after[ch.outs[i]]| == ch.p.heights[ch.outs[i]]
      requires forall l :: 0 <= l < i ==> Written(ch, full, before, l, 0)
      ensures forall l :: 0 <= l <= i ==> Written(ch, full, after, l, 0)
    {
      forall l | 0 <= l <= i ensures Written(ch, full, after, l, 0) {
        if l < i { assert Written(ch, full, before, l, 0); }
      }
    }

    /** Rows cleared before the first tile: nothing is held. */
    method ClearRanges()
      requires Lens()
      modifies `slots
      ensures |slots| == |old(slots)|
      ensures forall t :: 0 <= t < |slots| ==> slots[t] == old(slots)[t].(gs := 0, ge := 0)
    {
      var n := |slots|;
      for i := 0 to n
        invariant |slots| == n
        invariant forall t :: 0 <= t < i ==> slots[t] == old(slots)[t].(gs := 0, ge := 0)
        invariant forall t :: i <= t < n ==> slots[t] == old(slots)[t]
      {
        slots := slots[i := slots[i].(gs := 0, ge := 0)];
      }
    }

    /** The tile loop: every tile of h rows of the chain's last output. */
    method TileLoop(h: int, ghost caps: seq<int>) returns (err: Error)
      requires ch.Shaped() && Stages(ch.p, ch.cuts) && ValidWindows(ch.p) && |ch.outs| >= 1 && h >= 1
      requires SlowRight() && (ch.lineBuffered ==> Reserved(ch, slots, caps))
      requires TilesRead(ch, h) && (ch.lineBuffered ==> CapsCover(ch, caps, h))
      requires fastUsed == fastReserved && CoveredBy(covered, h, 0) && LastH(ch) >= 1
      modifies `slots, `slow, `covered, `walk, `stageIn, `fastUsed, `inH, `outH, `padTop, `outRowStart, `inRowStart
      ensures err == Ok ==> SlowRight() && fastUsed == fastReserved
      ensures err == Ok ==> SpillsOnly(old(slow))
      ensures err == Ok ==> NoGap(h) && CoveredWhole()
      ensures err == ErrMem ==> !InputsTall(ch) || TilesOverflow(ch, h, fastSize - fastReserved)
      ensures err == ErrTile ==> TilesRefused(ch, h) || !Gapless(ch, h)
      ensures err == Ok && !ch.lineBuffered ==> !TilesRefused(ch, h) && !TilesOverflow(ch, h, fastSize - fastReserved)
    {
      hide WellFormed, Static, InRange, Stages, ValidWindows, CapsCoverTile, ReadsTile, TileRefused, WrittenTo, InputsTall;
      hide ReservedTo, RanFrom, GapAt, TileBytes, OutputBand;
      var lastH := ch.p.heights[ch.outs[0]];
      var numTiles := (lastH + h - 1) / h;
      TileCount(lastH, h);
      ghost var prev := Band(0, 0);
      err := Ok;
      var tile := 0;
      while tile < numTiles
        invariant 0 <= tile <= numTiles && err == Ok
        invariant SlowRight() && fastUsed == fastReserved && SpillsOnly(old(slow))
        invariant tile < numTiles ==> Rolling(slots, tile, prev, caps)
        invariant tile > 0 ==> prev == TileBand(ch, h, tile - 1)
        invariant CoveredBy(covered, h, tile)
        invariant forall i, l :: 0 <= i < |ch.outs| && 0 <= l < tile ==> !GapAt(ch, h, i, l)
        invariant !ch.lineBuffered ==> forall l :: 0 <= l < tile ==>
          fastReserved + TileBytes(ch, TileBand(ch, h, l)) <= fastSize && !TileRefused(ch, TileBand(ch, h, l))
      {
        TileBelow(lastH, h, numTiles, tile);
        err := RunTile(tile, numTiles, h, prev, caps);
        if err == ErrTile && !TileRefused(ch, TileBand(ch, h, tile)) {
          var i :| 0 <= i < |ch.outs| && GapAt(ch, h, i, tile);
          assert !OutputWhole(ch, h, i);
        }
        if err != Ok { return; }
        prev := TileBand(ch, h, tile);
        tile := tile + 1;
      }
      LoopCovers(h, numTiles);
      forall l | IsTile(ch, h, l) ensures l < numTiles { MulOrder(numTiles, l, h); }
    }

    /** No tile of h rows leaves a gap in any output. */
    ghost predicate NoGap(h: int)
      requires ch.Shaped() && |ch.outs| >= 1
    {
      forall i, tile :: 0 <= i < |ch.outs| && IsTile(ch, h, tile) ==> !GapAt(ch, h, i, tile)
    }

    /** Every output is covered as far as the whole chain takes it. */
    ghost predicate CoveredWhole()
      requires ch.Shaped() && |ch.outs| >= 1
      reads this
    {
      |covered| == |ch.outs| && forall i :: 0 <= i < |covered| ==> covered[i] == OutputBand(ch, i, Band(0, LastH(ch))).hi
    }

    /** Past the last tile the outputs are covered as far as they go. */
    lemma LoopCovers(h: int, numTiles: int)
      requires Static(ch, full) && h >= 1 && numTiles >= 1 && numTiles * h >= LastH(ch) && (numTiles - 1) * h < LastH(ch)
      requires CoveredBy(covered, h, numTiles)
      requires forall i, l :: 0 <= i < |ch.outs| && 0 <= l < numTiles ==> !GapAt(ch, h, i, l)
      ensures NoGap(h) && CoveredWhole()
    {
      hide Solves, OutputBand, GapAt;
      forall i | 0 <= i < |ch.outs| ensures covered[i] == OutputBand(ch, i, Band(0, LastH(ch))).hi {
        OutputAdvances(ch, h, i, numTiles - 1);
      }
      forall i, tile | 0 <= i < |ch.outs| && IsTile(ch, h, tile) ensures !GapAt(ch, h, i, tile) {
        MulOrder(numTiles, tile, h);
      }
    }

    lemma TileCount(lastH: nat, h: int)
      requires h >= 1 && lastH >= 1
      ensures var n := (lastH + h - 1) / h; n >= 1 && n * h >= lastH && (n - 1) * h < lastH
    {
      CeilingIff(lastH, h, (lastH + h - 1) / h);
      CeilingIff(lastH, h, (lastH + h - 1) / h - 1);
    }

    lemma TileBelow(lastH: nat, h: int, n: int, tile: int)
      requires h >= 1 && (n - 1) * h < lastH && 0 <= tile < n
      ensures tile * h < lastH
    {
      MulOrder(tile, n - 1, h);
    }

    /**
     * Allocates every operator's persistent bands for tiles of h rows. A
     * height the budget search returned always fits.
     */
    method ReserveBands(h: int) returns (ok: bool, ghost caps: seq<int>)
      requires WellFormed(ch) && Static(ch, full) && Lens() && Composed() && h >= 1
      requires 0 <= fastUsed == fastReserved && fastSize <= UINT32_MAX && ch.Total(h) <= fastSize - fastReserved
      modifies `slots, `fastUsed, `fastReserved, `sIn
      ensures Lens() && ok
      ensures fastUsed == fastReserved == old(fastUsed) + ch.StagesBytes(|ch.cuts| - 1, h)
      ensures Reserved(ch, slots, caps) && CapsAre(ch, caps, |ch.p.ops|, h)
    {
      InputRowsPositive(h);
      hide Static, InRange, Stages, ValidWindows, Fits, OperandsKnown, Reserved, CapsAre, StageRows, ch.ListBytes, ch.StagesBytes;
      Heights(h);
      var total;
      ok, total, caps := Bands(UINT32_MAX, true, 0, h);
      fastReserved := fastUsed;
    }

    lemma InputRowsPositive(h: int)
      requires ch.Shaped() && h >= 1
      ensures ch.ListBytes(ch.ins, |ch.ins|, StageRows(ch.p, ch.cuts, 0, h)) >= 0
    {
      StageRowsExact(ch.p, ch.cuts, 0, h);
      NeedPositive(ch.p, 0, h);
      StageSurplusNonNegative(ch.p, ch.cuts, 0);
      ListBytesNonNegative(ch, ch.ins, |ch.ins|, StageRows(ch.p, ch.cuts, 0, h));
    }

    /** Clearing ranges moves no buffer. */
    lemma ReservedKept(before: seq<Slot>, after: seq<Slot>, caps: seq<int>)
      requires Reserved(ch, before, caps) && |after| == |before|
      requires forall t :: 0 <= t < |before| ==> after[t].place == before[t].place && after[t].buf == before[t].buf
      ensures Reserved(ch, after, caps)
    {
      forall i | 0 <= i < |ch.p.ops| ensures OpOk(ch, after, i) && Persistent(ch, after, i, caps[i]) {
        assert Persistent(ch, before, i, caps[i]);
      }
    }

    /** Every row of every chain output was written by some tile. */
    method CheckCovered() returns (err: Error)
      requires ch.Shaped() && Env?(ch.p, full) && OutsIndexed() && WrittenTo(ch, full, slow, covered)
      ensures err == if (forall i :: 0 <= i < |ch.outs| ==> covered[i] == ch.p.heights[ch.outs[i]]) then Ok else ErrTile
      ensures err == Ok ==> forall i :: 0 <= i < |ch.outs| ==> slow[ch.outs[i]] == full[ch.outs[i]]
    {
      err := Ok;
      var n := |ch.outs|;
      for i := 0 to n
        invariant err == Ok
        invariant forall l :: 0 <= l < i ==> covered[l] == ch.p.heights[ch.outs[l]] && slow[ch.outs[l]] == full[ch.outs[l]]
      {
        assert Written(ch, full, slow, i, covered[i]);
        if covered[i] != ch.p.heights[ch.outs[i]] { return ErrTile; }
      }
    }

    /** No operator output but the chain's stays placed; the inputs are back in slow. */
    ghost predicate Settled()
      reads this
    {
      && |slots| == |ch.p.heights|
      && (forall i :: 0 <= i < |ch.ins| ==> ch.ins[i] < |slots| && slots[ch.ins[i]].place == InSlow)
      && (forall j, t :: 0 <= j < |ch.p.ops| && t in ch.p.ops[j].outs && t !in ch.outs ==> t < |slots| && slots[t].place == Unset)
    }

    method Settle()
      requires WellFormed(ch) && Lens()
      modifies `slots
      ensures Lens() && Settled()
      ensures forall t :: 0 <= t < |slots| && t in ch.outs ==> slots[t] == old(slots)[t]
    {
      InputsNotOutputs(ch);
      var n := |ch.ins|;
      for i := 0 to n
        invariant Lens()
        invariant forall l :: 0 <= l < i ==> slots[ch.ins[l]].place == InSlow
        invariant forall t :: 0 <= t < |slots| && t in ch.outs ==> slots[t] == old(slots)[t]
      {
        slots := slots[ch.ins[i] := slots[ch.ins[i]].(place := InSlow)];
      }
      for j := 0 to |ch.p.ops|
        invariant Lens()
        invariant forall l :: 0 <= l < n ==> slots[ch.ins[l]].place == InSlow
        invariant forall i, t :: 0 <= i < j && t in ch.p.ops[i].outs && t !in ch.outs ==> t < |slots| && slots[t].place == Unset
        invariant forall t :: 0 <= t < |slots| && t in ch.outs ==> slots[t] == old(slots)[t]
      {
        DropOutputs(j);
      }
    }

    method DropOutputs(j: nat)
      requires ch.Shaped() && Lens() && j < |ch.p.ops|
      modifies `slots
      ensures Lens()
      ensures forall t :: 0 <= t < |slots| ==>
        slots[t] == if t in ch.p.ops[j].outs && t !in ch.outs then old(slots)[t].(place := Unset) else old(slots)[t]
    {
      var op := ch.p.ops[j];
      assert OpInRange(ch.p, op);
      var n := |op.outs|;
      for k := 0 to n
        invariant Lens()
        invariant forall t :: 0 <= t < |slots| ==>
          slots[t] == if t in op.outs[..k] && t !in ch.outs then old(slots)[t].(place := Unset) else old(slots)[t]
      {
        var t := op.outs[k];
        assert op.outs[..k + 1] == op.outs[..k] + [t];
        if t !in ch.outs { slots := slots[t := slots[t].(place := Unset)]; }
      }
      assert op.outs[..n] == op.outs;
    }

    /** What a well-formed chain gives the tile loop. */
    lemma ChainFacts()
      requires WellFormed(ch) && Static(ch, full) && Lens()
      ensures ch.Shaped() && Stages(ch.p, ch.cuts) && ValidWindows(ch.p) && |ch.outs| >= 1 && |ch.cuts| >= 2
      ensures LastH(ch) >= 1 && OutsIndexed() && Env?(ch.p, full)
      ensures ch.Total(1) == ch.ListBytes(ch.ins, |ch.ins|, StageRows(ch.p, ch.cuts, 0, 1)) + ch.StagesBytes(|ch.cuts| - 1, 1)
    {}

    /** Chooses the tile height and places the outputs in slow. */
    method Start() returns (err: Error, h: int)
      requires ch.Shaped() && |ch.outs| >= 1 && |ch.cuts| >= 2 && Lens() && OutsIndexed() && Env?(ch.p, full)
      modifies `info, `sIn, `slots, `fastUsed, `slow, `slowUsed, `covered
      ensures Lens() && OutsIndexed() && Composed() && fastUsed == old(fastUsed)
      ensures h == ch.TileHeight(fastSize - fastReserved)
      ensures err == Ok ==> h >= 1 && ch.Total(h) <= fastSize - fastReserved
      ensures err == Ok ==> WrittenTo(ch, full, slow, covered) && CoveredBy(covered, 1, 0) && SpillsOnly(old(slow))
      ensures err == if h >= 1 && old(slowUsed) + OutputsBytes(ch, |ch.outs|) <= slowSize then Ok else ErrMem
    {
      hide InRange, Stages, ValidWindows, Env?, WrittenTo, ch.Total, OutputsBytes, StageField;
      Setup();
      h := Budget();
      if h <= 0 {
        err := ErrMem;
      } else {
        var ok := AllocOutputsSlow();
        err := if ok then Ok else ErrMem;
      }
    }

    /** Sizes the bands of a run in tiles of h rows: reserved once in a line-buffered chain; no rows held. */
    method StartBands(h: int) returns (ghost caps: seq<int>)
      requires WellFormed(ch) && Static(ch, full) && Lens() && Composed() && h >= 1
      requires 0 <= fastUsed == fastReserved && fastSize <= UINT32_MAX && ch.Total(h) <= fastSize - fastReserved
      requires ch.lineBuffered ==> TilesFit(ch, h)
      modifies `slots, `fastUsed, `fastReserved, `sIn
      ensures Lens() && (ch.lineBuffered ==> CapsCover(ch, caps, h) && Reserved(ch, slots, caps))
      ensures fastUsed == fastReserved
      ensures fastReserved == old(fastReserved) + if ch.lineBuffered then ch.StagesBytes(|ch.cuts| - 1, h) else 0
    {
      ChainFacts();
      hide WellFormed, Static, InRange, Stages, ValidWindows, Env?, CapsCover, CapsAre, TilesFit, Reserved;
      hide StageRows, ch.StagesBytes, ch.ListBytes;
      caps := [];
      if ch.lineBuffered {
        var ok;
        ok, caps := ReserveBands(h);
        FittingCovers(ch, caps, h);
      }
      label reserved:
      ClearRanges();
      if ch.lineBuffered { ReservedKept(old@reserved(slots), slots, caps); }
    }

    /** A line-buffered chain reserved at a height that fits has room for every tile's inputs. */
    lemma RollingRoom(h: int, room: int)
      requires WellFormed(ch) && Static(ch, full) && ch.lineBuffered && h >= 1 && ch.Total(h) <= room
      ensures !TilesOverflow(ch, h, room - ch.StagesBytes(|ch.cuts| - 1, h))
    {
      hide WellFormed, Solves, ch.ListBytes, ch.StagesBytes, StageRows;
      forall tile | IsTile(ch, h, tile)
        ensures TileBytes(ch, TileBand(ch, h, tile)) <= room - ch.StagesBytes(|ch.cuts| - 1, h)
      {
        TilesAdvance(ch, h, tile);
        TallInputsLoad(ch, full, TileBand(ch, h, tile), h);
      }
    }

    /** Runs every tile of a started chain and checks that the outputs are whole. */
    method RunTiles(h: int) returns (err: Error)
      requires WellFormed(ch) && Static(ch, full) && Lens() && OutsIndexed() && Composed() && h >= 1
      requires forall i :: 0 <= i < |ch.ins| ==> ch.ins[i] < |slow| && slow[ch.ins[i]] == full[ch.ins[i]]
      requires WrittenTo(ch, full, slow, covered) && CoveredBy(covered, h, 0)
      requires 0 <= fastUsed == fastReserved && fastSize <= UINT32_MAX && ch.Total(h) <= fastSize - fastReserved
      requires Runnable(ch, h)
      modifies this
      ensures err == Ok ==> Lens() && forall i :: 0 <= i < |ch.outs| ==> slow[ch.outs[i]] == full[ch.outs[i]]
      ensures err == Ok ==> SpillsOnly(old(slow)) && Settled() && Gapless(ch, h)
      ensures err == ErrMem ==> !InputsTall(ch) || (!ch.lineBuffered && TilesOverflow(ch, h, old(fastSize - fastReserved)))
      ensures err == ErrTile ==> TilesRefused(ch, h) || !Gapless(ch, h)
      ensures err == Ok && !ch.lineBuffered ==> !TilesRefused(ch, h) && !TilesOverflow(ch, h, old(fastSize - fastReserved))
    {
      hide WellFormed, Static, InRange, Stages, ValidWindows, Env?, CapsCover, TilesFit, Reserved, WrittenTo, InputsTall;
      hide TilesRead, TilesRefused, TilesOverflow, ch.Total, ch.StagesBytes, OutputsBytes, Settled, NoGap, CoveredWhole, Gapless;
      ChainFacts();
      if ch.lineBuffered { RollingRoom(h, fastSize - fastReserved); }
      ghost var caps := StartBands(h);
      err := TileLoop(h, caps);
      if err != Ok { return; }
      WholeIffCovered(h);
      err := CheckCovered();
      if err != Ok { return; }
      Settle();
    }

    /** Without a gap the final check passes exactly when the tiles left every output whole. */
    lemma WholeIffCovered(h: int)
      requires ch.Shaped() && |ch.outs| >= 1 && NoGap(h) && CoveredWhole()
      ensures |covered| == |ch.outs|
      ensures Gapless(ch, h) <==> forall i :: 0 <= i < |ch.outs| ==> covered[i] == ch.p.heights[ch.outs[i]]
    {
      hide GapAt, OutputBand;
      if forall i :: 0 <= i < |ch.outs| ==> covered[i] == ch.p.heights[ch.outs[i]] {
        forall i | 0 <= i < |ch.outs| ensures OutputWhole(ch, h, i) {
          assert covered[i] == ch.p.heights[ch.outs[i]];
        }
      } else {
        var i :| 0 <= i < |ch.outs| && covered[i] != ch.p.heights[ch.outs[i]];
        assert !OutputWhole(ch, h, i);
      }
    }

    /**
     * Runs a chain of stages tile by tile. When it reports Ok every output of
     * the chain is the whole-tensor output, whether tiles were rolled, carried
     * or recomputed, and no other slow tensor changed. It runs out of memory
     * only when one row does not fit, the outputs do not, or a tile that keeps
     * nothing takes more than the working set; it refuses only a tile the plan
     * and the height say is refused, or a gap.
     */
    method ExecChainTiled() returns (err: Error)
      requires WellFormed(ch) && Static(ch, full) && Lens()
      requires forall i :: 0 <= i < |ch.ins| ==> slow[ch.ins[i]] == full[ch.ins[i]]
      requires 0 <= fastUsed == fastReserved && fastSize <= UINT32_MAX
      requires Runnable(ch, ch.TileHeight(fastSize - fastReserved))
      modifies this
      ensures err == Ok ==> Lens() && forall i :: 0 <= i < |ch.outs| ==> slow[ch.outs[i]] == full[ch.outs[i]]
      ensures err == Ok ==> SpillsOnly(old(slow)) && Settled()
      ensures Explained(ch, err, old(fastSize - fastReserved), old(slowSize - slowUsed))
    {
      hide WellFormed, Static, InRange, Stages, ValidWindows, Env?, WrittenTo, InputsTall, Runnable, Gapless;
      hide ch.Total, ch.TileHeight, OutputsBytes, Settled, TilesRefused, TilesOverflow;
      ChainFacts();
      InputsNotOutputs(ch);
      var h;
      err, h := Start();
      if err == Ok {
        err := RunTiles(h);
      }
    }
  }

  /** What a chain's result says of its plan, with `room` fast and `slowRoom` slow bytes free. */
  ghost predicate Explained(ch: ChainPlan, err: Error, room: int, slowRoom: int)
    requires ch.Shaped() && |ch.outs| >= 1
  {
    var h := ch.TileHeight(room);
    match err
    case Ok =>
      && h >= 1 && OutputsBytes(ch, |ch.outs|) <= slowRoom && Gapless(ch, h)
      && (!ch.lineBuffered ==> !TilesOverflow(ch, h, room) && !TilesRefused(ch, h))
    case ErrMem =>
      || h == 0 || OutputsBytes(ch, |ch.outs|) > slowRoom
      || !InputsTall(ch) || (!ch.lineBuffered && TilesOverflow(ch, h, room))
    case ErrTile => h >= 1 && (TilesRefused(ch, h) || !Gapless(ch, h))
  }

  /**
   * A chain run from fresh state: on Ok each chain output in slow memory is
   * what the chain's operators give one after another on whole tensors, and
   * every tensor the chain does not write is as it was.
   */
  method RunChain(ch: ChainPlan, env: Env, fastSize: int, slowSize: int, reserved: int, slowTaken: int,
                  junk: (Tensor, int) -> Row)
    returns (err: Error, slow: Env)
    requires WellFormed(ch) && Env?(ch.p, env)
    requires 0 <= reserved && fastSize <= UINT32_MAX
    requires Runnable(ch, ch.TileHeight(fastSize - reserved))
    ensures |slow| == |env|
    ensures err == Ok ==> forall i :: 0 <= i < |ch.outs| ==> slow[ch.outs[i]] == Whole(ch.p, env, |ch.p.ops|)[ch.outs[i]]
    ensures err == Ok ==> forall t :: 0 <= t < |slow| && t !in ch.outs ==> slow[t] == env[t]
    ensures Explained(ch, err, fastSize - reserved, slowSize - slowTaken)
  {
    hide WellFormed, Solves, InRange, Stages, ValidWindows, Fits, Runnable, Explained, ch.TileHeight;
    var exec := new ChainExec(ch, env, fastSize, slowSize, reserved, slowTaken, junk);
    InputsKeptByChain(ch, env);
    err := exec.ExecChainTiled();
    slow := if err == Ok then exec.slow else env;
  }

  lemma InputsKeptByChain(ch: ChainPlan, env: Env)
    requires WellFormed(ch) && Env?(ch.p, env)
    ensures forall i :: 0 <= i < |ch.ins| ==> Whole(ch.p, env, |ch.p.ops|)[ch.ins[i]] == env[ch.ins[i]]
  {
    forall i | 0 <= i < |ch.ins| ensures Whole(ch.p, env, |ch.p.ops|)[ch.ins[i]] == env[ch.ins[i]] {
      InputsKept(ch.p, env, ch.ins[i]);
    }
  }
}
