/** The row loops of the kernels under a tile: what they read and where they write. */
module ChainKernels {
  import opened Rows
  import opened BandPlan
  import opened BandRanges

  /** Row r of every operand, each read from its own offset. */
  function GatherRow(bufs: seq<seq<Row>>, offs: seq<nat>, r: nat): (s: seq<Row>)
    requires |bufs| == |offs| && forall i :: 0 <= i < |bufs| ==> offs[i] + r < |bufs[i]|
    ensures |s| == |bufs|
  {
    seq(|bufs|, i requires 0 <= i < |bufs| => bufs[i][offs[i] + r])
  }

  /**
   * A pointwise kernel: `count` rows, read from row inFirst of each operand
   * past its offset, written from row outFirst of the output.
   */
  method PointwiseRows(rowOf: (nat, seq<Row>) -> Row, k: nat, bufs: seq<seq<Row>>, offs: seq<nat>,
                       inFirst: nat, outFirst: nat, count: nat, out: seq<Row>)
    returns (y: seq<Row>)
    requires |bufs| == |offs| && outFirst + count <= |out|
    requires forall i :: 0 <= i < |bufs| ==> offs[i] + inFirst + count <= |bufs[i]|
    ensures |y| == |out|
    ensures forall r :: 0 <= r < |out| && !(outFirst <= r < outFirst + count) ==> y[r] == out[r]
    ensures forall r :: outFirst <= r < outFirst + count ==>
      y[r] == rowOf(k, GatherRow(bufs, offs, inFirst + (r - outFirst)))
  {
    y := out;
    for i := 0 to count
      invariant |y| == |out|
      invariant forall r :: 0 <= r < |out| && !(outFirst <= r < outFirst + i) ==> y[r] == out[r]
      invariant forall r :: outFirst <= r < outFirst + i ==>
        y[r] == rowOf(k, GatherRow(bufs, offs, inFirst + (r - outFirst)))
    {
      y := y[outFirst + i := rowOf(k, GatherRow(bufs, offs, inFirst + i))];
    }
  }

  /**
   * A window kernel: output rows outFirst up to outFirst + count of the tile,
   * each from the taps TapRange finds inside the first inH rows of the input.
   */
  method WindowRows(windowed: (nat, seq<Option<Row>>) -> Row, k: nat, w: Window, buf: seq<Row>, inH: nat,
                    padTop: nat, inFirst: nat, outFirst: nat, count: nat, out: seq<Row>)
    returns (y: seq<Row>)
    requires w.Valid() && inH <= |buf| && outFirst + count <= |out|
    ensures |y| == |out|
    ensures forall r :: 0 <= r < |out| && !(outFirst <= r < outFirst + count) ==> y[r] == out[r]
    ensures forall r :: outFirst <= r < outFirst + count ==>
      y[r] == windowed(k, TileWindow(buf, inH, w, padTop + inFirst, r))
  {
    y := out;
    for i := 0 to count
      invariant |y| == |out|
      invariant forall r :: 0 <= r < |out| && !(outFirst <= r < outFirst + i) ==> y[r] == out[r]
      invariant forall r :: outFirst <= r < outFirst + i ==>
        y[r] == windowed(k, TileWindow(buf, inH, w, padTop + inFirst, r))
    {
      var s := ReadWindow(w, buf, inH, padTop, inFirst, outFirst + i);
      y := y[outFirst + i := windowed(k, s)];
    }
  }

  /** The window of one tile row, tap by tap over the taps that land inside. */
  method ReadWindow(w: Window, buf: seq<Row>, inH: nat, padTop: nat, inFirst: nat, row: nat)
    returns (s: seq<Option<Row>>)
    requires w.Valid() && inH <= |buf|
    ensures s == TileWindow(buf, inH, w, padTop + inFirst, row)
  {
    var base := row * w.stride - padTop - inFirst;
    var first, last := TapRange(base, inH, w.taps, w.dilation);
    s := seq(w.taps, _ => None);
    for k := first to last
      invariant |s| == w.taps
      invariant forall l :: 0 <= l < w.taps ==>
        s[l] == if first <= l < k then TileWindow(buf, inH, w, padTop + inFirst, row)[l] else None
    {
      s := s[k := Some(buf[base + k * w.dilation])];
    }
    forall l | 0 <= l < w.taps ensures s[l] == TileWindow(buf, inH, w, padTop + inFirst, row)[l] {
    }
  }

  /** Rows b of x are in buf from row `off` on. */
  ghost predicate HoldsFrom(buf: seq<Row>, off: nat, x: seq<Row>, b: Band) {
    && 0 <= b.lo <= b.hi <= |x|
    && off + b.Rows() <= |buf|
    && forall g :: b.lo <= g < b.hi ==> x[g] == buf[off + (g - b.lo)]
  }

  /** Rows computed by a pointwise kernel from operands that hold the band are rows of the whole output. */
  lemma PointwiseMeans(p: Plan, full: Env, j: nat, k: nat, bufs: seq<seq<Row>>, offs: seq<nat>,
                       first: nat, before: seq<Row>, y: seq<Row>, b: Band)
    requires InRange(p) && Env?(p, full) && Solves(p, full) && j < |p.ops| && k < |p.ops[j].outs|
    requires p.ops[j].kernel.Pointwise? && |bufs| == |p.ops[j].ins| == |offs|
    requires 0 <= b.lo && b.lo + first <= b.hi <= p.heights[p.ops[j].outs[k]] && b.Rows() <= |y| == |before|
    requires forall i :: 0 <= i < |bufs| ==> offs[i] + b.Rows() <= |bufs[i]|
    requires forall i :: 0 <= i < |bufs| ==> HoldsFrom(bufs[i], offs[i], full[p.ops[j].ins[i]], b)
    requires HoldsRows(before, full[p.ops[j].outs[k]], Band(b.lo, b.lo + first))
    requires forall r :: 0 <= r < first ==> y[r] == before[r]
    requires forall r :: first <= r < b.Rows() ==> y[r] == p.ops[j].kernel.rowOf(k, GatherRow(bufs, offs, r))
    ensures HoldsRows(y, full[p.ops[j].outs[k]], b)
  {
    var op := p.ops[j];
    assert SolvedOutput(p, full, j, k);
    forall r | 0 <= r < b.Rows()
      ensures y[r] == full[op.outs[k]][b.lo + r]
    {
      if r >= first {
        forall i | 0 <= i < |bufs|
          ensures GatherRow(bufs, offs, r)[i] == OperandRows(op, full, b.lo + r)[i]
        {
          assert HoldsFrom(bufs[i], offs[i], full[op.ins[i]], b);
        }
        assert GatherRow(bufs, offs, r) == OperandRows(op, full, b.lo + r);
      }
    }
  }

  /** The same for a window kernel on the rows read back for the band. */
  lemma WindowMeans(p: Plan, full: Env, j: nat, k: nat, buf: seq<Row>, outH: nat,
                    first: nat, before: seq<Row>, y: seq<Row>, b: Band)
    requires InRange(p) && Env?(p, full) && Solves(p, full) && j < |p.ops| && k < |p.ops[j].outs|
    requires p.ops[j].kernel.Spatial? && b.Inside(outH) && p.heights[p.ops[j].outs[k]] == outH
    requires Geometry(p.ops[j].kernel.w, p.heights[p.ops[j].ins[0]], outH)
    requires b.lo + first <= b.hi && b.Rows() <= |y| == |before|
    requires HoldsRows(buf, full[p.ops[j].ins[0]], Back(p.ops[j].kernel.w, p.heights[p.ops[j].ins[0]], b))
    requires HoldsRows(before, full[p.ops[j].outs[k]], Band(b.lo, b.lo + first))
    requires forall r :: 0 <= r < first ==> y[r] == before[r]
    requires forall r :: first <= r < b.Rows() ==>
      y[r] == p.ops[j].kernel.windowed(k, TileWindow(buf, Back(p.ops[j].kernel.w, p.heights[p.ops[j].ins[0]], b).Rows(),
                                                     p.ops[j].kernel.w, PadTop(p.ops[j].kernel.w, b), r))
    ensures HoldsRows(y, full[p.ops[j].outs[k]], b)
  {
    var op := p.ops[j];
    assert SolvedOutput(p, full, j, k);
    forall r | 0 <= r < b.Rows()
      ensures y[r] == full[op.outs[k]][b.lo + r]
    {
      if r >= first {
        TileWindowIsGlobal(buf, full[op.ins[0]], op.kernel.w, outH, b, r);
      }
    }
  }
}
