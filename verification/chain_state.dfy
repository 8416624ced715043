/** What the chain executor's buffers hold between operators. */
module ChainState {
  import opened Rows
  import opened BandPlan
  import opened BandRanges
  import opened ChainBudget
  import opened ChainBytes
  import opened ChainTiles

  datatype Place = Unset | InFast | InSlow

  datatype Error = Ok | ErrMem | ErrTile

  /** A window operator's entry of the range walk: its output range, its clamped pads, its input rows. */
  datatype OpWalk = OpWalk(gs: int, ge: int, pt: int, pb: int, inH: int)

  /** What the executor knows of one tensor: its fast band buffer and the rows of the tensor it holds. */
  datatype Slot = Slot(place: Place, buf: seq<Row>, gs: int, ge: int) {
    function Range(): Band { Band(gs, ge) }
  }

  /** The buffer of a tensor holds exactly its recorded rows, and they are rows of the whole tensor x. */
  ghost predicate Held(s: Slot, x: seq<Row>) {
    s.place == InFast && s.Range().Inside(|x|) && HoldsRows(s.buf, x, s.Range())
  }

  /** The buffer holds exactly the rows b. */
  ghost predicate Holds(s: Slot, x: seq<Row>, b: Band) {
    Held(s, x) && s.Range() == b
  }

  /** A fast buffer with room for the rows b of x, the first `first` of them in place. */
  ghost predicate HasRoom(place: Place, buf: seq<Row>, x: seq<Row>, first: int, b: Band) {
    place == InFast && b.Rows() <= |buf| && HoldsRows(buf, x, Band(b.lo, b.lo + first))
  }

  /** Only the listed tensors changed. */
  ghost predicate OnlyChanged(before: seq<Slot>, after: seq<Slot>, ts: seq<Tensor>) {
    |before| == |after| && forall t :: 0 <= t < |before| && t !in ts ==> after[t] == before[t]
  }

  /** No buffer moved or changed size. */
  ghost predicate SameBuffers(before: seq<Slot>, after: seq<Slot>) {
    && |before| == |after|
    && forall t :: 0 <= t < |before| ==> after[t].place == before[t].place && |after[t].buf| == |before[t].buf|
  }

  lemma OnlyChangedTrans(a: seq<Slot>, b: seq<Slot>, c: seq<Slot>, ts: seq<Tensor>)
    requires OnlyChanged(a, b, ts) && OnlyChanged(b, c, ts)
    ensures OnlyChanged(a, c, ts)
  {}

  lemma SameBuffersSelf(a: seq<Slot>)
    ensures SameBuffers(a, a)
  {}

  lemma SameBuffersTrans(a: seq<Slot>, b: seq<Slot>, c: seq<Slot>)
    requires SameBuffers(a, b) && SameBuffers(b, c)
    ensures SameBuffers(a, c)
  {}

  /** The shapes fit and `full` is the chain's whole-tensor meaning. */
  ghost predicate Static(ch: ChainPlan, full: Env) {
    && ch.Shaped() && |ch.outs| >= 1
    && Fits(ch.p, LastH(ch))
    && Env?(ch.p, full)
    && Solves(ch.p, full)
  }

  /** Operator j, and a slot for every tensor it indexes. */
  predicate OpOk(ch: ChainPlan, slots: seq<Slot>, j: nat) {
    |slots| == |ch.p.heights| && j < |ch.p.ops| && OpInRange(ch.p, ch.p.ops[j])
  }

  predicate IsConcat(ch: ChainPlan, j: nat)
    requires j < |ch.p.ops|
  {
    ch.p.ops[j].kernel.Pointwise? && ch.p.ops[j].kernel.concat
  }

  /** The range walk recorded operator j's entry of the tile that ends in `last`. */
  ghost predicate Propagated(ch: ChainPlan, walk: seq<OpWalk>, j: nat, last: Band)
    requires ch.Shaped() && |walk| == |ch.p.ops| && j < |ch.p.ops| && OpInRange(ch.p, ch.p.ops[j])
  {
    match ch.p.ops[j].kernel
    case Pointwise(_, _, _) => true
    case Spatial(w, _) =>
      var b := BandAt(ch.p, j + 1, last);
      var h := ch.p.heights[ch.p.ops[j].ins[0]];
      walk[j] == OpWalk(b.lo, b.hi, PadTop(w, b), PadBottom(w, h, b), Back(w, h, b).Rows())
  }

  /** Every operator from j on has its entry of the tile that ends in `last`. */
  ghost predicate PropagatedFrom(ch: ChainPlan, walk: seq<OpWalk>, j: nat, last: Band)
    requires ch.Shaped() && |walk| == |ch.p.ops|
  {
    forall i :: j <= i < |ch.p.ops| ==> OpInRange(ch.p, ch.p.ops[i]) && Propagated(ch, walk, i, last)
  }

  /** What the range walk left for operator j, and the band operator j moves to. */
  lemma PropagatedAt(ch: ChainPlan, walk: seq<OpWalk>, j: nat, last: Band)
    requires ch.Shaped() && |walk| == |ch.p.ops| && j < |ch.p.ops| && PropagatedFrom(ch, walk, 0, last)
    ensures OpInRange(ch.p, ch.p.ops[j]) && Propagated(ch, walk, j, last)
    ensures ch.p.ops[j].kernel.Pointwise? ==> BandAt(ch.p, j + 1, last) == BandAt(ch.p, j, last)
    ensures ch.p.ops[j].kernel.Spatial? ==> Band(walk[j].gs, walk[j].ge) == BandAt(ch.p, j + 1, last)
  {}

  /** The input range of every stage from c on is the band at its first operator. */
  ghost predicate Walked(ch: ChainPlan, stageIn: seq<Band>, c: nat, last: Band)
    requires ch.Shaped() && |stageIn| == |ch.cuts| - 1
  {
    forall d :: c <= d < |stageIn| ==> ch.cuts[d] <= |ch.p.ops| && stageIn[d] == BandAt(ch.p, ch.cuts[d], last)
  }

  lemma StageStarts(ch: ChainPlan, stageIn: seq<Band>, c: nat, last: Band, h: int)
    requires ch.Shaped() && |stageIn| == |ch.cuts| - 1 && c < |stageIn| && Walked(ch, stageIn, 0, last)
    ensures ch.cuts[c] <= ch.cuts[c + 1] <= |ch.p.ops|
    ensures stageIn[c] == BandAt(ch.p, ch.cuts[c], last) && ch.StageBytes(c, ch.cuts[c], h) == 0
  {
    assert ch.cuts[c] <= ch.cuts[c + 1] <= ch.cuts[|ch.cuts| - 1];
  }

  lemma CutsEnd(ch: ChainPlan)
    requires ch.Shaped()
    ensures ch.cuts[0] == 0 && ch.cuts[|ch.cuts| - 1] == |ch.p.ops| && ch.StagesBytes(0, 0) == 0
    ensures forall h: int :: ch.StagesBytes(0, h) == 0
  {}

  lemma StagesBytesStep(ch: ChainPlan, c: nat, h: int)
    requires ch.Shaped() && c < |ch.cuts| - 1 && h >= 1
    ensures ch.cuts[c] <= ch.cuts[c + 1] <= |ch.p.ops|
    ensures ch.StagesBytes(c + 1, h) == ch.StagesBytes(c, h) + ch.StageBytes(c, ch.cuts[c + 1], h)
    ensures ch.StagesBytes(c + 1, h) <= ch.StagesBytes(|ch.cuts| - 1, h)
  {
    assert ch.cuts[c] <= ch.cuts[c + 1] <= ch.cuts[|ch.cuts| - 1];
    StagesBytesPrefix(ch, c + 1, |ch.cuts| - 1, h);
  }

  lemma InputBand(ch: ChainPlan, full: Env, stageIn: seq<Band>, last: Band)
    requires WellFormed(ch) && Static(ch, full) && last.Inside(LastH(ch))
    requires |stageIn| == |ch.cuts| - 1 && Walked(ch, stageIn, 0, last)
    ensures ch.Shaped() && |stageIn| > 0 && |full| == |ch.p.heights|
    ensures stageIn[0] == BandAt(ch.p, 0, last) && stageIn[0].Inside(HeightAt(ch.p, 0, LastH(ch)))
    ensures forall i :: 0 <= i < |ch.ins| ==> ch.ins[i] < |ch.p.heights| && |full[ch.ins[i]]| == ch.p.heights[ch.ins[i]]
  {
    BandInside(ch.p, 0, LastH(ch), last);
  }

  lemma NothingChanged(slots: seq<Slot>, ts: seq<Tensor>)
    ensures OnlyChanged(slots, slots, ts)
  {}

  /** One more input of a chain loaded. */
  lemma InputLoads(ch: ChainPlan, full: Env, first: seq<Slot>, before: seq<Slot>, after: seq<Slot>, i: nat, b: Band)
    requires i < |ch.ins| && ch.ins[i] < |before| && |full| == |before| == |after|
    requires forall l :: 0 <= l <= i ==> ch.ins[l] < |before|
    requires OnlyChanged(first, before, ch.ins)
    requires forall l :: 0 <= l < i ==> Holds(before[ch.ins[l]], full[ch.ins[l]], b)
    requires b.Inside(|full[ch.ins[i]]|)
    requires after == before[ch.ins[i] := Slot(InFast, full[ch.ins[i]][b.lo..b.hi], b.lo, b.hi)]
    ensures OnlyChanged(first, after, ch.ins)
    ensures forall l :: 0 <= l < i + 1 ==> Holds(after[ch.ins[l]], full[ch.ins[l]], b)
  {
    assert ch.ins[i] in ch.ins;
  }

  /** Slow bytes of the first n chain outputs. */
  function OutputsBytes(ch: ChainPlan, n: nat): int
    requires ch.Shaped() && n <= |ch.outs|
  {
    if n == 0 then 0 else OutputsBytes(ch, n - 1) + ch.TensorBytes(ch.outs[n - 1], ch.p.heights[ch.outs[n - 1]])
  }

  lemma OutputsBytesStep(ch: ChainPlan, n: nat)
    requires ch.Shaped() && n < |ch.outs|
    ensures OutputsBytes(ch, 0) == 0
    ensures OutputsBytes(ch, n + 1) == OutputsBytes(ch, n) + ch.TensorBytes(ch.outs[n], ch.p.heights[ch.outs[n]])
  {}

  lemma {:induction false} OutputsBytesGrow(ch: ChainPlan, m: nat, n: nat)
    requires ch.Shaped() && m <= n <= |ch.outs|
    ensures OutputsBytes(ch, m) <= OutputsBytes(ch, n)
  {
    if m < n {
      OutputsBytesGrow(ch, m, n - 1);
      var t := ch.outs[n - 1];
      MulNonNegative(ch.rowBytes[t], ch.p.heights[t]);
      AlignUpCovers(ch.rowBytes[t] * ch.p.heights[t], ch.align);
    }
  }

  /** Loading the inputs leaves what the operators' buffers hold. */
  lemma LoadKeeps(ch: ChainPlan, full: Env, before: seq<Slot>, after: seq<Slot>, tile: int,
                  last: Band, prev: Band, caps: seq<int>)
    requires WellFormed(ch) && Static(ch, full) && |before| == |ch.p.heights|
    requires OnlyChanged(before, after, ch.ins) && InputsLoaded(ch, full, after, last)
    requires ch.lineBuffered ==> Reserved(ch, before, caps)
    requires ch.lineBuffered && tile > 0 ==> RanFrom(ch, full, before, 0, prev)
    ensures TileAt(ch, full, after, 0, tile, last, prev, caps)
  {
    forall j, k | 0 <= j < |ch.p.ops| && 0 <= k < |ch.p.ops[j].outs|
      ensures OpInRange(ch.p, ch.p.ops[j])
      ensures after[ch.p.ops[j].outs[k]] == before[ch.p.ops[j].outs[k]]
    {
      assert OpInRange(ch.p, ch.p.ops[j]);
      assert ch.p.ops[j].outs[k] in ch.p.ops[j].outs;
    }
    hide WellFormed, Solves, Fits, Stages, ValidWindows, Holds, Held, BandAt, InputsLoaded;
    if ch.lineBuffered {
      forall j | 0 <= j < |ch.p.ops| ensures OpOk(ch, after, j) && Persistent(ch, after, j, caps[j]) {
        assert Persistent(ch, before, j, caps[j]);
      }
      if tile > 0 {
        forall j | 0 <= j < |ch.p.ops| ensures OpOk(ch, after, j) && Ran(ch, full, after, j, prev) {
          assert Ran(ch, full, before, j, prev);
        }
      }
    }
  }

  /** Tensor t holds its rows of the tile, once loaded or produced below operator j. */
  lemma {:induction false} OriginHolds(ch: ChainPlan, full: Env, slots: seq<Slot>, t: Tensor, j: nat, last: Band)
    requires Static(ch, full) && |slots| == |ch.p.heights| && t < |slots| && j <= |ch.p.ops|
    requires InputsLoaded(ch, full, slots, last) && RanBelow(ch, full, slots, j, last) && Available(ch, t, j)
    requires forall i, l :: 0 <= i < |ch.ins| && 0 <= l < |ch.p.ops| ==> ch.ins[i] !in ch.p.ops[l].outs
    ensures Holds(slots[t], full[t], HeldAt(ch, t, j, last))
  {
    hide Solves, Fits, ValidWindows, Stages, Holds, BandAt;
    if j == 0 {
      var i :| 0 <= i < |ch.ins| && ch.ins[i] == t;
      assert Holds(slots[ch.ins[i]], full[ch.ins[i]], BandAt(ch.p, 0, last));
    } else if t in ch.p.ops[j - 1].outs {
      HeldOutput(ch, full, slots, j - 1, t, last);
    } else {
      OriginHolds(ch, full, slots, t, j - 1, last);
    }
  }

  /** Every chain output holds its own rows of the tile once every operator ran. */
  lemma OutputsHeld(ch: ChainPlan, full: Env, slots: seq<Slot>, last: Band)
    requires WellFormed(ch) && Static(ch, full) && |slots| == |ch.p.heights| && last.Inside(LastH(ch))
    requires InputsLoaded(ch, full, slots, last) && RanBelow(ch, full, slots, |ch.p.ops|, last)
    ensures |full| == |slots|
    ensures forall i :: 0 <= i < |ch.outs| ==> ch.outs[i] < |slots| && Held(slots[ch.outs[i]], full[ch.outs[i]])
    ensures forall i :: 0 <= i < |ch.outs| ==> slots[ch.outs[i]].Range() == OutputBand(ch, i, last)
  {
    forall i | 0 <= i < |ch.outs|
      ensures Holds(slots[ch.outs[i]], full[ch.outs[i]], OutputBand(ch, i, last))
    {
      assert Produced(ch.p, ch.outs[i]);
      var j :| 0 <= j < |ch.p.ops| && ch.outs[i] in ch.p.ops[j].outs;
      OriginHolds(ch, full, slots, ch.outs[i], |ch.p.ops|, last);
    }
  }

  /** When every operator ran, every buffer holds this tile's rows: what the next tile rolls. */
  lemma TileEnds(ch: ChainPlan, full: Env, slots: seq<Slot>, tile: int, last: Band, prev: Band, caps: seq<int>)
    requires Static(ch, full) && |slots| == |ch.p.heights|
    requires TileAt(ch, full, slots, |ch.p.ops|, tile, last, prev, caps)
    ensures InputsLoaded(ch, full, slots, last)
    ensures RanBelow(ch, full, slots, |ch.p.ops|, last) && RanFrom(ch, full, slots, 0, last)
    ensures ch.lineBuffered ==> Reserved(ch, slots, caps)
  {}

  lemma InputsNotOutputs(ch: ChainPlan)
    requires WellFormed(ch)
    ensures forall i :: 0 <= i < |ch.ins| ==> ch.ins[i] !in ch.outs
    ensures forall i :: 0 <= i < |ch.ins| ==> ch.ins[i] < |ch.p.heights|
  {
    forall i | 0 <= i < |ch.ins| ensures ch.ins[i] !in ch.outs {
      forall l | 0 <= l < |ch.outs| ensures ch.outs[l] != ch.ins[i] {
        assert Produced(ch.p, ch.outs[l]);
      }
    }
  }

  /** Inputs as high as the band the chain starts from are never too short, and fit the rows counted for them. */
  lemma TallInputsLoad(ch: ChainPlan, full: Env, last: Band, h: int)
    requires Static(ch, full) && last.Inside(LastH(ch)) && last.Rows() <= h
    ensures InputsTall(ch) ==> forall i :: 0 <= i < |ch.ins| ==> ch.p.heights[ch.ins[i]] >= BandAt(ch.p, 0, last).hi
    ensures ch.ListBytes(ch.ins, |ch.ins|, BandAt(ch.p, 0, last).Rows()) <= ch.ListBytes(ch.ins, |ch.ins|, StageRows(ch.p, ch.cuts, 0, h))
  {
    BandInside(ch.p, 0, LastH(ch), last);
    InputFitsReservation(ch.p, ch.cuts, LastH(ch), last, h);
    ListBytesGrow(ch, ch.ins, |ch.ins|, BandAt(ch.p, 0, last).Rows(), StageRows(ch.p, ch.cuts, 0, h));
  }

  /** The chain's outputs are written up to `covered`, and what is written is right. */
  ghost predicate WrittenTo(ch: ChainPlan, full: Env, slow: seq<seq<Row>>, covered: seq<int>) {
    && |full| == |slow| == |ch.p.heights| && |covered| == |ch.outs|
    && forall i :: 0 <= i < |ch.outs| ==> Written(ch, full, slow, i, covered[i])
  }

  ghost predicate Written(ch: ChainPlan, full: Env, slow: seq<seq<Row>>, i: nat, n: int) {
    && i < |ch.outs| && ch.outs[i] < |full| && |full| == |slow|
    && RowsWritten(slow[ch.outs[i]], full[ch.outs[i]], n)
  }

  /** The first n rows of x are those of y. */
  ghost predicate RowsWritten(x: seq<Row>, y: seq<Row>, n: int) {
    |x| == |y| && 0 <= n <= |y| && forall r :: 0 <= r < n ==> x[r] == y[r]
  }

  /** Slow rows x with the rows a slot holds copied in at their place. */
  function Spilled(x: seq<Row>, s: Slot): seq<Row>
    requires 0 <= s.gs <= s.ge <= |x| && s.ge - s.gs <= |s.buf|
  {
    x[..s.gs] + s.buf[..s.ge - s.gs] + x[s.ge..]
  }

  /** Spilling held rows that start at or before the first unwritten one extends what is written. */
  lemma SpillExtends(x: seq<Row>, y: seq<Row>, n: int, s: Slot)
    requires RowsWritten(x, y, n) && Held(s, y) && s.gs <= n
    ensures RowsWritten(Spilled(x, s), y, Max(n, s.ge))
  {
    forall r | 0 <= r < Max(n, s.ge) ensures Spilled(x, s)[r] == y[r] {
      if s.gs <= r < s.ge { assert Spilled(x, s)[r] == s.buf[r - s.gs]; }
    }
  }

  /** Stage c's composed receptive field. */
  function StageField(ch: ChainPlan, c: nat): Field
    requires ch.Shaped() && c < |ch.cuts| - 1
  {
    assert ch.cuts[c] <= ch.cuts[c + 1] <= ch.cuts[|ch.cuts| - 1];
    Compose(ch.p, ch.cuts[c], ch.cuts[c + 1])
  }

  lemma StageRowsEnd(ch: ChainPlan, h: int)
    requires ch.Shaped()
    ensures StageRows(ch.p, ch.cuts, |ch.cuts| - 1, h) == h
  {}

  lemma BandStart(ch: ChainPlan, c: nat, h: int)
    requires ch.Shaped() && c < |ch.cuts| - 1
    ensures ch.cuts[c] <= ch.cuts[c + 1] <= |ch.p.ops| && ch.StageBytes(c, ch.cuts[c], h) == 0
    ensures RowsAfter(ch.p, ch.cuts[c], ch.cuts[c], StageRows(ch.p, ch.cuts, c, h)) == StageRows(ch.p, ch.cuts, c, h)
  {
    assert ch.cuts[c] <= ch.cuts[c + 1] <= ch.cuts[|ch.cuts| - 1];
  }

  /** One stage back in the height walk. */
  lemma StageRowsStep(ch: ChainPlan, c: nat, h: int)
    requires ch.Shaped() && c < |ch.cuts| - 1
    ensures StageRows(ch.p, ch.cuts, c, h) ==
      StageRows(ch.p, ch.cuts, c + 1, h) * StageField(ch, c).stride
      + Max(0, StageField(ch, c).span - StageField(ch, c).stride)
  {}

  /** The outputs of operator j hold the band it leaves in the tile that ends in `last`. */
  ghost predicate Ran(ch: ChainPlan, full: Env, slots: seq<Slot>, j: nat, last: Band)
    requires Static(ch, full) && OpOk(ch, slots, j)
  {
    forall k :: 0 <= k < |ch.p.ops[j].outs| ==>
      Holds(slots[ch.p.ops[j].outs[k]], full[ch.p.ops[j].outs[k]], BandAt(ch.p, j + 1, last))
  }

  /** The outputs of operator j sit in persistent buffers of at least `rows` rows. */
  ghost predicate Persistent(ch: ChainPlan, slots: seq<Slot>, j: nat, rows: int)
    requires OpOk(ch, slots, j)
  {
    forall k :: 0 <= k < |ch.p.ops[j].outs| ==>
      slots[ch.p.ops[j].outs[k]].place == InFast && rows <= |slots[ch.p.ops[j].outs[k]].buf|
  }

  /** Operand i of operator j holds rows of its own that lie on the band b, or can be shifted to it. */
  ghost predicate OperandPlaced(ch: ChainPlan, full: Env, slots: seq<Slot>, j: nat, i: nat, b: Band)
    requires Static(ch, full) && OpOk(ch, slots, j) && i < |ch.p.ops[j].ins|
  {
    var t := ch.p.ops[j].ins[i];
    Held(slots[t], full[t]) && (Shiftable(ch, j, t) || Aligned(slots[t].Range(), b, ch.p.batches[t]))
  }

  /** Operand i of operator j is one chain_kernel would shift, and its buffer misses rows of the band. */
  ghost predicate Uncovered(ch: ChainPlan, slots: seq<Slot>, j: nat, i: nat, b: Band)
    requires ch.Shaped() && OpOk(ch, slots, j) && i < |ch.p.ops[j].ins|
  {
    Shiftable(ch, j, ch.p.ops[j].ins[i]) && !slots[ch.p.ops[j].ins[i]].Range().Covers(b)
  }

  /** The chain's input bands hold the rows the tile that ends in `last` reads. */
  ghost predicate InputsLoaded(ch: ChainPlan, full: Env, slots: seq<Slot>, last: Band)
    requires Static(ch, full) && |slots| == |ch.p.heights|
  {
    forall i :: 0 <= i < |ch.ins| ==> Holds(slots[ch.ins[i]], full[ch.ins[i]], BandAt(ch.p, 0, last))
  }

  /** Every operator below j ran in the tile that ends in `last`. */
  ghost predicate RanBelow(ch: ChainPlan, full: Env, slots: seq<Slot>, j: nat, last: Band)
    requires Static(ch, full) && |slots| == |ch.p.heights| && j <= |ch.p.ops|
  {
    forall i :: 0 <= i < j ==> OpOk(ch, slots, i) && Ran(ch, full, slots, i, last)
  }

  /** Every operator from j on last ran in the tile that ends in `prev`. */
  ghost predicate RanFrom(ch: ChainPlan, full: Env, slots: seq<Slot>, j: nat, prev: Band)
    requires Static(ch, full) && |slots| == |ch.p.heights| && j <= |ch.p.ops|
  {
    forall i :: j <= i < |ch.p.ops| ==> OpOk(ch, slots, i) && Ran(ch, full, slots, i, prev)
  }

  /** The persistent buffers of the operators below n have `caps` rows or more. */
  ghost predicate ReservedTo(ch: ChainPlan, slots: seq<Slot>, n: nat, caps: seq<int>) {
    |caps| == n <= |ch.p.ops| && forall i :: 0 <= i < n ==> OpOk(ch, slots, i) && Persistent(ch, slots, i, caps[i])
  }

  ghost predicate Reserved(ch: ChainPlan, slots: seq<Slot>, caps: seq<int>) {
    ReservedTo(ch, slots, |ch.p.ops|, caps)
  }

  /** Allocating operator j's bands leaves the earlier operators' in place. */
  lemma ReservedStep(ch: ChainPlan, before: seq<Slot>, after: seq<Slot>, j: nat, caps: seq<int>, rows: int)
    requires Ordered(ch.p) && ReservedTo(ch, before, j, caps) && OpOk(ch, before, j)
    requires OnlyChanged(before, after, ch.p.ops[j].outs) && Persistent(ch, after, j, rows)
    ensures ReservedTo(ch, after, j + 1, caps + [rows])
  {
    forall i | 0 <= i < j
      ensures OpOk(ch, after, i) && Persistent(ch, after, i, caps[i])
    {
      assert Persistent(ch, before, i, caps[i]);
      assert Apart(ch.p.ops[i], ch.p.ops[j]);
      forall k | 0 <= k < |ch.p.ops[i].outs| ensures after[ch.p.ops[i].outs[k]] == before[ch.p.ops[i].outs[k]] {
        assert ch.p.ops[i].outs[k] in ch.p.ops[i].outs;
      }
    }
  }

  /** `caps` lists the rows reserved for the operators below n. */
  ghost predicate CapsAre(ch: ChainPlan, caps: seq<int>, n: nat, h: int)
    requires ch.Shaped()
  {
    && |caps| == n <= |ch.p.ops|
    && forall c, j :: 0 <= c < |ch.cuts| - 1 && ch.cuts[c] <= j < ch.cuts[c + 1] && j < n ==> caps[j] == BandRows(ch.p, ch.cuts, c, j, h)
  }

  lemma NoBands(ch: ChainPlan, slots: seq<Slot>, h: int)
    requires ch.Shaped() && |ch.cuts| >= 1
    ensures CapsAre(ch, [], ch.cuts[0], h) && ReservedTo(ch, slots, ch.cuts[0], []) && ch.StagesBytes(0, h) == 0
  {}

  lemma StagesOrdered(ch: ChainPlan, c: nat, d: nat)
    requires ch.Shaped() && c < |ch.cuts| - 1 && d < |ch.cuts| - 1
    ensures c < d ==> ch.cuts[c + 1] <= ch.cuts[d]
  {}

  /** One operator on in the walk over the bands. */
  lemma BandStep(ch: ChainPlan, c: nat, j: nat, caps: seq<int>, h: int)
    requires ch.Shaped() && c < |ch.cuts| - 1 && ch.cuts[c] <= j < ch.cuts[c + 1] <= |ch.p.ops| && h >= 1
    requires CapsAre(ch, caps, j, h)
    ensures OpInRange(ch.p, ch.p.ops[j]) && ValidWindow(ch.p.ops[j])
    ensures var rows := BandRows(ch.p, ch.cuts, c, j, h);
      && rows >= 0 && rows == Shrink(ch.p.ops[j], RowsAfter(ch.p, ch.cuts[c], j, StageRows(ch.p, ch.cuts, c, h)))
      && ch.StageBytes(c, j + 1, h) == ch.StageBytes(c, j, h) + OutBytes(ch, j, rows)
      && CapsAre(ch, caps + [rows], j + 1, h)
    ensures ch.StageBytes(c, j + 1, h) <= ch.StageBytes(c, ch.cuts[c + 1], h)
  {
    BandRowsNonNegative(ch.p, ch.cuts, c, j, h);
    StageBytesPrefix(ch, c, j + 1, ch.cuts[c + 1], h);
    var rows := BandRows(ch.p, ch.cuts, c, j, h);
    forall d, i | 0 <= d < |ch.cuts| - 1 && ch.cuts[d] <= i < ch.cuts[d + 1] && i < j + 1
      ensures (caps + [rows])[i] == BandRows(ch.p, ch.cuts, d, i, h)
    {
      if i == j {
        StagesOrdered(ch, c, d);
        StagesOrdered(ch, d, c);
      }
    }
  }

  /** The stage that holds operator j. */
  lemma StageHolding(ch: ChainPlan, j: nat) returns (c: nat)
    requires ch.Shaped() && j < |ch.p.ops|
    ensures c < |ch.cuts| - 1 && ch.cuts[c] <= j < ch.cuts[c + 1] <= |ch.p.ops|
  {
    c := 0;
    while ch.cuts[c + 1] <= j
      invariant c < |ch.cuts| - 1 && ch.cuts[c] <= j
      decreases |ch.cuts| - c
    {
      c := c + 1;
    }
    assert ch.cuts[c + 1] <= ch.cuts[|ch.cuts| - 1];
  }

  /** `caps` covers the rows of the tile that ends in `last`. */
  ghost predicate CapsCoverTile(ch: ChainPlan, caps: seq<int>, last: Band)
    requires ch.Shaped()
  {
    |caps| == |ch.p.ops| && forall i :: 0 <= i < |ch.p.ops| ==> BandAt(ch.p, i + 1, last).Rows() <= caps[i]
  }

  /** `caps` covers every tile of h rows. */
  ghost predicate CapsCover(ch: ChainPlan, caps: seq<int>, h: int)
    requires ch.Shaped() && |ch.outs| >= 1
  {
    forall tile :: IsTile(ch, h, tile) ==> CapsCoverTile(ch, caps, TileBand(ch, h, tile))
  }

  /** Reserved rows cover every tile the reservation fits. */
  lemma FittingCovers(ch: ChainPlan, caps: seq<int>, h: int)
    requires ch.Shaped() && |ch.outs| >= 1 && TilesFit(ch, h) && CapsAre(ch, caps, |ch.p.ops|, h)
    ensures CapsCover(ch, caps, h)
  {
    forall tile, i | IsTile(ch, h, tile) && 0 <= i < |ch.p.ops|
      ensures BandAt(ch.p, i + 1, TileBand(ch, h, tile)).Rows() <= caps[i]
    {
      var c := StageHolding(ch, i);
      assert RowsFit(ch, h, c, i, TileBand(ch, h, tile));
    }
  }

  /** The tile is at operator j: everything below ran in it, everything from j on still holds the previous tile. */
  ghost predicate TileAt(ch: ChainPlan, full: Env, slots: seq<Slot>, j: nat, tile: int, last: Band, prev: Band, caps: seq<int>)
    requires Static(ch, full) && |slots| == |ch.p.heights| && j <= |ch.p.ops|
  {
    && InputsLoaded(ch, full, slots, last) && RanBelow(ch, full, slots, j, last)
    && (ch.lineBuffered ==> Reserved(ch, slots, caps))
    && (ch.lineBuffered && tile > 0 ==> RanFrom(ch, full, slots, j, prev))
  }

  lemma HeldOutput(ch: ChainPlan, full: Env, slots: seq<Slot>, l: nat, t: Tensor, last: Band)
    requires Static(ch, full) && OpOk(ch, slots, l) && t in ch.p.ops[l].outs && Ran(ch, full, slots, l, last)
    ensures Holds(slots[t], full[t], BandAt(ch.p, l + 1, last))
  {
    var k :| 0 <= k < |ch.p.ops[l].outs| && ch.p.ops[l].outs[k] == t;
  }

  /**
   * A tensor the plan lets operator j read holds its own rows when j runs,
   * and they lie on the band or chain_kernel shifts them to it.
   */
  lemma OperandFromTile(ch: ChainPlan, full: Env, slots: seq<Slot>, j: nat, i: nat, last: Band)
    requires WellFormed(ch) && Static(ch, full) && OpOk(ch, slots, j) && i < |ch.p.ops[j].ins|
    requires last.Inside(LastH(ch)) && ReadsOp(ch, j, last)
    requires InputsLoaded(ch, full, slots, last) && RanBelow(ch, full, slots, j, last)
    ensures OperandPlaced(ch, full, slots, j, i, BandAt(ch.p, j, last))
    ensures Uncovered(ch, slots, j, i, BandAt(ch.p, j, last)) <==> Missed(ch, j, i, last)
  {
    assert OperandsKnown(ch, j) && ReadsOperand(ch, j, i, last);
    hide Solves, Fits, ValidWindows, Stages, HeightAt;
    OriginHolds(ch, full, slots, ch.p.ops[j].ins[i], j, last);
  }

  /** Running operator j leaves what another operator's outputs hold. */
  lemma KeepsRan(ch: ChainPlan, full: Env, before: seq<Slot>, after: seq<Slot>, i: nat, j: nat, b: Band)
    requires Static(ch, full) && Ordered(ch.p) && OpOk(ch, before, i) && OpOk(ch, before, j) && i != j
    requires OnlyChanged(before, after, ch.p.ops[j].outs)
    requires Ran(ch, full, before, i, b)
    ensures Ran(ch, full, after, i, b)
  {
    forall k | 0 <= k < |ch.p.ops[i].outs|
      ensures Holds(after[ch.p.ops[i].outs[k]], full[ch.p.ops[i].outs[k]], BandAt(ch.p, i + 1, b))
    {
      assert ch.p.ops[i].outs[k] in ch.p.ops[i].outs;
      if i < j { assert Apart(ch.p.ops[i], ch.p.ops[j]); } else { assert Apart(ch.p.ops[j], ch.p.ops[i]); }
    }
  }

  /** What operator j leaves alone carries the tile one operator on. */
  lemma TileAdvances(ch: ChainPlan, full: Env, before: seq<Slot>, after: seq<Slot>, j: nat, tile: int,
                     last: Band, prev: Band, caps: seq<int>)
    requires WellFormed(ch) && Static(ch, full) && OpOk(ch, before, j)
    requires TileAt(ch, full, before, j, tile, last, prev, caps)
    requires OnlyChanged(before, after, ch.p.ops[j].outs)
    requires Ran(ch, full, after, j, last)
    requires ch.lineBuffered ==> SameBuffers(before, after)
    ensures TileAt(ch, full, after, j + 1, tile, last, prev, caps)
  {
    assert Ordered(ch.p);
    forall i | 0 <= i < |ch.ins| ensures Holds(after[ch.ins[i]], full[ch.ins[i]], BandAt(ch.p, 0, last)) {
      assert ch.ins[i] !in ch.p.ops[j].outs;
    }
    hide WellFormed, Solves, Fits, ValidWindows, Stages, Held, Holds, BandAt;
    forall i | 0 <= i < |ch.p.ops| && i != j
      ensures OpOk(ch, after, i)
      ensures i < j ==> Ran(ch, full, after, i, last)
      ensures i > j && ch.lineBuffered && tile > 0 ==> Ran(ch, full, after, i, prev)
    {
      if i < j { KeepsRan(ch, full, before, after, i, j, last); }
      if i > j && ch.lineBuffered && tile > 0 { KeepsRan(ch, full, before, after, i, j, prev); }
    }
  }
}
