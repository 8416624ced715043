/**
 * The flat stage loop reaches what the recursive interpreter computes:
 * releasing tensors never takes one a stage still to run reads, and frames
 * come back level by level.
 */
module ControlRun {
  import opened Rows
  import opened ControlPlan
  import opened ControlFlow

  ghost predicate IsOutput(p: Plan, t: Tensor) {
    exists g :: 0 <= g < |p.graphs| && t in p.graphs[g].outs
  }

  /** lc names the last stage that reads each tensor, 0 for one that is not read, and none for a graph's output alone. */
  ghost predicate LastReads(p: Plan, lc: seq<nat>) {
    && |lc| == |p.owner|
    && (forall s, t :: 0 <= s < |p.stages| && t in p.stages[s].Reads() && t < |lc| ==> lc[t] >= s)
    && (forall g, t :: 0 <= g < |p.graphs| && t in p.graphs[g].outs && t < |lc| ==> lc[t] == UINT16_MAX)
    && (forall t :: 0 <= t < |lc| && 0 < lc[t] < UINT16_MAX ==> lc[t] < |p.stages| && t in p.stages[lc[t]].Reads())
    && (forall t :: 0 <= t < |lc| && lc[t] >= UINT16_MAX ==> lc[t] == UINT16_MAX && IsOutput(p, t))
  }

  /** v is the last reader of t among the stages below n and the first i reads of stage n, 0 for none. */
  ghost predicate LastReader(p: Plan, t: Tensor, v: nat, n: nat, i: nat)
    requires n <= |p.stages| && (n < |p.stages| ==> i <= |p.stages[n].Reads()|)
  {
    && v <= n && (v > 0 ==> v < |p.stages| && t in p.stages[v].Reads())
    && (forall s :: 0 <= s < n && t in p.stages[s].Reads() ==> v >= s)
    && (n < |p.stages| && t in p.stages[n].Reads()[..i] ==> v >= n)
  }

  ghost predicate LastReadsTo(p: Plan, lc: seq<nat>, n: nat, i: nat)
    requires n <= |p.stages|
  {
    && |lc| == |p.owner| && (n < |p.stages| ==> i <= |p.stages[n].Reads()|)
    && forall t :: 0 <= t < |lc| ==> LastReader(p, t, lc[t], n, i)
  }

  /** The pass over every stage's inputs, then the graph outputs, which are never freed. */
  method LastConsumers(p: Plan) returns (lc: seq<nat>)
    requires |p.stages| <= UINT16_MAX
    ensures LastReads(p, lc)
  {
    hide LastReads, LastReadsTo;
    lc := LastReaders(p);
    ghost var readers := lc;
    ReadersLength(p, lc);
    for g := 0 to |p.graphs|
      invariant OutputsKept(p, readers, lc, g)
    {
      var outs := p.graphs[g].outs;
      for i := 0 to |outs|
        invariant OutputsKept(p, readers, lc, g)
        invariant forall l :: 0 <= l < i && outs[l] < |lc| ==> lc[outs[l]] == UINT16_MAX
      {
        assert IsOutput(p, outs[i]);
        if outs[i] < |p.owner| { lc := lc[outs[i] := UINT16_MAX]; }
      }
    }
    KeptReads(p, readers, lc);
  }

  lemma ReadersLength(p: Plan, lc: seq<nat>)
    requires LastReadsTo(p, lc, |p.stages|, 0)
    ensures |lc| == |p.owner|
  {}

  /** The last readers, with the outputs marked, are what the loop needs. */
  lemma KeptReads(p: Plan, readers: seq<nat>, lc: seq<nat>)
    requires |p.stages| <= UINT16_MAX
    requires LastReadsTo(p, readers, |p.stages|, 0) && OutputsKept(p, readers, lc, |p.graphs|)
    ensures LastReads(p, lc)
  {
    hide Stage.Reads;
    forall t | 0 <= t < |lc| ensures LastReader(p, t, readers[t], |p.stages|, 0) {}
  }

  method LastReaders(p: Plan) returns (lc: seq<nat>)
    ensures LastReadsTo(p, lc, |p.stages|, 0)
  {
    hide LastReadsTo;
    var numTensors := |p.owner|;
    lc := seq(numTensors, _ => 0);
    NoneRead(p, lc);
    var n := |p.stages|;
    for s := 0 to n
      invariant LastReadsTo(p, lc, s, 0)
    {
      var sin := p.stages[s].Reads();
      for i := 0 to |sin|
        invariant LastReadsTo(p, lc, s, i)
      {
        ReadNoted(p, lc, s, i);
        if sin[i] < numTensors && s > lc[sin[i]] { lc := lc[sin[i] := s]; }
      }
      AllReadsNoted(p, lc, s);
    }
  }

  lemma NoneRead(p: Plan, lc: seq<nat>)
    requires |lc| == |p.owner| && forall t :: 0 <= t < |lc| ==> lc[t] == 0
    ensures LastReadsTo(p, lc, 0, 0)
  {}

  /** One more read of stage s noted. */
  lemma ReadNoted(p: Plan, lc: seq<nat>, s: nat, i: nat)
    requires s < |p.stages| && i < |p.stages[s].Reads()| && LastReadsTo(p, lc, s, i)
    ensures |lc| == |p.owner|
    ensures var t := p.stages[s].Reads()[i];
      LastReadsTo(p, if t < |p.owner| && s > lc[t] then lc[t := s] else lc, s, i + 1)
  {
    hide Stage.Reads, LastReader;
    forall u | 0 <= u < |lc|
      ensures LastReader(p, u, if u == p.stages[s].Reads()[i] && s > lc[u] then s else lc[u], s, i + 1)
    {
      ReaderNoted(p, u, lc[u], s, i);
    }
  }

  lemma ReaderNoted(p: Plan, u: Tensor, v: nat, s: nat, i: nat)
    requires s < |p.stages| && i < |p.stages[s].Reads()| && LastReader(p, u, v, s, i)
    ensures LastReader(p, u, if u == p.stages[s].Reads()[i] && s > v then s else v, s, i + 1)
  {
    hide Stage.Reads;
    assert p.stages[s].Reads()[..i + 1] == p.stages[s].Reads()[..i] + [p.stages[s].Reads()[i]];
  }

  lemma AllReadsNoted(p: Plan, lc: seq<nat>, s: nat)
    requires s < |p.stages| && LastReadsTo(p, lc, s, |p.stages[s].Reads()|)
    ensures LastReadsTo(p, lc, s + 1, 0)
  {
    hide Stage.Reads;
    var sin := p.stages[s].Reads();
    assert sin[..|sin|] == sin;
    forall t | 0 <= t < |lc| ensures LastReader(p, t, lc[t], s + 1, 0) {
      assert LastReader(p, t, lc[t], s, |sin|);
    }
  }

  ghost predicate OutputsKept(p: Plan, readers: seq<nat>, lc: seq<nat>, g: nat)
    requires g <= |p.graphs|
  {
    && |lc| == |readers| == |p.owner|
    && (forall t :: 0 <= t < |lc| ==> lc[t] == readers[t] || (lc[t] == UINT16_MAX && IsOutput(p, t)))
    && (forall h, t :: 0 <= h < g && t in p.graphs[h].outs && t < |lc| ==> lc[t] == UINT16_MAX)
  }

  /** t is an output of graph g or is read by one of its stages from pc on. */
  ghost predicate Needed(p: Plan, g: nat, pc: nat, t: Tensor)
    requires g < |p.graphs| && p.graphs[g].End() <= |p.stages|
  {
    t in p.graphs[g].outs || exists s :: pc <= s < p.graphs[g].End() && t in p.stages[s].Reads()
  }

  /** Memory holds the interpreter's value of every tensor graph g still needs at stage pc. */
  ghost predicate Agree(p: Plan, g: nat, pc: nat, local: Env, env: Env)
    requires g < |p.graphs| && pc <= p.graphs[g].End() <= |p.stages|
  {
    forall t :: Available(p, g, pc, t) && Needed(p, g, pc, t) ==> t in local && t in env && env[t] == local[t]
  }

  /** e and f agree on t. */
  ghost predicate SameAt(e: Env, f: Env, t: Tensor) {
    (t in e <==> t in f) && (t in e ==> e[t] == f[t])
  }

  /** Only ts changed among the tensors of the graphs up to g. */
  ghost predicate Same(p: Plan, g: nat, ts: seq<Tensor>, e: Env, f: Env) {
    forall t :: 0 <= t < |p.owner| && p.owner[t] <= g && t !in ts ==> SameAt(e, f, t)
  }

  /** No tensor of a graph before g changed. */
  ghost predicate KeepsBelow(p: Plan, g: nat, e: Env, f: Env) {
    forall t :: 0 <= t < |p.owner| && p.owner[t] < g ==> SameAt(e, f, t)
  }

  ghost predicate ValuesAre(e: Env, ts: seq<Tensor>, vs: seq<Value>) {
    |ts| == |vs| && forall i :: 0 <= i < |ts| ==> ts[i] in e && e[ts[i]] == vs[i]
  }

  /**
   * Releasing after a stage is safe: what the graph still needs keeps its
   * value, and no tensor of an enclosing graph is released.
   */
  lemma StageDone(p: Plan, lc: seq<nat>, g: nat, pc: nat, local: Env, env: Env, e: Env, vs: seq<Value>)
    requires Valid(p) && LastReads(p, lc) && g < |p.graphs| && p.graphs[g].first <= pc < p.graphs[g].End() <= |p.stages|
    requires Agree(p, g, pc, local, env)
    requires Same(p, g, p.stages[pc].outs, env, e) && ValuesAre(e, p.stages[pc].outs, vs)
    ensures Agree(p, g, pc + 1, Set(local, p.stages[pc].outs, vs), FreeDead(lc, e, p.graphs[g].first, pc))
    ensures KeepsBelow(p, g, env, FreeDead(lc, e, p.graphs[g].first, pc))
  {
    assert GraphOk(p, g) && StageOk(p, g, pc);
    var outs := p.stages[pc].outs;
    var f := FreeDead(lc, e, p.graphs[g].first, pc);
    forall t | Available(p, g, pc + 1, t) && Needed(p, g, pc + 1, t)
      ensures t in Set(local, outs, vs) && t in f && f[t] == Set(local, outs, vs)[t]
    {
      StillNeeded(p, lc, g, pc, t);
      if t in outs {
        var i :| 0 <= i < |outs| && outs[i] == t;
        SetAt(local, outs, vs, i);
      } else {
        SetKeeps(local, outs, vs, t);
      }
    }
    forall t | 0 <= t < |p.owner| && p.owner[t] < g ensures SameAt(env, f, t) {
      EnclosingKept(p, lc, g, pc, t);
    }
  }

  /** A tensor graph g needs after stage pc is its own, was needed before unless pc wrote it, and is not released after pc. */
  lemma StillNeeded(p: Plan, lc: seq<nat>, g: nat, pc: nat, t: Tensor)
    requires Valid(p) && LastReads(p, lc) && g < |p.graphs| && p.graphs[g].first <= pc < p.graphs[g].End() <= |p.stages|
    requires Available(p, g, pc + 1, t) && Needed(p, g, pc + 1, t)
    ensures t < |lc| && p.owner[t] == g && (lc[t] > pc)
    ensures t !in p.stages[pc].outs ==> Available(p, g, pc, t) && Needed(p, g, pc, t)
  {
    assert GraphOk(p, g);
    AvailableOwned(p, g, pc + 1, t);
  }

  lemma AvailableOwned(p: Plan, g: nat, pc: nat, t: Tensor)
    requires Valid(p) && g < |p.graphs| && pc <= p.graphs[g].End() <= |p.stages| && Available(p, g, pc, t)
    ensures t < |p.owner| && p.owner[t] == g
  {
    assert GraphOk(p, g);
    if t !in p.graphs[g].ins {
      var s :| p.graphs[g].first <= s < pc && t in p.stages[s].outs;
      assert StageOk(p, g, s);
    }
  }

  /** A tensor of an enclosing graph is not among those last read in graph g. */
  lemma EnclosingKept(p: Plan, lc: seq<nat>, g: nat, pc: nat, t: Tensor)
    requires Valid(p) && LastReads(p, lc) && g < |p.graphs| && p.graphs[g].first <= pc < p.graphs[g].End() <= |p.stages|
    requires t < |p.owner| && p.owner[t] < g
    ensures |lc| == |p.owner| && !(p.graphs[g].first <= lc[t] <= pc && lc[t] != UINT16_MAX)
    ensures t !in p.stages[pc].outs
  {
    hide Valid, LastReads;
    LastReadOwned(p, lc, g, pc, t);
  }

  lemma LastReadOwned(p: Plan, lc: seq<nat>, g: nat, pc: nat, t: Tensor)
    requires Valid(p) && LastReads(p, lc) && g < |p.graphs| && p.graphs[g].first <= pc < p.graphs[g].End() <= |p.stages|
    requires t < |p.owner| && g > 0
    ensures |lc| == |p.owner| && (p.graphs[g].first <= lc[t] <= pc && lc[t] != UINT16_MAX ==> p.owner[t] == g)
    ensures t in p.stages[pc].outs ==> p.owner[t] == g
  {
    assert GraphOk(p, g) && StageOk(p, g, pc);
    if p.graphs[g].first <= lc[t] <= pc && lc[t] != UINT16_MAX { ReadOwned(p, g, lc[t], t); }
  }

  lemma ReadOwned(p: Plan, g: nat, s: nat, t: Tensor)
    requires g < |p.graphs| && s < |p.stages| && StageOk(p, g, s) && t in p.stages[s].Reads()
    ensures t < |p.owner| && p.owner[t] == g
  {
    var i :| 0 <= i < |p.stages[s].Reads()| && p.stages[s].Reads()[i] == t;
  }

  // What is released.

  /** The stages of graph g up to pc read t, those after do not, and it is no output of g. */
  ghost predicate ReadOut(p: Plan, g: nat, pc: nat, t: Tensor)
    requires g < |p.graphs| && p.graphs[g].End() <= |p.stages|
  {
    && t !in p.graphs[g].outs
    && (exists s :: p.graphs[g].first <= s <= pc && s < p.graphs[g].End() && t in p.stages[s].Reads())
    && (forall s :: pc < s < p.graphs[g].End() ==> t !in p.stages[s].Reads())
  }

  /** An output is one of its own graph's. */
  lemma OutputOwned(p: Plan, t: Tensor)
    requires Valid(p) && t < |p.owner|
    ensures IsOutput(p, t) ==> p.owner[t] < |p.graphs| && t in p.graphs[p.owner[t]].outs
  {
    if IsOutput(p, t) {
      var h :| 0 <= h < |p.graphs| && t in p.graphs[h].outs;
      assert GraphOk(p, h);
      var i :| 0 <= i < |p.graphs[h].outs| && p.graphs[h].outs[i] == t;
    }
  }

  /** A tensor read out is last read at one of those stages. */
  lemma ReadOutIsDead(p: Plan, lc: seq<nat>, g: nat, pc: nat, t: Tensor)
    requires Valid(p) && LastReads(p, lc) && g < |p.graphs| && p.graphs[g].End() <= |p.stages| && ReadOut(p, g, pc, t)
    ensures t < |lc| && p.graphs[g].first <= lc[t] <= pc && lc[t] != UINT16_MAX
  {
    assert GraphOk(p, g);
    var s :| p.graphs[g].first <= s <= pc && s < p.graphs[g].End() && t in p.stages[s].Reads();
    assert StageOk(p, g, s);
    ReadOwned(p, g, s, t);
    OutputOwned(p, t);
    if lc[t] > 0 {
      assert InSomeGraph(p, lc[t]);
      var h :| 0 <= h < |p.graphs| && p.graphs[h].first <= lc[t] < p.graphs[h].End();
      assert GraphOk(p, h) && StageOk(p, h, lc[t]);
      ReadOwned(p, h, lc[t], t);
    }
  }

  /** A move that leaves the loop past a stage of graph g leaves in memory no tensor read out by then. */
  lemma StepReleases(p: Plan, lc: seq<nat>, cap: nat, c: Config, d: Config, g: nat, t: Tensor)
    requires Valid(p) && LastReads(p, lc) && Indexed(p) && ConfigOk(p, c) && Step(p, lc, cap, c) == Go(d)
    requires g < |p.graphs| && d.first == p.graphs[g].first < d.pc <= p.graphs[g].End() && ReadOut(p, g, d.pc - 1, t)
    ensures t !in d.env
  {
    hide Valid, LastReads, ReadOut, StepControl, StartControl, RunCompute;
    ReadOutIsDead(p, lc, g, d.pc - 1, t);
  }

  /** Every state of a run that is past a stage of its graph holds no tensor that graph has read out. */
  lemma RunReleases(p: Plan, lc: seq<nat>, cap: nat, c: Config, k: nat, d: Config, g: nat, t: Tensor)
    requires Valid(p) && LastReads(p, lc) && Indexed(p) && ConfigOk(p, c) && c.pc == c.first
    requires Iterate(p, lc, cap, c, k) == Go(d)
    requires g < |p.graphs| && d.first == p.graphs[g].first < d.pc <= p.graphs[g].End() && ReadOut(p, g, d.pc - 1, t)
    ensures t !in d.env
  {
    hide Valid, LastReads, ReadOut, Step, Indexed;
    assert k > 0;
    StepReleases(p, lc, cap, Iterate(p, lc, cap, c, k - 1).c, d, g, t);
  }

  /** Leaving a graph takes its inputs and outputs out of memory and touches only them and the destinations. */
  lemma LeaveReleases(p: Plan, env: Env, g: nat, dst: Option<seq<Tensor>>, t: Tensor)
    requires g < |p.graphs| && (dst.Some? ==> |dst.value| == |p.graphs[g].outs|) && Leave(p, env, g, dst).Some?
    ensures var e := Leave(p, env, g, dst).value;
      && (t in p.graphs[g].ins || t in p.graphs[g].outs ==> t !in e)
      && (t !in p.graphs[g].ins && t !in p.graphs[g].outs && (dst.None? || t !in dst.value) ==> SameAt(env, e, t))
  {
    var outs := p.graphs[g].outs;
    if dst.Some? && t !in dst.value { CopyElsewhere(env, dst.value, outs, |outs|, t); }
  }

  lemma {:induction false} CopyElsewhere(e: Env, dst: seq<Tensor>, src: seq<Tensor>, n: nat, t: Tensor)
    requires n <= |dst| && n <= |src| && t !in dst && Copy(e, dst, src, n).Some?
    ensures SameAt(e, Copy(e, dst, src, n).value, t)
  {
    if n > 0 {
      CopyElsewhere(e, dst, src, n - 1, t);
      assert dst[n - 1] in dst;
    }
  }

  /** Copying from tensors that are not destinations sets them all at once. */
  lemma {:induction false} CopyIs(e: Env, dst: seq<Tensor>, src: seq<Tensor>, vs: seq<Value>, n: nat)
    requires |dst| == |src| && ValuesAre(e, src, vs) && n <= |src|
    requires forall t :: t in src ==> t !in dst
    ensures Copy(e, dst, src, n) == Some(Assign(e, dst, vs, n))
  {
    if n > 0 {
      CopyIs(e, dst, src, vs, n - 1);
      assert src[n - 1] in src;
      AssignKeeps(e, dst, vs, n - 1, src[n - 1]);
    }
  }

  lemma {:induction false} StartIs(e: Env, outs: seq<Tensor>, ins: seq<Tensor>, initial: seq<Option<Value>>, vs: seq<Value>, n: nat)
    requires n <= |outs| == |initial| && Missing(initial, |initial|) == |ins| && ValuesAre(e, ins, vs)
    requires forall t :: t in ins ==> t !in outs
    ensures Start(e, outs, ins, initial, n) == Some(Assign(e, outs, Initial(initial, vs), n))
  {
    if n > 0 {
      StartIs(e, outs, ins, initial, vs, n - 1);
      MissingGrows(initial, n, |initial|);
      if initial[n - 1].None? {
        var from := ins[Missing(initial, n - 1)];
        assert from in ins;
        AssignKeeps(e, outs, Initial(initial, vs), n - 1, from);
      }
    }
  }

  /** Entering graph h from graph g: its inputs take the values, and nothing of g changes. */
  lemma EnterGraph(p: Plan, g: nat, h: nat, e: Env, src: seq<Tensor>, vs: seq<Value>)
    requires Valid(p) && Below(p, g, h) && Owned(p, g, src) && |src| == |p.graphs[h].ins| && ValuesAre(e, src, vs)
    ensures Copy(e, p.graphs[h].ins, src, |src|) == Some(Set(e, p.graphs[h].ins, vs))
    ensures Same(p, g, [], e, Set(e, p.graphs[h].ins, vs))
  {
    assert GraphOk(p, h);
    var ins := p.graphs[h].ins;
    CopyIs(e, ins, src, vs, |src|);
    forall t | 0 <= t < |p.owner| && p.owner[t] <= g ensures SameAt(e, Set(e, ins, vs), t) {
      SetKeeps(e, ins, vs, t);
    }
  }

  /** Leaving graph h for graph g: dst takes its outputs' values, and nothing else of g changes. */
  lemma LeaveGraph(p: Plan, g: nat, h: nat, e: Env, dst: Option<seq<Tensor>>, vs: seq<Value>)
    requires Valid(p) && Below(p, g, h) && ValuesAre(e, p.graphs[h].outs, vs)
    requires dst.Some? ==> Owned(p, g, dst.value) && Distinct(dst.value) && |dst.value| == |vs|
    ensures var r := Leave(p, e, h, dst);
      && r.Some? && Same(p, g, if dst.Some? then dst.value else [], e, r.value)
      && (dst.Some? ==> ValuesAre(r.value, dst.value, vs))
  {
    assert GraphOk(p, h);
    if dst.Some? {
      CopyIs(e, dst.value, p.graphs[h].outs, vs, |vs|);
      var r := Leave(p, e, h, dst).value;
      forall i | 0 <= i < |vs| ensures dst.value[i] in r && r[dst.value[i]] == vs[i] {
        SetAt(e, dst.value, vs, i);
      }
      forall t | 0 <= t < |p.owner| && p.owner[t] <= g && t !in dst.value ensures SameAt(e, r, t) {
        SetKeeps(e, dst.value, vs, t);
      }
    }
  }

  /** How deep control flow nests below graph g. */
  function Nesting(p: Plan, g: nat): nat
    requires Indexed(p)
    decreases |p.graphs| - g, |p.stages| + 1
  {
    if g < |p.graphs| then NestingFrom(p, g, p.graphs[g].first) else 0
  }

  function NestingFrom(p: Plan, g: nat, s: nat): nat
    requires Indexed(p) && g < |p.graphs|
    decreases |p.graphs| - g, |p.stages| - s
  {
    if s >= p.graphs[g].End() then 0 else Max(NestingStage(p, g, p.stages[s]), NestingFrom(p, g, s + 1))
  }

  /** One more than the deeper of the two graphs a control stage of graph g runs; a graph not after g counts none. */
  function NestingStage(p: Plan, g: nat, st: Stage): nat
    requires Indexed(p) && g < |p.graphs|
    decreases |p.graphs| - g, 0
  {
    match st
    case Compute(_, _, _) => 0
    case If(_, _, _, a, b) => 1 + Max(if a > g then Nesting(p, a) else 0, if b > g then Nesting(p, b) else 0)
    case While(_, _, _, c, b) => 1 + Max(if c > g then Nesting(p, c) else 0, if b > g then Nesting(p, b) else 0)
  }

  lemma {:induction false} NestingBelow(p: Plan, g: nat, from: nat, s: nat, h: nat)
    requires Indexed(p) && g < |p.graphs| && from <= s < p.graphs[g].End() && Runs(p.stages[s], h) && h > g
    ensures Nesting(p, h) + 1 <= NestingFrom(p, g, from)
    decreases s - from
  {
    if from < s { NestingBelow(p, g, from + 1, s, h); }
  }
}
