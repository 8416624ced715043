/** The simulation: the flat loop step by step against the recursive interpreter. */
module ControlSim {
  import opened Rows
  import opened ControlPlan
  import opened ControlFlow
  import opened ControlRun

  ghost predicate Setting(p: Plan, lc: seq<nat>) {
    Valid(p) && LastReads(p, lc) && Indexed(p)
  }

  /** The loop runs graph g. */
  ghost predicate RunsGraph(p: Plan, g: nat, c: Config) {
    g < |p.graphs| && c.first == p.graphs[g].first && c.end == p.graphs[g].End() && FramesOk(p, c.frames)
    && c.first <= c.pc <= c.end <= |p.stages|
  }

  /** Frames left for what graph g runs. */
  ghost predicate Deep(p: Plan, cap: nat, g: nat, c: Config)
    requires Indexed(p)
  {
    |c.frames| + Nesting(p, g) <= cap
  }

  /** From c the loop gets to d, running stages and graphs of its own on the way. */
  ghost predicate Reaches(p: Plan, lc: seq<nat>, cap: nat, c: Config, k: nat, d: Config)
    requires Indexed(p)
  {
    ConfigOk(p, c) && Iterate(p, lc, cap, c, k) == Go(d)
  }

  /** From c the loop makes k moves without stopping. */
  ghost predicate KeepsGoing(p: Plan, lc: seq<nat>, cap: nat, c: Config, k: nat)
    requires Indexed(p)
  {
    ConfigOk(p, c) && Iterate(p, lc, cap, c, k).Go?
  }

  lemma ReachesThen(p: Plan, lc: seq<nat>, cap: nat, c: Config, j: nat, d: Config, k: nat)
    requires Indexed(p) && Reaches(p, lc, cap, c, j, d)
    ensures ConfigOk(p, d)
    ensures forall e :: Reaches(p, lc, cap, d, k, e) ==> Reaches(p, lc, cap, c, j + k, e)
    ensures KeepsGoing(p, lc, cap, d, k) ==> KeepsGoing(p, lc, cap, c, j + k)
  {
    IterateAppend(p, lc, cap, c, j, k);
  }

  lemma OneStep(p: Plan, lc: seq<nat>, cap: nat, c: Config)
    requires Indexed(p) && ConfigOk(p, c) && Step(p, lc, cap, c).Go?
    ensures Reaches(p, lc, cap, c, 1, Step(p, lc, cap, c).c)
  {
    assert Iterate(p, lc, cap, c, 0) == Go(c);
  }

  lemma SameTrans(p: Plan, g: nat, a: seq<Tensor>, b: seq<Tensor>, ts: seq<Tensor>, e: Env, f: Env, h: Env)
    requires Same(p, g, a, e, f) && Same(p, g, b, f, h)
    requires forall t :: t in a || t in b ==> t in ts
    ensures Same(p, g, ts, e, h)
  {
    forall t | 0 <= t < |p.owner| && p.owner[t] <= g && t !in ts ensures SameAt(e, h, t) {
      assert SameAt(e, f, t) && SameAt(f, h, t);
    }
  }

  lemma KeepsBelowTrans(p: Plan, g: nat, e: Env, f: Env, h: Env)
    requires KeepsBelow(p, g, e, f) && KeepsBelow(p, g, f, h)
    ensures KeepsBelow(p, g, e, h)
  {
    forall t | 0 <= t < |p.owner| && p.owner[t] < g ensures SameAt(e, h, t) {
      assert SameAt(e, f, t) && SameAt(f, h, t);
    }
  }

  /** What a graph after g keeps, g keeps too. */
  lemma KeepsSame(p: Plan, g: nat, h: nat, e: Env, f: Env)
    requires g < h && KeepsBelow(p, h, e, f)
    ensures Same(p, g, [], e, f)
  {}

  lemma ValuesKept(p: Plan, g: nat, ts: seq<Tensor>, vs: seq<Value>, e: Env, f: Env)
    requires Owned(p, g, ts) && ValuesAre(e, ts, vs) && Same(p, g, [], e, f)
    ensures ValuesAre(f, ts, vs)
  {
    forall i | 0 <= i < |ts| ensures ts[i] in f && f[ts[i]] == vs[i] {
      assert SameAt(e, f, ts[i]);
    }
  }

  /** The values stage pc reads are in memory. */
  lemma ReadsHeld(p: Plan, g: nat, pc: nat, local: Env, env: Env)
    requires Valid(p) && g < |p.graphs| && p.graphs[g].first <= pc < p.graphs[g].End() <= |p.stages|
    requires Bound(p, g, pc, local) && Agree(p, g, pc, local, env)
    ensures StageOk(p, g, pc)
    ensures forall t :: t in p.stages[pc].Reads() ==> t in local && t in env && env[t] == local[t]
    ensures forall t :: t in p.stages[pc].ins ==> t in local
    ensures ValuesAre(env, p.stages[pc].ins, Fetch(local, p.stages[pc].ins))
  {
    assert GraphOk(p, g) && StageOk(p, g, pc);
    forall t | t in p.stages[pc].ins ensures t in p.stages[pc].Reads() {}
    forall t | t in p.stages[pc].Reads() ensures t in local && t in env && env[t] == local[t] {
      assert Available(p, g, pc, t) && Needed(p, g, pc, t);
    }
  }

  /** A computing stage is one move. */
  lemma SimCompute(p: Plan, lc: seq<nat>, cap: nat, fuel: nat, g: nat, local: Env, c: Config) returns (d: Config)
    requires Setting(p, lc) && RunsGraph(p, g, c) && c.pc < c.end && p.stages[c.pc].Compute?
    requires Bound(p, g, c.pc, local) && Agree(p, g, c.pc, local, c.env)
    ensures Reaches(p, lc, cap, c, 1, d) && d == c.(pc := c.pc + 1, env := d.env)
    ensures EvalStage(p, fuel, g, c.pc, local).Some?
    ensures Agree(p, g, c.pc + 1, Set(local, p.stages[c.pc].outs, EvalStage(p, fuel, g, c.pc, local).value), d.env)
    ensures KeepsBelow(p, g, c.env, d.env)
  {
    var st := p.stages[c.pc];
    ReadsHeld(p, g, c.pc, local, c.env);
    assert Fetch(c.env, st.ins) == Fetch(local, st.ins);
    var vs := Results(st.f, Fetch(local, st.ins), |st.outs|);
    var e := Set(c.env, st.outs, vs);
    ComputeSets(p, g, c.pc, c.env, vs);
    StageDone(p, lc, g, c.pc, local, c.env, e, vs);
    OneStep(p, lc, cap, c);
    d := Step(p, lc, cap, c).c;
  }

  lemma ComputeSets(p: Plan, g: nat, pc: nat, env: Env, vs: seq<Value>)
    requires g < |p.graphs| && pc < |p.stages| && StageOk(p, g, pc) && |vs| == |p.stages[pc].outs|
    ensures ValuesAre(Set(env, p.stages[pc].outs, vs), p.stages[pc].outs, vs)
    ensures Same(p, g, p.stages[pc].outs, env, Set(env, p.stages[pc].outs, vs))
  {
    var outs := p.stages[pc].outs;
    forall i | 0 <= i < |outs| ensures outs[i] in Set(env, outs, vs) && Set(env, outs, vs)[outs[i]] == vs[i] {
      SetAt(env, outs, vs, i);
    }
    forall t | 0 <= t < |p.owner| && p.owner[t] <= g && t !in outs ensures SameAt(env, Set(env, outs, vs), t) {
      SetKeeps(env, outs, vs, t);
    }
  }

  /** What running graph h from its first stage gives. */
  ghost predicate GraphRan(p: Plan, h: nat, c: Config, d: Config, vs: seq<Value>)
    requires h < |p.graphs|
  {
    && d == c.(pc := c.end, env := d.env)
    && ValuesAre(d.env, p.graphs[h].outs, vs) && KeepsBelow(p, h, c.env, d.env)
  }

  /** The interpreter's graph, run from its inputs in memory. */
  lemma SimGraph(p: Plan, lc: seq<nat>, cap: nat, fuel: nat, h: nat, args: seq<Value>, e0: Env, c: Config)
    returns (k: nat, d: Config)
    requires Setting(p, lc) && RunsGraph(p, h, c) && c.pc == c.first && Deep(p, cap, h, c)
    requires |args| == |p.graphs[h].ins| && c.env == Set(e0, p.graphs[h].ins, args)
    ensures var r := EvalGraph(p, fuel, h, args);
      && (r.Some? ==> Reaches(p, lc, cap, c, k, d) && GraphRan(p, h, c, d, r.value))
      && (r.None? ==> k >= fuel && KeepsGoing(p, lc, cap, c, k))
    decreases fuel, 1
  {
    hide Iterate, EvalRange, Valid, LastReads, Indexed;
    var gr := p.graphs[h];
    GraphIs(p, h);
    var local := Set(map[], gr.ins, args);
    BoundStart(p, h, args);
    AgreeStart(p, h, args, e0);
    k, d := SimRange(p, lc, cap, fuel, h, gr.first, local, c);
    var r := EvalRange(p, fuel, h, gr.first, local);
    if r.Some? { OutputsHeld(p, h, r.value, d.env); }
  }

  lemma GraphIs(p: Plan, h: nat)
    requires Valid(p) && h < |p.graphs|
    ensures GraphOk(p, h) && p.graphs[h].End() <= |p.stages|
  {}

  lemma AgreeStart(p: Plan, h: nat, args: seq<Value>, e0: Env)
    requires Valid(p) && h < |p.graphs| && p.graphs[h].End() <= |p.stages| && |args| == |p.graphs[h].ins|
    ensures Agree(p, h, p.graphs[h].first, Set(map[], p.graphs[h].ins, args), Set(e0, p.graphs[h].ins, args))
  {
    var ins := p.graphs[h].ins;
    forall t | t in ins ensures t in Set(map[], ins, args) && t in Set(e0, ins, args) && Set(e0, ins, args)[t] == Set(map[], ins, args)[t] {
      SetHas(map[], e0, ins, args, t);
    }
  }

  lemma OutputsHeld(p: Plan, h: nat, local: Env, env: Env)
    requires Valid(p) && h < |p.graphs| && p.graphs[h].End() <= |p.stages| && Bound(p, h, p.graphs[h].End(), local)
    requires Agree(p, h, p.graphs[h].End(), local, env)
    ensures forall t :: t in p.graphs[h].outs ==> t in local
    ensures ValuesAre(env, p.graphs[h].outs, Fetch(local, p.graphs[h].outs))
  {
    assert GraphOk(p, h);
    forall t | t in p.graphs[h].outs ensures t in local && t in env && env[t] == local[t] {
      assert Available(p, h, p.graphs[h].End(), t) && Needed(p, h, p.graphs[h].End(), t);
    }
  }

  /** Stages pc up to the end of graph g. */
  lemma SimRange(p: Plan, lc: seq<nat>, cap: nat, fuel: nat, g: nat, pc: nat, local: Env, c: Config)
    returns (k: nat, d: Config)
    requires Setting(p, lc) && RunsGraph(p, g, c) && c.pc == pc && Deep(p, cap, g, c)
    requires Bound(p, g, pc, local) && Agree(p, g, pc, local, c.env)
    ensures var r := EvalRange(p, fuel, g, pc, local);
      && (r.Some? ==> Reaches(p, lc, cap, c, k, d) && d == c.(pc := c.end, env := d.env)
                      && Agree(p, g, c.end, r.value, d.env) && KeepsBelow(p, g, c.env, d.env))
      && (r.None? ==> k >= fuel && KeepsGoing(p, lc, cap, c, k))
    decreases fuel, 0, p.graphs[g].End() - pc
  {
    hide Iterate, Step, Valid, LastReads, Indexed, Agree, KeepsBelow, EvalStage, Nesting;
    k, d := 0, c;
    Here(p, lc, cap, c);
    if pc < p.graphs[g].End() && fuel > 0 {
      k, d := SimStage(p, lc, cap, fuel - 1, g, local, c);
      var r := EvalStage(p, fuel - 1, g, pc, local);
      if r.Some? {
        var j, c1 := k, d;
        BoundNext(p, g, pc, local, r.value);
        k, d := SimRange(p, lc, cap, fuel - 1, g, pc + 1, Set(local, p.stages[pc].outs, r.value), c1);
        ReachesThen(p, lc, cap, c, j, c1, k);
        k := j + k;
        if EvalRange(p, fuel, g, pc, local).Some? { KeepsBelowTrans(p, g, c.env, c1.env, d.env); }
      }
    } else {
      KeepsBelowSelf(p, g, c.env);
    }
  }

  lemma Here(p: Plan, lc: seq<nat>, cap: nat, c: Config)
    requires Indexed(p) && ConfigOk(p, c)
    ensures Reaches(p, lc, cap, c, 0, c) && KeepsGoing(p, lc, cap, c, 0)
  {}

  lemma KeepsBelowSelf(p: Plan, g: nat, e: Env)
    ensures KeepsBelow(p, g, e, e)
  {}

  /** One stage, with everything it runs. */
  lemma SimStage(p: Plan, lc: seq<nat>, cap: nat, fuel: nat, g: nat, local: Env, c: Config)
    returns (k: nat, d: Config)
    requires Setting(p, lc) && RunsGraph(p, g, c) && c.pc < c.end && Deep(p, cap, g, c)
    requires Bound(p, g, c.pc, local) && Agree(p, g, c.pc, local, c.env)
    ensures var r := EvalStage(p, fuel, g, c.pc, local);
      && (r.Some? ==> k >= 1 && Reaches(p, lc, cap, c, k, d) && d == c.(pc := c.pc + 1, env := d.env)
                      && Agree(p, g, c.pc + 1, Set(local, p.stages[c.pc].outs, r.value), d.env)
                      && KeepsBelow(p, g, c.env, d.env))
      && (r.None? ==> k >= fuel + 1 && KeepsGoing(p, lc, cap, c, k))
    decreases fuel, 5
  {
    var st := p.stages[c.pc];
    if st.Compute? {
      d := SimCompute(p, lc, cap, fuel, g, local, c);
      k := 1;
    } else {
      var e;
      k, d, e := SimControl(p, lc, cap, fuel, g, local, c);
      var r := EvalStage(p, fuel, g, c.pc, local);
      if r.Some? { StageDone(p, lc, g, c.pc, local, c.env, e, r.value); }
    }
  }

  /** Where a control stage leaves the loop: past it, its outputs in memory e, what it read last released. */
  ghost predicate ControlDone(p: Plan, lc: seq<nat>, g: nat, sc: nat, frames: seq<Frame>, env: Env, d: Config, e: Env, vs: seq<Value>)
    requires g < |p.graphs| && sc < |p.stages|
  {
    && d == Config(frames, p.graphs[g].first, p.graphs[g].End(), sc + 1, FreeDead(lc, e, p.graphs[g].first, sc))
    && Same(p, g, p.stages[sc].outs, env, e) && ValuesAre(e, p.stages[sc].outs, vs)
  }

  /** Control stage sc of graph g runs graph h on args, on top of the frames graph g has. */
  ghost predicate InGraph(p: Plan, g: nat, sc: nat, h: nat, frames: seq<Frame>, c: Config)
    requires g < |p.graphs|
  {
    RunsGraph(p, h, c) && c.frames == frames + [Frame(sc, p.graphs[g].first, p.graphs[g].End(), h)]
  }

  /** A control stage of graph g, and the depth it has. */
  ghost predicate ControlAt(p: Plan, cap: nat, g: nat, sc: nat, frames: seq<Frame>)
    requires Indexed(p)
  {
    && g < |p.graphs| && p.graphs[g].first <= sc < p.graphs[g].End() <= |p.stages| && p.stages[sc].Control()
    && StageOk(p, g, sc) && FramesOk(p, frames) && |frames| + Nesting(p, g) <= cap
  }

  /** Moving into graph h leaves room for what h runs. */
  lemma RoomBelow(p: Plan, cap: nat, g: nat, sc: nat, h: nat, frames: seq<Frame>, c: Config)
    requires Indexed(p) && ControlAt(p, cap, g, sc, frames) && Below(p, g, h) && Runs(p.stages[sc], h)
    requires |c.frames| == |frames| + 1
    ensures |frames| < cap && Deep(p, cap, h, c)
  {
    NestingBelow(p, g, p.graphs[g].first, sc, h);
  }

  lemma EnterIf(p: Plan, lc: seq<nat>, cap: nat, g: nat, h: nat, args: seq<Value>, c: Config) returns (c1: Config)
    requires Setting(p, lc) && RunsGraph(p, g, c) && ControlAt(p, cap, g, c.pc, c.frames) && p.stages[c.pc].If?
    requires p.stages[c.pc].cond in c.env
    requires h == if p.truth(c.env[p.stages[c.pc].cond]) then p.stages[c.pc].thenGraph else p.stages[c.pc].elseGraph
    requires ValuesAre(c.env, p.stages[c.pc].ins, args)
    ensures Reaches(p, lc, cap, c, 1, c1) && InGraph(p, g, c.pc, h, c.frames, c1) && c1.pc == c1.first && Deep(p, cap, h, c1)
    ensures |args| == |p.graphs[h].ins| && c1.env == Set(c.env, p.graphs[h].ins, args) && Same(p, g, [], c.env, c1.env)
  {
    hide Nesting;
    var st := p.stages[c.pc];
    assert Owned(p, g, st.ins) by { InsOwned(p, g, c.pc); }
    EnterGraph(p, g, h, c.env, st.ins, args);
    var gr := p.graphs[h];
    c1 := Config(c.frames + [Frame(c.pc, c.first, c.end, h)], gr.first, gr.End(), gr.first, Set(c.env, gr.ins, args));
    RoomBelow(p, cap, g, c.pc, h, c.frames, c1);
    assert Step(p, lc, cap, c) == Go(c1);
    OneStep(p, lc, cap, c);
  }

  lemma InsOwned(p: Plan, g: nat, sc: nat)
    requires g < |p.graphs| && sc < |p.stages| && StageOk(p, g, sc)
    ensures Owned(p, g, p.stages[sc].ins)
  {
    var st := p.stages[sc];
    forall i | 0 <= i < |st.ins| ensures st.ins[i] < |p.owner| && p.owner[st.ins[i]] == g {
      if st.If? { assert st.Reads()[i + 1] == st.ins[i]; }
    }
  }

  /** The branch of an If finished: its outputs are copied out and the loop returns past it. */
  lemma LeaveIf(p: Plan, lc: seq<nat>, cap: nat, g: nat, sc: nat, h: nat, frames: seq<Frame>, env: Env,
                c1: Config, d: Config, vs: seq<Value>) returns (e: Env)
    requires Setting(p, lc) && ControlAt(p, cap, g, sc, frames) && p.stages[sc].If?
    requires Below(p, g, h) && InGraph(p, g, sc, h, frames, c1) && Runs(p.stages[sc], h) && |vs| == |p.stages[sc].outs|
    requires Same(p, g, [], env, c1.env) && GraphRan(p, h, c1, d, vs)
    ensures ConfigOk(p, d) && Step(p, lc, cap, d).Go? && Reaches(p, lc, cap, d, 1, Step(p, lc, cap, d).c)
    ensures ControlDone(p, lc, g, sc, frames, env, Step(p, lc, cap, d).c, e, vs)
  {
    hide Nesting, FreeDead;
    var outs := p.stages[sc].outs;
    KeepsSame(p, g, h, c1.env, d.env);
    LeaveGraph(p, g, h, d.env, Some(outs), vs);
    e := Leave(p, d.env, h, Some(outs)).value;
    SameTrans(p, g, [], [], [], env, c1.env, d.env);
    SameTrans(p, g, [], outs, outs, env, d.env, e);
    assert d.frames[..|d.frames| - 1] == frames;
    OneStep(p, lc, cap, d);
  }

  /** A While is at the start of its graph h on the loop variables, which its outputs hold too. */
  ghost predicate Looping(p: Plan, g: nat, sc: nat, h: nat, frames: seq<Frame>, env: Env, e: Env, c: Config, vars: seq<Value>)
    requires g < |p.graphs| && sc < |p.stages|
  {
    && InGraph(p, g, sc, h, frames, c) && c.pc == c.first
    && |vars| == |p.graphs[h].ins| && c.env == Set(e, p.graphs[h].ins, vars)
    && Same(p, g, p.stages[sc].outs, env, e) && ValuesAre(e, p.stages[sc].outs, vars)
  }

  lemma EnterWhile(p: Plan, lc: seq<nat>, cap: nat, g: nat, args: seq<Value>, c: Config) returns (c1: Config, e: Env)
    requires Setting(p, lc) && RunsGraph(p, g, c) && ControlAt(p, cap, g, c.pc, c.frames) && p.stages[c.pc].While?
    requires ValuesAre(c.env, p.stages[c.pc].ins, args)
    ensures Reaches(p, lc, cap, c, 1, c1) && Missing(p.stages[c.pc].initial, |p.stages[c.pc].initial|) == |args|
    ensures Looping(p, g, c.pc, p.stages[c.pc].condGraph, c.frames, c.env, e, c1, Initial(p.stages[c.pc].initial, args))
  {
    hide Nesting;
    var st := p.stages[c.pc];
    var h := st.condGraph;
    var vars := Initial(st.initial, args);
    StartIs(c.env, st.outs, st.ins, st.initial, args, |st.outs|);
    e := Set(c.env, st.outs, vars);
    ComputeSets(p, g, c.pc, c.env, vars);
    EnterGraph(p, g, h, e, st.outs, vars);
    var gr := p.graphs[h];
    c1 := Config(c.frames + [Frame(c.pc, c.first, c.end, h)], gr.first, gr.End(), gr.first, Set(e, gr.ins, vars));
    RoomBelow(p, cap, g, c.pc, h, c.frames, c1);
    assert Step(p, lc, cap, c) == Go(c1);
    OneStep(p, lc, cap, c);
  }

  /** After graph h the loop variables and everything else of graph g are as they were at its start. */
  lemma AfterGraph(p: Plan, g: nat, sc: nat, h: nat, frames: seq<Frame>, env: Env, e: Env, c: Config, d: Config,
                   vars: seq<Value>, vs: seq<Value>)
    requires Valid(p) && g < |p.graphs| && sc < |p.stages| && StageOk(p, g, sc) && Below(p, g, h)
    requires Looping(p, g, sc, h, frames, env, e, c, vars) && GraphRan(p, h, c, d, vs)
    ensures Same(p, g, p.stages[sc].outs, env, d.env) && ValuesAre(d.env, p.stages[sc].outs, vars)
  {
    var outs := p.stages[sc].outs;
    EnterGraph(p, g, h, e, outs, vars);
    KeepsSame(p, g, h, c.env, d.env);
    SameTrans(p, g, [], [], [], e, c.env, d.env);
    SameTrans(p, g, outs, [], outs, env, e, d.env);
    ValuesKept(p, g, outs, vars, e, d.env);
  }

  /** The condition finished: the loop ends on the variables, or enters the body on them. */
  lemma AfterCond(p: Plan, lc: seq<nat>, cap: nat, g: nat, sc: nat, frames: seq<Frame>, env: Env, e: Env, c: Config, d: Config,
                  vars: seq<Value>, verdict: seq<Value>) returns (f: Env)
    requires Setting(p, lc) && ControlAt(p, cap, g, sc, frames) && p.stages[sc].While? && |verdict| == 1
    requires Looping(p, g, sc, p.stages[sc].condGraph, frames, env, e, c, vars)
    requires GraphRan(p, p.stages[sc].condGraph, c, d, verdict)
    ensures ConfigOk(p, d) && Step(p, lc, cap, d).Go? && Reaches(p, lc, cap, d, 1, Step(p, lc, cap, d).c)
    ensures !p.truth(verdict[0]) ==> ControlDone(p, lc, g, sc, frames, env, Step(p, lc, cap, d).c, f, vars)
    ensures p.truth(verdict[0]) ==> Looping(p, g, sc, p.stages[sc].bodyGraph, frames, env, f, Step(p, lc, cap, d).c, vars)
  {
    hide Nesting, FreeDead;
    var st := p.stages[sc];
    var h := st.condGraph;
    AfterGraph(p, g, sc, h, frames, env, e, c, d, vars, verdict);
    LeaveGraph(p, g, h, d.env, None, verdict);
    f := Leave(p, d.env, h, None).value;
    SameTrans(p, g, st.outs, [], st.outs, env, d.env, f);
    ValuesKept(p, g, st.outs, vars, d.env, f);
    EnterGraph(p, g, st.bodyGraph, f, st.outs, vars);
    assert d.frames[..|d.frames| - 1] == frames;
    OneStep(p, lc, cap, d);
  }

  /** The body finished: every loop variable takes its next value at once, and the condition is entered on them. */
  lemma AfterBody(p: Plan, lc: seq<nat>, cap: nat, g: nat, sc: nat, frames: seq<Frame>, env: Env, e: Env, c: Config, d: Config,
                  vars: seq<Value>, next: seq<Value>) returns (f: Env)
    requires Setting(p, lc) && ControlAt(p, cap, g, sc, frames) && p.stages[sc].While? && |next| == |p.stages[sc].outs|
    requires Looping(p, g, sc, p.stages[sc].bodyGraph, frames, env, e, c, vars)
    requires GraphRan(p, p.stages[sc].bodyGraph, c, d, next)
    ensures ConfigOk(p, d) && Step(p, lc, cap, d).Go? && Reaches(p, lc, cap, d, 1, Step(p, lc, cap, d).c)
    ensures Looping(p, g, sc, p.stages[sc].condGraph, frames, env, f, Step(p, lc, cap, d).c, next)
  {
    hide Nesting, FreeDead;
    var st := p.stages[sc];
    var h := st.bodyGraph;
    AfterGraph(p, g, sc, h, frames, env, e, c, d, vars, next);
    LeaveGraph(p, g, h, d.env, Some(st.outs), next);
    f := Leave(p, d.env, h, Some(st.outs)).value;
    SameTrans(p, g, st.outs, st.outs, st.outs, env, d.env, f);
    EnterGraph(p, g, st.condGraph, f, st.outs, next);
    assert d.frames[..|d.frames| - 1] == frames;
    OneStep(p, lc, cap, d);
  }

  /** A While from its condition on. */
  lemma SimWhile(p: Plan, lc: seq<nat>, cap: nat, fuel: nat, g: nat, sc: nat, vars: seq<Value>, frames: seq<Frame>,
                 env: Env, e0: Env, c: Config)
    returns (k: nat, d: Config, e: Env)
    requires Setting(p, lc) && ControlAt(p, cap, g, sc, frames) && p.stages[sc].While?
    requires Looping(p, g, sc, p.stages[sc].condGraph, frames, env, e0, c, vars)
    ensures var r := EvalWhile(p, fuel, g, p.stages[sc].condGraph, p.stages[sc].bodyGraph, vars);
      && (r.Some? ==> Reaches(p, lc, cap, c, k, d) && ControlDone(p, lc, g, sc, frames, env, d, e, r.value))
      && (r.None? ==> k >= fuel && KeepsGoing(p, lc, cap, c, k))
    decreases fuel, 2
  {
    hide Iterate, Step, Valid, LastReads, Indexed, EvalGraph, Nesting, FreeDead, GraphRan;
    var st := p.stages[sc];
    RoomBelow(p, cap, g, sc, st.condGraph, frames, c);
    var d1, d2, j;
    k, d1 := SimGraph(p, lc, cap, fuel, st.condGraph, vars, e0, c);
    d, e := d1, e0;
    var verdict := EvalGraph(p, fuel, st.condGraph, vars);
    if verdict.None? { return; }
    e := AfterCond(p, lc, cap, g, sc, frames, env, e0, c, d1, vars, verdict.value);
    d := Step(p, lc, cap, d1).c;
    ReachesThen(p, lc, cap, c, k, d1, 1);
    k := k + 1;
    if !p.truth(verdict.value[0]) { return; }
    var c2 := d;
    RoomBelow(p, cap, g, sc, st.bodyGraph, frames, c2);
    j, d2 := SimGraph(p, lc, cap, fuel, st.bodyGraph, vars, e, c2);
    ReachesThen(p, lc, cap, c, k, c2, j);
    k := k + j;
    var next := EvalGraph(p, fuel, st.bodyGraph, vars);
    if next.None? { return; }
    e := AfterBody(p, lc, cap, g, sc, frames, env, e, c2, d2, vars, next.value);
    d := Step(p, lc, cap, d2).c;
    ReachesThen(p, lc, cap, c, k, d2, 1);
    k := k + 1;
    if fuel > 0 {
      var c3 := d;
      j, d, e := SimWhile(p, lc, cap, fuel - 1, g, sc, next.value, frames, env, e, c3);
      ReachesThen(p, lc, cap, c, k, c3, j);
      k := k + j;
    }
  }

  /** An If or a While, from the move that enters its first graph to the one that returns past it. */
  lemma SimControl(p: Plan, lc: seq<nat>, cap: nat, fuel: nat, g: nat, local: Env, c: Config)
    returns (k: nat, d: Config, e: Env)
    requires Setting(p, lc) && RunsGraph(p, g, c) && c.pc < c.end && Deep(p, cap, g, c) && p.stages[c.pc].Control()
    requires Bound(p, g, c.pc, local) && Agree(p, g, c.pc, local, c.env)
    ensures var r := EvalStage(p, fuel, g, c.pc, local);
      && (r.Some? ==> k >= 1 && Reaches(p, lc, cap, c, k, d) && ControlDone(p, lc, g, c.pc, c.frames, c.env, d, e, r.value))
      && (r.None? ==> k >= fuel + 1 && KeepsGoing(p, lc, cap, c, k))
    decreases fuel, 4
  {
    hide Iterate, Step, LastReads, Indexed, EvalGraph, Nesting, FreeDead, ControlDone, Agree;
    var st := p.stages[c.pc];
    ReadsHeld(p, g, c.pc, local, c.env);
    e := c.env;
    if st.If? {
      assert st.cond in st.Reads();
      var h := if p.truth(local[st.cond]) then st.thenGraph else st.elseGraph;
      k, d, e := SimIf(p, lc, cap, fuel, g, h, Fetch(local, st.ins), c);
    } else {
      var vars := Initial(st.initial, Fetch(local, st.ins));
      var c1, e0 := EnterWhile(p, lc, cap, g, Fetch(local, st.ins), c);
      k, d, e := SimWhile(p, lc, cap, fuel, g, c.pc, vars, c.frames, c.env, e0, c1);
      ReachesThen(p, lc, cap, c, 1, c1, k);
      k := 1 + k;
    }
  }

  /** An If that takes graph h on args. */
  lemma SimIf(p: Plan, lc: seq<nat>, cap: nat, fuel: nat, g: nat, h: nat, args: seq<Value>, c: Config)
    returns (k: nat, d: Config, e: Env)
    requires Setting(p, lc) && RunsGraph(p, g, c) && ControlAt(p, cap, g, c.pc, c.frames) && p.stages[c.pc].If?
    requires p.stages[c.pc].cond in c.env && ValuesAre(c.env, p.stages[c.pc].ins, args)
    requires h == if p.truth(c.env[p.stages[c.pc].cond]) then p.stages[c.pc].thenGraph else p.stages[c.pc].elseGraph
    ensures Below(p, g, h) && |args| == |p.graphs[h].ins|
    ensures var r := EvalGraph(p, fuel, h, args);
      && (r.Some? ==> |r.value| == |p.stages[c.pc].outs| && k >= 1
                      && Reaches(p, lc, cap, c, k, d) && ControlDone(p, lc, g, c.pc, c.frames, c.env, d, e, r.value))
      && (r.None? ==> k >= fuel + 1 && KeepsGoing(p, lc, cap, c, k))
    decreases fuel, 3
  {
    hide Iterate, Step, Valid, LastReads, Indexed, EvalGraph, Nesting, FreeDead, GraphRan, ControlDone;
    e := c.env;
    var c1 := EnterIf(p, lc, cap, g, h, args, c);
    k, d := SimGraph(p, lc, cap, fuel, h, args, c.env, c1);
    ReachesThen(p, lc, cap, c, 1, c1, k);
    var r := EvalGraph(p, fuel, h, args);
    k := 1 + k;
    if r.Some? {
      var d1 := d;
      e := LeaveIf(p, lc, cap, g, c.pc, h, c.frames, c.env, c1, d1, r.value);
      ReachesThen(p, lc, cap, c, k, d1, 1);
      d := Step(p, lc, cap, d1).c;
      k := k + 1;
    }
  }

  /** The stage loop at the start of the main graph. */
  function Begin(p: Plan, env: Env): Config
    requires |p.graphs| >= 1
  {
    Config([], p.graphs[0].first, p.graphs[0].End(), p.graphs[0].first, env)
  }

  lemma {:induction false} SetAgain(env: Env, ts: seq<Tensor>, n: nat)
    requires (forall t :: t in ts ==> t in env) && n <= |ts|
    ensures Assign(env, ts, Fetch(env, ts), n) == env
  {
    if n > 0 { SetAgain(env, ts, n - 1); }
  }

  /**
   * The flat stage loop and the recursive interpreter agree: when the
   * interpreter finishes, the loop halts with the same outputs; when it runs
   * out of fuel, the loop is still running after as many moves.
   */
  lemma FlatIsRecursive(p: Plan, lc: seq<nat>, cap: nat, fuel: nat, env: Env) returns (k: nat)
    requires Valid(p) && LastReads(p, lc) && (forall t :: t in p.graphs[0].ins ==> t in env)
    requires Indexed(p) && Nesting(p, 0) <= cap
    ensures ConfigOk(p, Begin(p, env))
    ensures var r := EvalGraph(p, fuel, 0, Fetch(env, p.graphs[0].ins));
      && (r.Some? ==>
            var last := Iterate(p, lc, cap, Begin(p, env), k);
            last.Halt? && ValuesAre(last.env, p.graphs[0].outs, r.value))
      && (r.None? ==> k >= fuel && Iterate(p, lc, cap, Begin(p, env), k).Go?)
  {
    hide Nesting, LastReads, Valid;
    GraphIs(p, 0);
    var ins := p.graphs[0].ins;
    var args := Fetch(env, ins);
    SetAgain(env, ins, |ins|);
    var c := Begin(p, env);
    var d;
    k, d := SimGraph(p, lc, cap, fuel, 0, args, env, c);
    if EvalGraph(p, fuel, 0, args).Some? {
      assert Step(p, lc, cap, d) == Halt(d.env);
      k := k + 1;
    }
  }

  /** What a run of the loop that has stopped left is what the interpreter computes, and nothing was missing. */
  lemma StoppedIsRecursive(p: Plan, lc: seq<nat>, cap: nat, env: Env, k: nat)
    requires Valid(p) && LastReads(p, lc) && (forall t :: t in p.graphs[0].ins ==> t in env)
    requires Indexed(p) && Nesting(p, 0) <= cap && ConfigOk(p, Begin(p, env))
    ensures var r := Iterate(p, lc, cap, Begin(p, env), k);
      var spec := EvalGraph(p, k, 0, Fetch(env, p.graphs[0].ins));
      !r.Go? ==> r.Halt? && spec.Some? && ValuesAre(r.env, p.graphs[0].outs, spec.value)
  {
    hide Nesting, LastReads, Valid, Iterate, EvalGraph;
    var j := FlatIsRecursive(p, lc, cap, k, env);
    var c := Begin(p, env);
    if !Iterate(p, lc, cap, c, k).Go? {
      if j <= k {
        if !Iterate(p, lc, cap, c, j).Go? { IterateStays(p, lc, cap, c, j, k); }
      } else {
        IterateStays(p, lc, cap, c, k, j);
      }
    }
  }

  /**
   * Up to `turns` turns of the stage loop, after the pass that finds every
   * tensor's last reader. A run that ends has the interpreter's outputs in
   * memory; no run fails for a tensor released too early or a frame too many.
   */
  method RunPlan(p: Plan, cap: nat, turns: nat, env: Env) returns (r: Outcome)
    requires Valid(p) && (forall t :: t in p.graphs[0].ins ==> t in env)
    requires Indexed(p) && Nesting(p, 0) <= cap
    ensures !r.Stop?
    ensures r.Halt? ==> exists fuel: nat ::
      var spec := EvalGraph(p, fuel, 0, Fetch(env, p.graphs[0].ins));
      spec.Some? && ValuesAre(r.env, p.graphs[0].outs, spec.value)
  {
    hide Nesting, LastReads, Iterate, EvalGraph, Indexed;
    var lc := LastConsumers(p);
    var loop := new StageLoop(p, lc, cap, env);
    ghost var j := FlatIsRecursive(p, lc, cap, 0, env);
    ghost var k;
    r, k := loop.Run(turns);
    StoppedIsRecursive(p, lc, cap, env, k);
  }
}
