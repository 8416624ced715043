/**
 * The flat stage loop: one running graph, a stack of control-flow frames, and
 * one memory in which tensors are released after the last stage that reads
 * them. Step is one move of it: a stage, or the end of a graph.
 */
module ControlFlow {
  import opened Rows
  import opened ControlPlan

  /** The control stage, the range it was entered from, and the graph it runs. */
  datatype Frame = Frame(stage: nat, first: nat, end: nat, graph: nat)

  datatype Config = Config(frames: seq<Frame>, first: nat, end: nat, pc: nat, env: Env)

  datatype Error = ErrMem | ErrWorkspace

  datatype Outcome = Go(c: Config) | Halt(env: Env) | Stop(error: Error)

  /** The loader's shape alone: what the loop needs to index the plan. */
  predicate Indexed(p: Plan) {
    && |p.graphs| >= 1
    && (forall g :: 0 <= g < |p.graphs| ==> p.graphs[g].End() <= |p.stages|)
    && (forall g :: 1 <= g < |p.graphs| ==> p.graphs[g].count > 0)
    && (forall s :: 0 <= s < |p.stages| ==> StageIndexed(p, p.stages[s]))
  }

  predicate StageIndexed(p: Plan, st: Stage) {
    match st
    case Compute(_, _, _) => true
    case If(_, ins, outs, a, b) =>
      && 1 <= a < |p.graphs| && 1 <= b < |p.graphs|
      && |p.graphs[a].ins| == |p.graphs[b].ins| == |ins| && |p.graphs[a].outs| == |p.graphs[b].outs| == |outs|
    case While(ins, outs, initial, c, b) =>
      && 1 <= c < |p.graphs| && 1 <= b < |p.graphs|
      && |p.graphs[c].ins| == |p.graphs[b].ins| == |outs| && |p.graphs[c].outs| == 1 && |p.graphs[b].outs| == |outs|
      && |initial| == |outs| && Missing(initial, |initial|) == |ins|
  }

  /** Copies the first n of src into dst, one after another; fails at one with no value. */
  function Copy(env: Env, dst: seq<Tensor>, src: seq<Tensor>, n: nat): Option<Env>
    requires n <= |dst| && n <= |src|
  {
    if n == 0 then Some(env)
    else
      match Copy(env, dst, src, n - 1)
      case None => None
      case Some(e) => if src[n - 1] in e then Some(e[dst[n - 1] := e[src[n - 1]]]) else None
  }

  /** Starts the first n loop variables, each from its constant or the next input. */
  function Start(env: Env, outs: seq<Tensor>, ins: seq<Tensor>, initial: seq<Option<Value>>, n: nat): Option<Env>
    requires n <= |outs| == |initial| && Missing(initial, |initial|) == |ins|
  {
    if n == 0 then Some(env)
    else
      match Start(env, outs, ins, initial, n - 1)
      case None => None
      case Some(e) =>
        match initial[n - 1]
        case Some(v) => Some(e[outs[n - 1] := v])
        case None =>
          MissingGrows(initial, n, |initial|);
          var from := ins[Missing(initial, n - 1)];
          if from in e then Some(e[outs[n - 1] := e[from]]) else None
  }

  function Release(env: Env, ts: seq<Tensor>): Env { env - set t | t in ts }

  /** Copies graph g's outputs to dst when there is one, then releases its inputs and outputs. */
  function Leave(p: Plan, env: Env, g: nat, dst: Option<seq<Tensor>>): Option<Env>
    requires g < |p.graphs| && (dst.Some? ==> |dst.value| == |p.graphs[g].outs|)
  {
    var gr := p.graphs[g];
    match (if dst.Some? then Copy(env, dst.value, gr.outs, |gr.outs|) else Some(env))
    case None => None
    case Some(e) => Some(Release(Release(e, gr.ins), gr.outs))
  }

  /** Releases the tensors last read at a stage in [first, s]; the last reader UINT16_MAX is none. */
  function FreeDead(lc: seq<nat>, env: Env, first: nat, s: nat): Env {
    map t | t in env && !(t < |lc| && first <= lc[t] <= s && lc[t] != UINT16_MAX) :: env[t]
  }

  datatype Entered = Entered(graph: nat, env: Env)

  /** Starts the control-flow operator st: the graph it runs first, its inputs in place. */
  function StartControl(p: Plan, env: Env, st: Stage): Option<Entered>
    requires Indexed(p) && StageIndexed(p, st) && st.Control()
  {
    match st
    case If(cond, ins, outs, a, b) =>
      if cond !in env then None
      else
        var g := if p.truth(env[cond]) then a else b;
        (match Copy(env, p.graphs[g].ins, ins, |ins|)
         case None => None
         case Some(e) => Some(Entered(g, e)))
    case While(ins, outs, initial, c, b) =>
      match Start(env, outs, ins, initial, |outs|)
      case None => None
      case Some(e) =>
        match Copy(e, p.graphs[c].ins, outs, |outs|)
        case None => None
        case Some(f) => Some(Entered(c, f))
  }

  datatype Stepped = Finished(env: Env) | Again(graph: nat, env: Env) | Failed

  /** Steps the control-flow operator st once its graph g finished. */
  function StepControl(p: Plan, env: Env, st: Stage, g: nat): Stepped
    requires Indexed(p) && StageIndexed(p, st) && st.Control() && Runs(st, g)
  {
    match st
    case If(_, _, outs, _, _) =>
      (match Leave(p, env, g, Some(outs))
       case None => Failed
       case Some(e) => Finished(e))
    case While(_, outs, _, c, b) =>
      if g == c then
        if p.graphs[c].outs[0] !in env then Failed
        else
          var again := p.truth(env[p.graphs[c].outs[0]]);
          var e := Leave(p, env, c, None).value;
          if !again then Finished(e)
          else EnterAgain(p, e, b, outs)
      else
        match Leave(p, env, g, Some(outs))
        case None => Failed
        case Some(e) => EnterAgain(p, e, c, outs)
  }

  function EnterAgain(p: Plan, env: Env, g: nat, src: seq<Tensor>): Stepped
    requires g < |p.graphs| && |p.graphs[g].ins| == |src|
  {
    match Copy(env, p.graphs[g].ins, src, |src|)
    case None => Failed
    case Some(e) => Again(g, e)
  }

  /** g is a graph st runs. */
  predicate Runs(st: Stage, g: nat) {
    match st
    case Compute(_, _, _) => false
    case If(_, _, _, a, b) => g == a || g == b
    case While(_, _, _, c, b) => g == c || g == b
  }

  /** Every frame names a control stage and a graph it runs. */
  predicate FramesOk(p: Plan, frames: seq<Frame>) {
    forall i :: 0 <= i < |frames| ==>
      && frames[i].stage < |p.stages| && p.stages[frames[i].stage].Control()
      && Runs(p.stages[frames[i].stage], frames[i].graph) && frames[i].stage < frames[i].end <= |p.stages|
  }

  /** The running range is a range of stages. */
  predicate ConfigOk(p: Plan, c: Config) {
    FramesOk(p, c.frames) && c.pc <= c.end <= |p.stages|
  }

  /** Runs stage pc when it computes. */
  function RunCompute(env: Env, st: Stage): Option<Env>
    requires st.Compute?
  {
    if forall t :: t in st.ins ==> t in env then Some(Set(env, st.outs, Results(st.f, Fetch(env, st.ins), |st.outs|)))
    else None
  }

  /** One move of the flat loop. */
  function Step(p: Plan, lc: seq<nat>, cap: nat, c: Config): (r: Outcome)
    requires Indexed(p) && ConfigOk(p, c)
    ensures r.Go? ==> ConfigOk(p, r.c)
  {
    if c.pc < c.end then
      var st := p.stages[c.pc];
      assert StageIndexed(p, st);
      if st.Control() then Enter(p, cap, c)
      else
        match RunCompute(c.env, st)
        case None => Stop(ErrMem)
        case Some(e) => Go(c.(pc := c.pc + 1, env := FreeDead(lc, e, c.first, c.pc)))
    else if c.frames == [] then Halt(c.env)
    else Pop(p, lc, c)
  }

  /** Pushes a frame and enters the graph the control stage at pc runs first. */
  function Enter(p: Plan, cap: nat, c: Config): (r: Outcome)
    requires Indexed(p) && ConfigOk(p, c) && c.pc < c.end && p.stages[c.pc].Control()
    ensures r.Go? ==> ConfigOk(p, r.c)
  {
    assert StageIndexed(p, p.stages[c.pc]);
    if |c.frames| >= cap then Stop(ErrWorkspace)
    else
      match StartControl(p, c.env, p.stages[c.pc])
      case None => Stop(ErrMem)
      case Some(Entered(g, e)) =>
        var gr := p.graphs[g];
        Go(Config(c.frames + [Frame(c.pc, c.first, c.end, g)], gr.first, gr.End(), gr.first, e))
  }

  /** Steps the innermost operator into its next graph, or, when it is done, returns past its stage. */
  function Pop(p: Plan, lc: seq<nat>, c: Config): (r: Outcome)
    requires Indexed(p) && FramesOk(p, c.frames) && c.frames != []
    ensures r.Go? ==> ConfigOk(p, r.c)
  {
    var f := c.frames[|c.frames| - 1];
    var rest := c.frames[..|c.frames| - 1];
    assert StageIndexed(p, p.stages[f.stage]);
    match StepControl(p, c.env, p.stages[f.stage], f.graph)
    case Failed => Stop(ErrMem)
    case Again(g, e) =>
      Go(Config(rest + [f.(graph := g)], p.graphs[g].first, p.graphs[g].End(), p.graphs[g].first, e))
    case Finished(e) =>
      Go(Config(rest, f.first, f.end, f.stage + 1, FreeDead(lc, e, f.first, f.stage)))
  }

  /** k moves from c, or fewer when it stops. */
  function Iterate(p: Plan, lc: seq<nat>, cap: nat, c: Config, k: nat): (r: Outcome)
    requires Indexed(p) && ConfigOk(p, c)
    ensures r.Go? ==> ConfigOk(p, r.c)
  {
    if k == 0 then Go(c)
    else
      match Iterate(p, lc, cap, c, k - 1)
      case Go(d) => Step(p, lc, cap, d)
      case r => r
  }

  lemma {:induction false} IterateAppend(p: Plan, lc: seq<nat>, cap: nat, c: Config, j: nat, k: nat)
    requires Indexed(p) && ConfigOk(p, c) && Iterate(p, lc, cap, c, j).Go?
    ensures Iterate(p, lc, cap, c, j + k) == Iterate(p, lc, cap, Iterate(p, lc, cap, c, j).c, k)
  {
    hide Step;
    if k > 0 { IterateAppend(p, lc, cap, c, j, k - 1); }
  }

  /** Once stopped, stopped. */
  lemma {:induction false} IterateStays(p: Plan, lc: seq<nat>, cap: nat, c: Config, j: nat, k: nat)
    requires Indexed(p) && ConfigOk(p, c) && j <= k && !Iterate(p, lc, cap, c, j).Go?
    ensures Iterate(p, lc, cap, c, k) == Iterate(p, lc, cap, c, j)
  {
    hide Step;
    if j < k { IterateStays(p, lc, cap, c, j, k - 1); }
  }

  /** The loop as the executor keeps it: frames, the running range, the stage to continue at, and memory. */
  class StageLoop {
    const p: Plan
    const lc: seq<nat>
    const cap: nat

    var frames: seq<Frame>
    var first: nat
    var end: nat
    var continueAt: int
    var env: Env

    constructor (p: Plan, lc: seq<nat>, cap: nat, env: Env)
      requires Indexed(p) && p.graphs[0].first == 0
      ensures this.p == p && this.lc == lc && this.cap == cap
      ensures At(0) == Config([], 0, p.graphs[0].End(), 0, env)
    {
      this.p, this.lc, this.cap, this.env := p, lc, cap, env;
      frames, first, end, continueAt := [], 0, p.graphs[0].End(), 0;
    }

    function At(pc: nat): Config
      reads this
    {
      Config(frames, first, end, pc, env)
    }

    method CopyTensors(dst: seq<Tensor>, src: seq<Tensor>) returns (ok: bool)
      requires |dst| == |src|
      modifies `env
      ensures ok <==> Copy(old(env), dst, src, |src|).Some?
      ensures ok ==> env == Copy(old(env), dst, src, |src|).value
    {
      for i := 0 to |src|
        invariant Copy(old(env), dst, src, i) == Some(env)
      {
        if src[i] !in env {
          CopyFails(old(env), dst, src, i + 1, |src|);
          return false;
        }
        env := env[dst[i] := env[src[i]]];
      }
      return true;
    }

    static lemma {:induction false} CopyFails(env: Env, dst: seq<Tensor>, src: seq<Tensor>, m: nat, n: nat)
      requires m <= n <= |src| == |dst| && Copy(env, dst, src, m).None?
      ensures Copy(env, dst, src, n).None?
    {
      if m < n { CopyFails(env, dst, src, m, n - 1); }
    }

    static lemma {:induction false} StartFails(env: Env, outs: seq<Tensor>, ins: seq<Tensor>, initial: seq<Option<Value>>, m: nat, n: nat)
      requires |outs| == |initial| && Missing(initial, |initial|) == |ins| && m <= n <= |outs|
      requires Start(env, outs, ins, initial, m).None?
      ensures Start(env, outs, ins, initial, n).None?
    {
      if m < n { StartFails(env, outs, ins, initial, m, n - 1); }
    }

    method ReleaseTensors(ts: seq<Tensor>)
      modifies `env
      ensures env == Release(old(env), ts)
    {
      for i := 0 to |ts|
        invariant env == Release(old(env), ts[..i])
      {
        env := env - {ts[i]};
        assert ts[..i + 1] == ts[..i] + [ts[i]];
      }
      assert ts[..|ts|] == ts;
    }

    method CopyOutOfGraph(g: nat, dst: Option<seq<Tensor>>) returns (ok: bool)
      requires g < |p.graphs| && (dst.Some? ==> |dst.value| == |p.graphs[g].outs|)
      modifies `env
      ensures ok <==> Leave(p, old(env), g, dst).Some?
      ensures ok ==> env == Leave(p, old(env), g, dst).value
    {
      ok := true;
      if dst.Some? {
        ok := CopyTensors(dst.value, p.graphs[g].outs);
        if !ok { return; }
      }
      ReleaseTensors(p.graphs[g].ins);
      ReleaseTensors(p.graphs[g].outs);
    }

    method StartOperator(st: Stage) returns (ok: bool, g: nat)
      requires Indexed(p) && StageIndexed(p, st) && st.Control()
      modifies `env
      ensures ok <==> StartControl(p, old(env), st).Some?
      ensures ok ==> StartControl(p, old(env), st) == Some(Entered(g, env))
    {
      g := 0;
      match st {
        case If(cond, ins, outs, a, b) =>
          if cond !in env { return false, g; }
          g := if p.truth(env[cond]) then a else b;
          ok := CopyTensors(p.graphs[g].ins, ins);
        case While(ins, outs, initial, c, b) =>
          var next := 0;
          for i := 0 to |outs|
            invariant Start(old(env), outs, ins, initial, i) == Some(env) && next == Missing(initial, i)
          {
            MissingGrows(initial, i + 1, |initial|);
            if initial[i].Some? {
              env := env[outs[i] := initial[i].value];
            } else {
              if ins[next] !in env {
                StartFails(old(env), outs, ins, initial, i + 1, |outs|);
                return false, g;
              }
              env := env[outs[i] := env[ins[next]]];
              next := next + 1;
            }
          }
          g := c;
          ok := CopyTensors(p.graphs[c].ins, outs);
      }
    }

    method StepOperator(st: Stage, graph: nat) returns (ok: bool, g: nat, done: bool)
      requires Indexed(p) && StageIndexed(p, st) && st.Control() && Runs(st, graph)
      modifies `env
      ensures ok <==> !StepControl(p, old(env), st, graph).Failed?
      ensures ok && done ==> StepControl(p, old(env), st, graph) == Finished(env)
      ensures ok && !done ==> StepControl(p, old(env), st, graph) == Again(g, env)
    {
      g, done := graph, false;
      if st.If? {
        done := true;
        ok := CopyOutOfGraph(graph, Some(st.outs));
        return;
      }
      var condition := st.condGraph;
      if graph == condition {
        var verdict := p.graphs[condition].outs[0];
        if verdict !in env { return false, g, done; }
        var again := p.truth(env[verdict]);
        ok := CopyOutOfGraph(condition, None);
        if !again { done := true; return; }
        g := st.bodyGraph;
        ok := CopyTensors(p.graphs[g].ins, st.outs);
        return;
      }
      ok := CopyOutOfGraph(graph, Some(st.outs));
      if !ok { return; }
      g := condition;
      ok := CopyTensors(p.graphs[g].ins, st.outs);
    }

    method FreeDeadTensors(from: nat, s: nat)
      modifies `env
      ensures env == FreeDead(lc, old(env), from, s)
    {
      for t := 0 to |lc|
        invariant env == map u | u in old(env) && !(u < t && from <= lc[u] <= s && lc[u] != UINT16_MAX) :: old(env)[u]
      {
        if from <= lc[t] <= s && lc[t] != UINT16_MAX {
          env := env - {t};
        }
      }
    }

    /** Pushes the frame of the control stage s and moves to the graph it runs. */
    method EnterControl(s: nat) returns (error: Option<Error>)
      requires Indexed(p) && ConfigOk(p, At(s)) && s < end && p.stages[s].Control()
      modifies `env, `frames, `first, `end, `continueAt
      ensures error.Some? ==> Enter(p, cap, old(At(s))) == Stop(error.value)
      ensures error.None? ==> continueAt >= -1 && Enter(p, cap, old(At(s))) == Go(At(continueAt + 1)) && continueAt + 1 < end
    {
      assert StageIndexed(p, p.stages[s]);
      if |frames| >= cap { return Some(ErrWorkspace); }
      var ok, g := StartOperator(p.stages[s]);
      if !ok { return Some(ErrMem); }
      frames := frames + [Frame(s, first, end, g)];
      first := p.graphs[g].first;
      end := first + p.graphs[g].count;
      continueAt := first - 1;
      return None;
    }

    /** Steps the innermost operator: into its next graph, or, when it is done, back past its stage. */
    method PopFrame() returns (error: Option<Error>, done: bool)
      requires Indexed(p) && FramesOk(p, frames) && |frames| > 0
      modifies `env, `frames, `first, `end, `continueAt
      ensures error.Some? ==> forall pc :: Pop(p, lc, old(At(pc))) == Stop(error.value)
      ensures error.None? ==> continueAt >= -1 && forall pc :: Pop(p, lc, old(At(pc))) == Go(At(continueAt + 1))
      ensures error.None? && done ==> |frames| < old(|frames|)
      ensures error.None? && !done ==> continueAt + 1 < end
    {
      hide StepControl, FreeDead, Pop;
      PopCases(At(0));
      var f := frames[|frames| - 1];
      assert StageIndexed(p, p.stages[f.stage]);
      var ok, g;
      ok, g, done := StepOperator(p.stages[f.stage], f.graph);
      if !ok { return Some(ErrMem), done; }
      if !done {
        AgainIndexed(p, old(env), p.stages[f.stage], f.graph);
        frames := frames[..|frames| - 1] + [f.(graph := g)];
        first := p.graphs[g].first;
        end := first + p.graphs[g].count;
        continueAt := first - 1;
        return None, done;
      }
      continueAt, first, end := f.stage, f.first, f.end;
      frames := frames[..|frames| - 1];
      FreeDeadTensors(first, continueAt);
      return None, done;
    }

    /** What stepping the innermost operator leaves, by how it ends. */
    lemma PopCases(c: Config)
      requires Indexed(p) && FramesOk(p, c.frames) && c.frames != []
      ensures var f, rest := c.frames[|c.frames| - 1], c.frames[..|c.frames| - 1];
        && f.stage < |p.stages| && StageIndexed(p, p.stages[f.stage]) && p.stages[f.stage].Control() && Runs(p.stages[f.stage], f.graph)
        && match StepControl(p, c.env, p.stages[f.stage], f.graph)
           case Failed => forall pc :: Pop(p, lc, c.(pc := pc)) == Stop(ErrMem)
           case Again(g, e) => g < |p.graphs| &&
             forall pc :: Pop(p, lc, c.(pc := pc)) == Go(Config(rest + [f.(graph := g)], p.graphs[g].first, p.graphs[g].End(), p.graphs[g].first, e))
           case Finished(e) =>
             forall pc :: Pop(p, lc, c.(pc := pc)) == Go(Config(rest, f.first, f.end, f.stage + 1, FreeDead(lc, e, f.first, f.stage)))
    {
      hide StepControl;
      assert StageIndexed(p, p.stages[c.frames[|c.frames| - 1].stage]);
      var f := c.frames[|c.frames| - 1];
      AgainIndexed(p, c.env, p.stages[f.stage], f.graph);
    }

    /** The next graph a While enters is one of its own, with stages to run. */
    static lemma AgainIndexed(p: Plan, env: Env, st: Stage, g: nat)
      requires Indexed(p) && StageIndexed(p, st) && st.Control() && Runs(st, g)
      ensures var r := StepControl(p, env, st, g); r.Again? ==> Runs(st, r.graph) && 1 <= r.graph < |p.graphs|
    {}

    /**
     * The running graph finished at stage s: steps the innermost operator, or
     * returns to the graph that ran it, as many levels as finish together.
     */
    method UnwindControl(s: nat) returns (error: Option<Error>, ghost k: nat)
      requires Indexed(p) && ConfigOk(p, At(s + 1))
      modifies `env, `frames, `first, `end, `continueAt
      ensures error.Some? ==> Iterate(p, lc, cap, old(At(s + 1)), k) == Stop(error.value)
      ensures error.None? ==> continueAt >= -1 && Iterate(p, lc, cap, old(At(s + 1)), k) == Go(At(continueAt + 1))
      ensures error.None? ==> continueAt + 1 == end ==> frames == []
    {
      hide Pop, Enter, RunCompute, Indexed;
      continueAt := s;
      k := 0;
      while |frames| > 0 && continueAt + 1 == end
        invariant continueAt >= -1 && Iterate(p, lc, cap, old(At(s + 1)), k) == Go(At(continueAt + 1))
        decreases |frames|
      {
        k := k + 1;
        var done;
        error, done := PopFrame();
        if error.Some? || !done { return; }
      }
      return None, k;
    }

    /** Runs a computing stage. */
    method RunStage(st: Stage) returns (ok: bool)
      requires st.Compute?
      modifies `env
      ensures ok <==> RunCompute(old(env), st).Some?
      ensures ok ==> env == RunCompute(old(env), st).value
    {
      for i := 0 to |st.ins|
        invariant forall l :: 0 <= l < i ==> st.ins[l] in env
      {
        if st.ins[i] !in env { return false; }
      }
      var vs := Fetch(env, st.ins);
      var results := Results(st.f, vs, |st.outs|);
      for k := 0 to |st.outs|
        invariant env == Assign(old(env), st.outs, results, k)
      {
        env := env[st.outs[k] := results[k]];
      }
      return true;
    }

    /** One turn of the stage loop: the next stage is continueAt + 1. */
    method Turn(s: nat) returns (error: Option<Error>, ghost k: nat)
      requires Indexed(p) && ConfigOk(p, At(s)) && s < end
      modifies `env, `frames, `first, `end, `continueAt
      ensures k >= 1
      ensures error.Some? ==> Iterate(p, lc, cap, old(At(s)), k) == Stop(error.value)
      ensures error.None? ==> continueAt >= -1 && Iterate(p, lc, cap, old(At(s)), k) == Go(At(continueAt + 1))
      ensures error.None? ==> continueAt + 1 == end ==> frames == []
    {
      hide StepControl, FreeDead, Enter, Pop, RunCompute, Indexed;
      k := 1;
      if p.stages[s].Control() {
        error := EnterControl(s);
        return;
      }
      var ok := RunStage(p.stages[s]);
      if !ok { return Some(ErrMem), k; }
      FreeDeadTensors(first, s);
      continueAt := s;
      error := None;
      if |frames| > 0 && s + 1 == end {
        ghost var j;
        error, j := UnwindControl(s);
        IterateAppend(p, lc, cap, old(At(s)), 1, j);
        k := 1 + j;
      }
    }

    /** Up to `fuel` turns of the stage loop. */
    method Run(fuel: nat) returns (r: Outcome, ghost k: nat)
      requires Indexed(p) && ConfigOk(p, At(0)) && frames == []
      modifies `env, `frames, `first, `end, `continueAt
      ensures r == Iterate(p, lc, cap, old(At(0)), k)
      ensures r.Go? ==> k >= fuel
    {
      hide StepControl, FreeDead, Enter, Pop, RunCompute;
      var s: nat := 0;
      k := 0;
      var turns := 0;
      while s < end && turns < fuel
        invariant Iterate(p, lc, cap, old(At(0)), k) == Go(At(s)) && k >= turns
        invariant s == end ==> frames == []
        decreases fuel - turns
      {
        turns := turns + 1;
        var error;
        ghost var j;
        error, j := Turn(s);
        IterateAppend(p, lc, cap, old(At(0)), k, j);
        k := k + j;
        if error.Some? { return Stop(error.value), k; }
        s := continueAt + 1;
      }
      if s < end { return Go(At(s)), k; }
      return Halt(env), k + 1;
    }
  }
}
