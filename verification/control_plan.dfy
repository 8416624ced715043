/**
 * Plans with If and While, and what they mean: a recursive interpreter that
 * runs each graph on an environment of its own, holding its arguments and
 * what its stages produced so far, and nothing is ever released.
 */
module ControlPlan {
  import opened Rows

  /** The bytes of one tensor. */
  type Value(0, !new)

  type Tensor = nat

  type Env = map<Tensor, Value>

  datatype Stage =
    /** Output k is f(k, values of ins). */
    | Compute(ins: seq<Tensor>, outs: seq<Tensor>, f: (nat, seq<Value>) -> Value)
    | If(cond: Tensor, ins: seq<Tensor>, outs: seq<Tensor>, thenGraph: nat, elseGraph: nat)
    /** Loop variable i starts at initial[i], or at the next of ins. */
    | While(ins: seq<Tensor>, outs: seq<Tensor>, initial: seq<Option<Value>>, condGraph: nat, bodyGraph: nat)
  {
    function Reads(): seq<Tensor> { if If? then [cond] + ins else ins }

    predicate Control() { If? || While? }
  }

  /** Stages first up to first + count. */
  datatype Graph = Graph(first: nat, count: nat, ins: seq<Tensor>, outs: seq<Tensor>) {
    function End(): nat { first + count }
  }

  /** Graph 0 is the main graph; owner[t] is the one graph tensor t belongs to. */
  datatype Plan = Plan(stages: seq<Stage>, graphs: seq<Graph>, owner: seq<nat>, truth: Value -> bool)

  /** t enters graph g or is produced in it before stage pc. */
  ghost predicate Available(p: Plan, g: nat, pc: nat, t: Tensor)
    requires g < |p.graphs| && pc <= |p.stages|
  {
    t in p.graphs[g].ins || exists s :: p.graphs[g].first <= s < pc && t in p.stages[s].outs
  }

  predicate Owned(p: Plan, g: nat, ts: seq<Tensor>) {
    forall i :: 0 <= i < |ts| ==> ts[i] < |p.owner| && p.owner[ts[i]] == g
  }

  predicate Distinct(ts: seq<Tensor>) {
    forall i, j :: 0 <= i < j < |ts| ==> ts[i] != ts[j]
  }

  predicate Below(p: Plan, g: nat, h: nat) { g < h < |p.graphs| }

  function Missing(initial: seq<Option<Value>>, n: nat): (m: nat)
    requires n <= |initial|
    ensures m <= n
  {
    if n == 0 then 0 else Missing(initial, n - 1) + if initial[n - 1].None? then 1 else 0
  }

  ghost predicate StageOk(p: Plan, g: nat, s: nat)
    requires g < |p.graphs| && s < |p.stages|
  {
    var st := p.stages[s];
    && Owned(p, g, st.Reads()) && Owned(p, g, st.outs) && Distinct(st.outs)
    && (forall t :: t in st.Reads() ==> Available(p, g, s, t) && t !in st.outs)
    && (match st
        case Compute(_, _, _) => true
        case If(_, ins, outs, a, b) => BranchOk(p, g, a, |ins|, |outs|) && BranchOk(p, g, b, |ins|, |outs|)
        case While(ins, outs, initial, c, b) =>
          && BranchOk(p, g, c, |outs|, 1) && BranchOk(p, g, b, |outs|, |outs|) && c != b
          && |initial| == |outs| && Missing(initial, |initial|) == |ins|)
  }

  /** A graph an operator of graph g runs comes after g. */
  predicate BranchOk(p: Plan, g: nat, h: nat, ins: nat, outs: nat) {
    Below(p, g, h) && |p.graphs[h].ins| == ins && |p.graphs[h].outs| == outs
  }

  ghost predicate GraphOk(p: Plan, g: nat)
    requires g < |p.graphs|
  {
    var gr := p.graphs[g];
    && gr.End() <= |p.stages| && (g > 0 ==> gr.first > 0 && gr.count > 0)
    && Owned(p, g, gr.ins) && Owned(p, g, gr.outs)
    && (forall s :: gr.first <= s < gr.End() ==> StageOk(p, g, s))
    && (forall t :: t in gr.outs ==> Available(p, g, gr.End(), t))
  }

  ghost predicate InSomeGraph(p: Plan, s: nat) {
    exists g :: 0 <= g < |p.graphs| && p.graphs[g].first <= s < p.graphs[g].End()
  }

  /** What the loader establishes of a plan with control flow. */
  ghost predicate Valid(p: Plan) {
    && |p.graphs| >= 1 && p.graphs[0].first == 0 && |p.stages| <= UINT16_MAX
    && (forall g :: 0 <= g < |p.graphs| ==> GraphOk(p, g))
    && (forall s :: 0 <= s < |p.stages| ==> InSomeGraph(p, s))
  }

  /** The values of ts. */
  function Fetch(env: Env, ts: seq<Tensor>): (vs: seq<Value>)
    requires forall t :: t in ts ==> t in env
    ensures |vs| == |ts|
  {
    seq(|ts|, i requires 0 <= i < |ts| => env[ts[i]])
  }

  /** Sets the first n of ts in order. */
  function Assign(env: Env, ts: seq<Tensor>, vs: seq<Value>, n: nat): (e: Env)
    requires n <= |ts| <= |vs|
  {
    if n == 0 then env else Assign(env, ts, vs, n - 1)[ts[n - 1] := vs[n - 1]]
  }

  lemma {:induction false} AssignKeeps(env: Env, ts: seq<Tensor>, vs: seq<Value>, n: nat, t: Tensor)
    requires n <= |ts| <= |vs| && t !in ts[..n]
    ensures (t in Assign(env, ts, vs, n) <==> t in env) && (t in env ==> Assign(env, ts, vs, n)[t] == env[t])
  {
    if n > 0 {
      assert ts[..n] == ts[..n - 1] + [ts[n - 1]];
      AssignKeeps(env, ts, vs, n - 1, t);
    }
  }

  /** What a tensor assigned is does not depend on what was there. */
  lemma {:induction false} AssignSets(e: Env, f: Env, ts: seq<Tensor>, vs: seq<Value>, n: nat, t: Tensor)
    requires n <= |ts| <= |vs| && t in ts[..n]
    ensures t in Assign(e, ts, vs, n) && t in Assign(f, ts, vs, n)
    ensures Assign(e, ts, vs, n)[t] == Assign(f, ts, vs, n)[t]
  {
    assert ts[..n] == ts[..n - 1] + [ts[n - 1]];
    if t != ts[n - 1] { AssignSets(e, f, ts, vs, n - 1, t); }
  }

  lemma {:induction false} AssignLast(env: Env, ts: seq<Tensor>, vs: seq<Value>, n: nat, i: nat)
    requires i < n <= |ts| <= |vs| && ts[i] !in ts[i + 1..n]
    ensures ts[i] in Assign(env, ts, vs, n) && Assign(env, ts, vs, n)[ts[i]] == vs[i]
  {
    if i < n - 1 {
      assert ts[i + 1..n] == ts[i + 1..n - 1] + [ts[n - 1]];
      AssignLast(env, ts, vs, n - 1, i);
    }
  }

  /** Sets all of ts in order. */
  function Set(env: Env, ts: seq<Tensor>, vs: seq<Value>): Env
    requires |ts| == |vs|
  {
    Assign(env, ts, vs, |ts|)
  }

  lemma SetKeeps(env: Env, ts: seq<Tensor>, vs: seq<Value>, t: Tensor)
    requires |ts| == |vs| && t !in ts
    ensures (t in Set(env, ts, vs) <==> t in env) && (t in env ==> Set(env, ts, vs)[t] == env[t])
  {
    AssignKeeps(env, ts, vs, |ts|, t);
  }

  lemma SetHas(e: Env, f: Env, ts: seq<Tensor>, vs: seq<Value>, t: Tensor)
    requires |ts| == |vs| && t in ts
    ensures t in Set(e, ts, vs) && t in Set(f, ts, vs) && Set(e, ts, vs)[t] == Set(f, ts, vs)[t]
  {
    assert ts[..|ts|] == ts;
    AssignSets(e, f, ts, vs, |ts|, t);
  }

  lemma SetAt(env: Env, ts: seq<Tensor>, vs: seq<Value>, i: nat)
    requires |ts| == |vs| && Distinct(ts) && i < |ts|
    ensures ts[i] in Set(env, ts, vs) && Set(env, ts, vs)[ts[i]] == vs[i]
  {
    AssignLast(env, ts, vs, |ts|, i);
  }

  /** The starting values of a While's loop variables. */
  function Initial(initial: seq<Option<Value>>, given: seq<Value>): (vs: seq<Value>)
    requires Missing(initial, |initial|) == |given|
    ensures |vs| == |initial|
  {
    seq(|initial|, i requires 0 <= i < |initial| =>
      match initial[i]
      case Some(v) => v
      case None => MissingGrows(initial, i + 1, |initial|); given[Missing(initial, i)])
  }

  /** Loop variable by loop variable: a constant is taken as it is, a missing one is the next of those given. */
  lemma InitialTakes(initial: seq<Option<Value>>, given: seq<Value>, v: Value)
    requires Missing(initial, |initial|) == |given|
    ensures var more := initial + [Some(v)];
      Missing(more, |more|) == |given| && Initial(more, given) == Initial(initial, given) + [v]
    ensures var more := initial + [None];
      Missing(more, |more|) == |given| + 1 && Initial(more, given + [v]) == Initial(initial, given) + [v]
  {
    MissingPrefix(initial, [Some(v)], |initial|);
    MissingPrefix(initial, [None], |initial|);
    InitialMore(initial, given, Some(v), given, v);
    InitialMore(initial, given, None, given + [v], v);
  }

  lemma InitialMore(initial: seq<Option<Value>>, given: seq<Value>, x: Option<Value>, more: seq<Value>, v: Value)
    requires Missing(initial, |initial|) == |given| && Missing(initial + [x], |initial| + 1) == |more|
    requires if x.Some? then x.value == v && more == given else more == given + [v]
    ensures Initial(initial + [x], more) == Initial(initial, given) + [v]
  {
    hide Missing;
    forall i | 0 <= i < |initial| ensures Initial(initial + [x], more)[i] == Initial(initial, given)[i] {
      MissingPrefix(initial, [x], i);
      if initial[i].None? { MissingBelow(initial, i); }
    }
    MissingPrefix(initial, [x], |initial|);
  }

  lemma MissingBelow(initial: seq<Option<Value>>, i: nat)
    requires i < |initial| && initial[i].None?
    ensures Missing(initial, i) < Missing(initial, |initial|)
  {
    MissingGrows(initial, i + 1, |initial|);
  }

  lemma {:induction false} MissingPrefix(a: seq<Option<Value>>, b: seq<Option<Value>>, n: nat)
    requires n <= |a|
    ensures Missing(a + b, n) == Missing(a, n)
  {
    if n > 0 { MissingPrefix(a, b, n - 1); }
  }

  lemma {:induction false} MissingGrows(initial: seq<Option<Value>>, m: nat, n: nat)
    requires m <= n <= |initial|
    ensures Missing(initial, m) <= Missing(initial, n)
  {
    if m < n { MissingGrows(initial, m, n - 1); }
  }

  /** Every tensor available at stage pc of graph g has a value. */
  ghost predicate Bound(p: Plan, g: nat, pc: nat, env: Env)
    requires g < |p.graphs| && pc <= |p.stages|
  {
    forall t :: Available(p, g, pc, t) ==> t in env
  }

  /** The outputs of a computing stage. */
  function Results(f: (nat, seq<Value>) -> Value, vs: seq<Value>, n: nat): (r: seq<Value>)
    ensures |r| == n && forall k :: 0 <= k < n ==> r[k] == f(k, vs)
  {
    seq(n, k requires 0 <= k < n => f(k, vs))
  }

  // The recursive interpreter. None is out of fuel: every stage it runs takes one unit.

  ghost function EvalGraph(p: Plan, fuel: nat, g: nat, args: seq<Value>): (r: Option<seq<Value>>)
    requires Valid(p) && g < |p.graphs| && |args| == |p.graphs[g].ins|
    ensures r.Some? ==> |r.value| == |p.graphs[g].outs|
    decreases fuel, 1
  {
    var gr := p.graphs[g];
    assert GraphOk(p, g);
    var env := Set(map[], gr.ins, args);
    BoundStart(p, g, args);
    match EvalRange(p, fuel, g, gr.first, env)
    case None => None
    case Some(e) => Some(Fetch(e, gr.outs))
  }

  /** Stages pc up to the end of graph g. */
  ghost function EvalRange(p: Plan, fuel: nat, g: nat, pc: nat, env: Env): (r: Option<Env>)
    requires Valid(p) && g < |p.graphs| && p.graphs[g].first <= pc <= p.graphs[g].End() <= |p.stages|
    requires Bound(p, g, pc, env)
    ensures r.Some? ==> Bound(p, g, p.graphs[g].End(), r.value)
    decreases fuel, 0, p.graphs[g].End() - pc
  {
    if pc == p.graphs[g].End() then Some(env)
    else if fuel == 0 then None
    else
      assert GraphOk(p, g) && StageOk(p, g, pc);
      match EvalStage(p, fuel - 1, g, pc, env)
      case None => None
      case Some(vs) =>
        BoundNext(p, g, pc, env, vs);
        EvalRange(p, fuel - 1, g, pc + 1, Set(env, p.stages[pc].outs, vs))
  }

  lemma BoundStart(p: Plan, g: nat, args: seq<Value>)
    requires g < |p.graphs| && GraphOk(p, g) && |args| == |p.graphs[g].ins|
    ensures Bound(p, g, p.graphs[g].first, Set(map[], p.graphs[g].ins, args))
  {
    forall t | t in p.graphs[g].ins ensures t in Set(map[], p.graphs[g].ins, args) {
      SetHas(map[], map[], p.graphs[g].ins, args, t);
    }
  }

  lemma BoundNext(p: Plan, g: nat, pc: nat, env: Env, vs: seq<Value>)
    requires g < |p.graphs| && pc < |p.stages| && Bound(p, g, pc, env) && |p.stages[pc].outs| == |vs|
    ensures Bound(p, g, pc + 1, Set(env, p.stages[pc].outs, vs))
  {
    var outs := p.stages[pc].outs;
    forall t | Available(p, g, pc + 1, t) ensures t in Set(env, outs, vs) {
      if t in outs {
        SetHas(env, env, outs, vs, t);
      } else {
        assert Available(p, g, pc, t);
        SetKeeps(env, outs, vs, t);
      }
    }
  }

  /** The values stage pc gives its outputs. */
  ghost function EvalStage(p: Plan, fuel: nat, g: nat, pc: nat, env: Env): (r: Option<seq<Value>>)
    requires Valid(p) && g < |p.graphs| && p.graphs[g].first <= pc < p.graphs[g].End() <= |p.stages|
    requires Bound(p, g, pc, env)
    ensures r.Some? ==> |r.value| == |p.stages[pc].outs|
    decreases fuel, 3
  {
    assert GraphOk(p, g) && StageOk(p, g, pc);
    var st := p.stages[pc];
    assert forall t :: t in st.Reads() ==> t in env;
    assert forall t :: t in st.ins ==> t in st.Reads();
    match st
    case Compute(ins, outs, f) => Some(Results(f, Fetch(env, ins), |outs|))
    case If(cond, ins, outs, a, b) =>
      assert cond in st.Reads();
      EvalGraph(p, fuel, if p.truth(env[cond]) then a else b, Fetch(env, ins))
    case While(ins, outs, initial, c, b) => EvalWhile(p, fuel, g, c, b, Initial(initial, Fetch(env, ins)))
  }

  /** Runs the condition on the loop variables, then, while it holds, the body, which gives all of them at once. */
  ghost function EvalWhile(p: Plan, fuel: nat, g: nat, c: nat, b: nat, vars: seq<Value>): (r: Option<seq<Value>>)
    requires Valid(p) && BranchOk(p, g, c, |vars|, 1) && BranchOk(p, g, b, |vars|, |vars|)
    ensures r.Some? ==> |r.value| == |vars|
    decreases fuel, 2
  {
    match EvalGraph(p, fuel, c, vars)
    case None => None
    case Some(verdict) =>
      if !p.truth(verdict[0]) then Some(vars)
      else
        match EvalGraph(p, fuel, b, vars)
        case None => None
        case Some(next) => if fuel == 0 then None else EvalWhile(p, fuel - 1, g, c, b, next)
  }

  // What the interpreter's results are.

  /** Graph g ends with `outs` on `args`, given fuel enough. */
  ghost predicate Gives(p: Plan, g: nat, args: seq<Value>, outs: seq<Value>)
    requires Valid(p) && g < |p.graphs| && |args| == |p.graphs[g].ins|
  {
    exists fuel: nat :: EvalGraph(p, fuel, g, args) == Some(outs)
  }

  /** Graph c, a condition, ends on `args` with one output, which says `yes` or not. */
  ghost predicate Says(p: Plan, c: nat, args: seq<Value>, yes: bool)
    requires Valid(p) && c < |p.graphs| && |args| == |p.graphs[c].ins|
  {
    exists v: Value :: Gives(p, c, args, [v]) && p.truth(v) == yes
  }

  /** The loop variables of a While turn by turn: the condition holds of all but the last, and each is the body's outputs on the one before. */
  ghost predicate Turns(p: Plan, g: nat, c: nat, b: nat, n: nat, trace: seq<seq<Value>>)
    requires Valid(p) && BranchOk(p, g, c, n, 1) && BranchOk(p, g, b, n, n)
  {
    && |trace| >= 1 && (forall i :: 0 <= i < |trace| ==> |trace[i]| == n)
    && (forall i :: 0 <= i < |trace| ==> Says(p, c, trace[i], i < |trace| - 1))
    && (forall i :: 0 < i < |trace| ==> Gives(p, b, trace[i - 1], trace[i]))
  }

  /** A While that ends went through its turns, and ends with the loop variables its condition failed on. */
  lemma {:induction false} WhileTurns(p: Plan, fuel: nat, g: nat, c: nat, b: nat, vars: seq<Value>) returns (trace: seq<seq<Value>>)
    requires Valid(p) && BranchOk(p, g, c, |vars|, 1) && BranchOk(p, g, b, |vars|, |vars|)
    requires EvalWhile(p, fuel, g, c, b, vars).Some?
    ensures Turns(p, g, c, b, |vars|, trace) && trace[0] == vars
    ensures EvalWhile(p, fuel, g, c, b, vars) == Some(trace[|trace| - 1])
    decreases fuel
  {
    var verdict := EvalGraph(p, fuel, c, vars).value;
    assert verdict == [verdict[0]];
    assert Gives(p, c, vars, [verdict[0]]);
    assert Says(p, c, vars, p.truth(verdict[0]));
    trace := [vars];
    if p.truth(verdict[0]) {
      var next := EvalGraph(p, fuel, b, vars).value;
      assert Gives(p, b, vars, next);
      var rest := WhileTurns(p, fuel - 1, g, c, b, next);
      trace := [vars] + rest;
      TurnAhead(p, g, c, b, vars, rest);
    }
  }

  lemma TurnAhead(p: Plan, g: nat, c: nat, b: nat, vars: seq<Value>, rest: seq<seq<Value>>)
    requires Valid(p) && BranchOk(p, g, c, |vars|, 1) && BranchOk(p, g, b, |vars|, |vars|)
    requires Turns(p, g, c, b, |vars|, rest)
    requires Says(p, c, vars, true) && Gives(p, b, vars, rest[0])
    ensures Turns(p, g, c, b, |vars|, [vars] + rest)
  {
    hide Gives, Says, Valid;
    var trace := [vars] + rest;
    forall i | 0 < i < |trace| ensures Says(p, c, trace[i], i < |trace| - 1) {
      assert Says(p, c, rest[i - 1], i - 1 < |rest| - 1);
    }
    forall i | 0 < i < |trace| ensures Gives(p, b, trace[i - 1], trace[i]) {
      if i > 1 { assert Gives(p, b, rest[i - 2], rest[i - 1]); }
    }
  }

  /**
   * What a stage that ends gives its outputs: a computing stage f of its
   * operands, an If its then graph's outputs when the condition holds and its
   * else graph's otherwise, a While the last of its turns from its initial values.
   */
  ghost predicate StageGives(p: Plan, g: nat, pc: nat, env: Env, r: seq<Value>)
    requires Valid(p) && g < |p.graphs| && p.graphs[g].first <= pc < p.graphs[g].End() <= |p.stages|
    requires Bound(p, g, pc, env)
  {
    assert GraphOk(p, g) && StageOk(p, g, pc);
    var st := p.stages[pc];
    assert forall t :: t in st.Reads() ==> t in env;
    assert forall t :: t in st.ins ==> t in st.Reads();
    match st
    case Compute(ins, outs, f) => |r| == |outs| && forall k :: 0 <= k < |outs| ==> r[k] == f(k, Fetch(env, ins))
    case If(cond, ins, outs, a, b) =>
      assert cond in st.Reads();
      && (p.truth(env[cond]) ==> Gives(p, a, Fetch(env, ins), r))
      && (!p.truth(env[cond]) ==> Gives(p, b, Fetch(env, ins), r))
    case While(ins, outs, initial, c, b) =>
      exists trace: seq<seq<Value>> :: Turns(p, g, c, b, |outs|, trace)
        && trace[0] == Initial(initial, Fetch(env, ins)) && trace[|trace| - 1] == r
  }

  lemma StageMeans(p: Plan, fuel: nat, g: nat, pc: nat, env: Env)
    requires Valid(p) && g < |p.graphs| && p.graphs[g].first <= pc < p.graphs[g].End() <= |p.stages|
    requires Bound(p, g, pc, env) && EvalStage(p, fuel, g, pc, env).Some?
    ensures StageGives(p, g, pc, env, EvalStage(p, fuel, g, pc, env).value)
  {
    hide EvalGraph, EvalWhile, Turns;
    assert GraphOk(p, g) && StageOk(p, g, pc);
    match p.stages[pc]
    case Compute(_, _, _) =>
    case If(_, _, _, _, _) =>
    case While(ins, outs, initial, c, b) =>
      assert forall t :: t in ins ==> t in p.stages[pc].Reads();
      var trace := WhileTurns(p, fuel, g, c, b, Initial(initial, Fetch(env, ins)));
  }
}
