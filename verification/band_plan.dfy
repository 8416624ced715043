/**
 * The operators of a banded stage or chain and their whole-tensor meaning.
 *
 * Operators are listed in schedule order, so a stage is a range of the list.
 * Whole runs them one after another on whole tensors: this is what every
 * banded executor has to reproduce.
 */
module BandPlan {
  import opened Rows

  type Tensor = nat

  /** Every tensor's rows. */
  type Env = seq<seq<Row>>

  datatype Kernel =
    /** Row r of output k from row r of every operand. `binary` marks the two-operand elementwise types. */
    | Pointwise(binary: bool, concat: bool, rowOf: (nat, seq<Row>) -> Row)
    /** Row r of output k from the window of the first operand. */
    | Spatial(w: Window, windowed: (nat, seq<Option<Row>>) -> Row)

  datatype Op = Op(kernel: Kernel, ins: seq<Tensor>, outs: seq<Tensor>)

  /** `heights` are whole row counts, `batches` the leading axis. */
  datatype Plan = Plan(heights: seq<nat>, batches: seq<nat>, ops: seq<Op>)

  /** Row r of an operand; an operand one row high is that row for every r. */
  function RowFor(x: seq<Row>, r: int): Row
    requires |x| > 0
  {
    if 0 <= r < |x| then x[r] else x[0]
  }

  predicate Env?(p: Plan, env: Env) {
    |env| == |p.heights| && forall t :: 0 <= t < |env| ==> |env[t]| == p.heights[t]
  }

  /** Tensor numbers are in range and every height is positive. */
  predicate InRange(p: Plan) {
    && |p.batches| == |p.heights|
    && (forall t :: 0 <= t < |p.heights| ==> p.heights[t] >= 1)
    && (forall j :: 0 <= j < |p.ops| ==> OpInRange(p, p.ops[j]))
  }

  predicate OpInRange(p: Plan, op: Op) {
    && |op.ins| >= 1 && |op.outs| >= 1
    && (forall i :: 0 <= i < |op.ins| ==> op.ins[i] < |p.heights|)
    && (forall k :: 0 <= k < |op.outs| ==> op.outs[k] < |p.heights|)
  }

  function OperandRows(op: Op, env: Env, r: int): (s: seq<Row>)
    requires forall i :: 0 <= i < |op.ins| ==> op.ins[i] < |env| && |env[op.ins[i]]| > 0
    ensures |s| == |op.ins|
  {
    seq(|op.ins|, i requires 0 <= i < |op.ins| => RowFor(env[op.ins[i]], r))
  }

  /** Row r of output k of op, from the whole operands. */
  function WholeRow(p: Plan, op: Op, env: Env, k: nat, r: int): Row
    requires InRange(p) && OpInRange(p, op) && Env?(p, env)
  {
    match op.kernel
    case Pointwise(_, _, rowOf) => rowOf(k, OperandRows(op, env, r))
    case Spatial(w, windowed) => windowed(k, WindowOf(env[op.ins[0]], w, r))
  }

  /** Output k of op, from the whole operands. */
  function WholeOutput(p: Plan, op: Op, env: Env, k: nat): (x: seq<Row>)
    requires InRange(p) && OpInRange(p, op) && Env?(p, env) && k < |op.outs|
    ensures |x| == p.heights[op.outs[k]]
    ensures forall r :: 0 <= r < |x| ==> x[r] == WholeRow(p, op, env, k, r)
  {
    seq(p.heights[op.outs[k]], r => WholeRow(p, op, env, k, r))
  }

  /** Writes outputs 0..k of op. */
  function WriteOutputs(p: Plan, op: Op, env: Env, from: Env, k: nat): (e: Env)
    requires InRange(p) && OpInRange(p, op) && Env?(p, env) && Env?(p, from) && k <= |op.outs|
    ensures Env?(p, e)
  {
    if k == 0 then env
    else
      var t := op.outs[k - 1];
      WriteOutputs(p, op, env, from, k - 1)[t := WholeOutput(p, op, from, k - 1)]
  }

  /** The environment after the first n operators ran on whole tensors. */
  function Whole(p: Plan, env: Env, n: nat): (e: Env)
    requires InRange(p) && Env?(p, env) && n <= |p.ops|
    ensures Env?(p, e)
  {
    if n == 0 then env
    else
      var before := Whole(p, env, n - 1);
      WriteOutputs(p, p.ops[n - 1], before, before, |p.ops[n - 1].outs|)
  }

  /** Each tensor is produced once and read only after it is produced. */
  predicate Ordered(p: Plan) {
    && (forall j, k, l :: 0 <= j < |p.ops| && 0 <= k < l < |p.ops[j].outs| ==> p.ops[j].outs[k] != p.ops[j].outs[l])
    && (forall i, j :: 0 <= i < j < |p.ops| ==> Apart(p.ops[i], p.ops[j]))
    && (forall j, t :: 0 <= j < |p.ops| && t in p.ops[j].outs ==> t !in p.ops[j].ins)
  }

  /** The later operator writes nothing the earlier one reads or writes. */
  predicate Apart(earlier: Op, later: Op) {
    forall t :: t in later.outs ==> t !in earlier.outs && t !in earlier.ins
  }

  lemma {:induction false} WriteOutputsKeeps(p: Plan, op: Op, env: Env, from: Env, k: nat, t: Tensor)
    requires InRange(p) && OpInRange(p, op) && Env?(p, env) && Env?(p, from) && k <= |op.outs| && t < |env|
    requires forall i :: 0 <= i < k ==> op.outs[i] != t
    ensures WriteOutputs(p, op, env, from, k)[t] == env[t]
  {
    if k > 0 { WriteOutputsKeeps(p, op, env, from, k - 1, t); }
  }

  lemma {:induction false} WriteOutputsSets(p: Plan, op: Op, env: Env, from: Env, k: nat, i: nat)
    requires InRange(p) && OpInRange(p, op) && Env?(p, env) && Env?(p, from) && i < k <= |op.outs|
    requires forall l :: i < l < k ==> op.outs[l] != op.outs[i]
    ensures WriteOutputs(p, op, env, from, k)[op.outs[i]] == WholeOutput(p, op, from, i)
  {
    if i < k - 1 { WriteOutputsSets(p, op, env, from, k - 1, i); }
  }

  /** Operators that do not write t leave it alone. */
  lemma {:induction false} WholeKeeps(p: Plan, env: Env, a: nat, b: nat, t: Tensor)
    requires InRange(p) && Env?(p, env) && a <= b <= |p.ops| && t < |env|
    requires forall j :: a <= j < b ==> t !in p.ops[j].outs
    ensures Whole(p, env, b)[t] == Whole(p, env, a)[t]
  {
    if a < b {
      WholeKeeps(p, env, a, b - 1, t);
      var before := Whole(p, env, b - 1);
      var op := p.ops[b - 1];
      WriteOutputsKeeps(p, op, before, before, |op.outs|, t);
    }
  }

  /** A row depends on the operands only. */
  lemma RowFromOperands(p: Plan, op: Op, e: Env, f: Env, k: nat, r: int)
    requires InRange(p) && OpInRange(p, op) && Env?(p, e) && Env?(p, f)
    requires forall i :: 0 <= i < |op.ins| ==> e[op.ins[i]] == f[op.ins[i]]
    ensures WholeRow(p, op, e, k, r) == WholeRow(p, op, f, k, r)
  {
    if op.kernel.Pointwise? {
      assert OperandRows(op, e, r) == OperandRows(op, f, r);
    }
  }

  /** An operand is final by the time its reader runs. */
  lemma OperandFinal(p: Plan, env: Env, j: nat, i: nat)
    requires InRange(p) && Ordered(p) && Env?(p, env) && j < |p.ops| && i < |p.ops[j].ins|
    ensures Whole(p, env, |p.ops|)[p.ops[j].ins[i]] == Whole(p, env, j)[p.ops[j].ins[i]]
  {
    var t := p.ops[j].ins[i];
    forall l | j <= l < |p.ops| ensures t !in p.ops[l].outs {
      if l > j { assert Apart(p.ops[j], p.ops[l]); }
    }
    WholeKeeps(p, env, j, |p.ops|, t);
  }

  /** An output is final as soon as its operator ran. */
  lemma OutputFinal(p: Plan, env: Env, j: nat, k: nat)
    requires InRange(p) && Ordered(p) && Env?(p, env) && j < |p.ops| && k < |p.ops[j].outs|
    ensures Whole(p, env, |p.ops|)[p.ops[j].outs[k]] == WholeOutput(p, p.ops[j], Whole(p, env, j), k)
  {
    var op := p.ops[j];
    var before := Whole(p, env, j);
    WriteOutputsSets(p, op, before, before, |op.outs|, k);
    forall i | j < i < |p.ops| ensures op.outs[k] !in p.ops[i].outs { assert Apart(op, p.ops[i]); }
    WholeKeeps(p, env, j + 1, |p.ops|, op.outs[k]);
  }

  /** Every row of output k of operator j is the kernel's row of the operands in the same environment. */
  ghost predicate SolvedOutput(p: Plan, e: Env, j: nat, k: nat)
    requires InRange(p) && Env?(p, e) && j < |p.ops| && k < |p.ops[j].outs|
  {
    forall r :: 0 <= r < p.heights[p.ops[j].outs[k]] ==> e[p.ops[j].outs[k]][r] == WholeRow(p, p.ops[j], e, k, r)
  }

  ghost predicate Solves(p: Plan, e: Env)
    requires InRange(p) && Env?(p, e)
  {
    forall j, k :: 0 <= j < |p.ops| && 0 <= k < |p.ops[j].outs| ==> SolvedOutput(p, e, j, k)
  }

  /**
   * Running the schedule once solves every operator's equation: in the final
   * environment each produced row is the kernel's row of the final operands.
   */
  lemma WholeSolves(p: Plan, env: Env)
    requires InRange(p) && Ordered(p) && Env?(p, env)
    ensures Solves(p, Whole(p, env, |p.ops|))
  {
    var e := Whole(p, env, |p.ops|);
    forall j, k | 0 <= j < |p.ops| && 0 <= k < |p.ops[j].outs|
      ensures SolvedOutput(p, e, j, k)
    {
      OutputFinal(p, env, j, k);
      forall i | 0 <= i < |p.ops[j].ins|
        ensures e[p.ops[j].ins[i]] == Whole(p, env, j)[p.ops[j].ins[i]]
      {
        OperandFinal(p, env, j, i);
      }
      forall r | 0 <= r < p.heights[p.ops[j].outs[k]]
        ensures e[p.ops[j].outs[k]][r] == WholeRow(p, p.ops[j], e, k, r)
      {
        RowFromOperands(p, p.ops[j], e, Whole(p, env, j), k, r);
      }
    }
  }

  /** Tensors no operator writes keep their value. */
  lemma InputsKept(p: Plan, env: Env, t: Tensor)
    requires InRange(p) && Env?(p, env) && t < |env|
    requires forall j :: 0 <= j < |p.ops| ==> t !in p.ops[j].outs
    ensures Whole(p, env, |p.ops|)[t] == env[t]
  {
    WholeKeeps(p, env, 0, |p.ops|, t);
  }

  /** The outputs of an operator are distinct, and none is an operand of it. */
  lemma OutputsDistinct(p: Plan, j: nat, k: nat)
    requires Ordered(p) && j < |p.ops| && k < |p.ops[j].outs|
    ensures forall l :: 0 <= l < |p.ops[j].outs| && l != k ==> p.ops[j].outs[l] != p.ops[j].outs[k]
    ensures forall i :: 0 <= i < |p.ops[j].ins| ==> p.ops[j].ins[i] != p.ops[j].outs[k]
  {
    assert p.ops[j].outs[k] in p.ops[j].outs;
  }
}
