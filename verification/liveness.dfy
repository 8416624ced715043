/**
 * When a stage may drop a tensor's buffer: after the last operator that reads
 * any tensor sharing it. An in-place reshape gives its output its input's
 * buffer, so tensors joined by such reshapes form one group.
 */
module Liveness {
  import opened Rows

  type Value(0)

  type Tensor = nat

  datatype Op =
    | Compute(ins: seq<Tensor>, outs: seq<Tensor>, f: (nat, seq<Value>) -> Value)
    /** Moves no byte: `to` is `from` under another shape. */
    | Reshape(from: Tensor, to: Tensor)
  {
    function Ins(): seq<Tensor> { if Reshape? then [from] else ins }

    function Outs(): seq<Tensor> { if Reshape? then [to] else outs }
  }

  datatype Stage = Stage(ops: seq<Op>, ins: seq<Tensor>, outs: seq<Tensor>, tensors: nat)

  /** The value of `last_use_op` for no operator at all: never freed. */
  const NEVER := 65535

  predicate InRange(s: Stage) {
    && |s.ops| < NEVER
    && (forall i :: 0 <= i < |s.ins| ==> s.ins[i] < s.tensors) && (forall i :: 0 <= i < |s.outs| ==> s.outs[i] < s.tensors)
    && forall j :: 0 <= j < |s.ops| ==> OpInRange(s, s.ops[j])
  }

  predicate OpInRange(s: Stage, op: Op) {
    && (forall i :: 0 <= i < |op.Ins()| ==> op.Ins()[i] < s.tensors)
    && (forall i :: 0 <= i < |op.Outs()| ==> op.Outs()[i] < s.tensors)
  }

  /** t is a stage input or an output of an operator before j. */
  ghost predicate Available(s: Stage, j: nat, t: Tensor) {
    t in s.ins || exists i :: 0 <= i < j && i < |s.ops| && t in s.ops[i].Outs()
  }

  /** Each tensor is produced once, and read only after. */
  ghost predicate Ordered(s: Stage) {
    forall j :: 0 <= j < |s.ops| ==> OpOrdered(s, j)
  }

  ghost predicate OpOrdered(s: Stage, j: nat)
    requires j < |s.ops|
  {
    && (forall t :: t in s.ops[j].Ins() ==> Available(s, j, t))
    && (forall t :: t in s.ops[j].Outs() ==> !Available(s, j, t))
    && (forall a, b :: 0 <= a < b < |s.ops[j].Outs()| ==> s.ops[j].Outs()[a] != s.ops[j].Outs()[b])
  }

  /** Follows t up the reshapes of operators lo up to n that gave it its buffer. */
  function Root(s: Stage, lo: nat, n: nat, t: Tensor): Tensor
    requires lo <= n <= |s.ops|
    decreases n
  {
    if n == lo then t
    else if s.ops[n - 1].Reshape? && s.ops[n - 1].to == t then Root(s, lo, n - 1, s.ops[n - 1].from)
    else Root(s, lo, n - 1, t)
  }

  /** The tensor whose buffer t shares. */
  function Source(s: Stage, t: Tensor): Tensor { Root(s, 0, |s.ops|, t) }

  /** The last operator below n that reads t, or -1. */
  function LastReader(s: Stage, n: nat, t: Tensor): (j: int)
    requires n <= |s.ops|
    ensures -1 <= j < n
  {
    if n == 0 then -1 else if t in s.ops[n - 1].Ins() then n - 1 else LastReader(s, n - 1, t)
  }

  /** The first operator below n that writes t, or -1. */
  function Writer(s: Stage, n: nat, t: Tensor): (j: int)
    requires n <= |s.ops|
    ensures -1 <= j < n
  {
    if n == 0 then -1
    else if Writer(s, n - 1, t) >= 0 then Writer(s, n - 1, t)
    else if t in s.ops[n - 1].Outs() then n - 1 else -1
  }

  function Or(a: int, b: nat): nat { if a >= 0 then a else b }

  /** A tensor's own last use: never for a stage output, else its last reader, else its writer. */
  function OwnLast(s: Stage, t: Tensor): nat {
    if t in s.outs then NEVER else Or(LastReader(s, |s.ops|, t), Or(Writer(s, |s.ops|, t), NEVER))
  }

  /** v is the latest own last use of the tensors with the root r. */
  ghost predicate GroupLast(s: Stage, lo: nat, v: nat, r: Tensor)
    requires lo <= |s.ops|
  {
    && (forall t: Tensor :: t < s.tensors && Root(s, lo, |s.ops|, t) == r ==> OwnLast(s, t) <= v)
    && exists t: Tensor :: t < s.tensors && Root(s, lo, |s.ops|, t) == r && OwnLast(s, t) == v
  }

  // Facts about roots.

  function Up(s: Stage, j: nat, t: Tensor): Tensor
    requires j < |s.ops|
  {
    if s.ops[j].Reshape? && s.ops[j].to == t then s.ops[j].from else t
  }

  lemma {:induction false} RootStep(s: Stage, lo: nat, n: nat, t: Tensor)
    requires lo < n <= |s.ops|
    ensures Root(s, lo, n, t) == Up(s, lo, Root(s, lo + 1, n, t))
    decreases n
  {
    if lo + 1 < n {
      RootStep(s, lo, n - 1, if s.ops[n - 1].Reshape? && s.ops[n - 1].to == t then s.ops[n - 1].from else t);
    }
  }

  /** No reshape of operators lo up to n writes t. */
  ghost predicate NotReshaped(s: Stage, lo: nat, n: nat, t: Tensor)
    requires lo <= n <= |s.ops|
  {
    forall i :: lo <= i < n && s.ops[i].Reshape? ==> s.ops[i].to != t
  }

  lemma {:induction false} RootFixed(s: Stage, lo: nat, n: nat, t: Tensor)
    requires lo <= n <= |s.ops| && NotReshaped(s, lo, n, t)
    ensures Root(s, lo, n, t) == t
    decreases n
  {
    if lo < n { RootFixed(s, lo, n - 1, t); }
  }

  /** What is available at j no later operator writes. */
  lemma AvailableNotWritten(s: Stage, j: nat, i: nat, t: Tensor)
    requires Ordered(s) && Available(s, j, t) && j <= i < |s.ops|
    ensures t !in s.ops[i].Outs()
  {
    assert OpOrdered(s, i);
    assert Available(s, i, t) by {
      if t !in s.ins { var l :| 0 <= l < j && l < |s.ops| && t in s.ops[l].Outs(); }
    }
  }

  /** A root is written by no reshape, and one reached through a reshape was there before it. */
  lemma {:induction false} RootIsRoot(s: Stage, n: nat, t: Tensor)
    requires Ordered(s) && n <= |s.ops|
    ensures NotReshaped(s, 0, n, Root(s, 0, n, t))
    ensures Root(s, 0, n, t) == t || Available(s, n, Root(s, 0, n, t))
    decreases n
  {
    if n > 0 {
      var op := s.ops[n - 1];
      var up := if op.Reshape? && op.to == t then op.from else t;
      RootIsRoot(s, n - 1, up);
      assert OpOrdered(s, n - 1);
      var r := Root(s, 0, n, t);
      if op.Reshape? {
        assert op.from in op.Ins() && op.to in op.Outs();
        if r != t || up != t { assert Available(s, n - 1, r); }
      }
      if Available(s, n - 1, r) && r !in s.ins {
        var l :| 0 <= l < n - 1 && l < |s.ops| && r in s.ops[l].Outs();
      }
    }
  }

  /** A reshape's output has its input's root. */
  lemma ReshapeRoot(s: Stage, j: nat)
    requires Ordered(s) && j < |s.ops| && s.ops[j].Reshape?
    ensures s.ops[j].from != s.ops[j].to
    ensures Root(s, j + 1, |s.ops|, s.ops[j].to) == s.ops[j].to
    ensures Root(s, j + 1, |s.ops|, s.ops[j].from) == s.ops[j].from
    ensures NotReshaped(s, j, |s.ops|, s.ops[j].from)
    ensures Source(s, s.ops[j].to) == Source(s, s.ops[j].from)
  {
    var op := s.ops[j];
    assert OpOrdered(s, j) && op.from in op.Ins() && op.to in op.Outs();
    assert Available(s, j + 1, op.to);
    forall i | j < i < |s.ops| ensures op.to !in s.ops[i].Outs() { AvailableNotWritten(s, j + 1, i, op.to); }
    forall i | j <= i < |s.ops| ensures op.from !in s.ops[i].Outs() { AvailableNotWritten(s, j, i, op.from); }
    RootFixed(s, j + 1, |s.ops|, op.to);
    RootFixed(s, j + 1, |s.ops|, op.from);
    RootDown(s, j + 1, |s.ops|, op.to);
    RootDown(s, j, |s.ops|, op.from);
  }

  /** Operators that do not reshape to t can be left out of its root. */
  lemma {:induction false} RootDown(s: Stage, j: nat, n: nat, t: Tensor)
    requires j <= n <= |s.ops| && NotReshaped(s, j, n, t)
    ensures Root(s, 0, n, t) == Root(s, 0, j, t)
    decreases n
  {
    if j < n { RootDown(s, j, n - 1, t); }
  }

  // The passes.

  /** One pass each for readers, writers and stage outputs, then the group passes, backward and forward. */
  method LastUses(s: Stage) returns (lastUse: seq<nat>)
    requires InRange(s) && Ordered(s)
    ensures |lastUse| == s.tensors
    ensures forall t: Tensor :: t < s.tensors ==> GroupLast(s, 0, lastUse[t], Source(s, t))
  {
    lastUse := ReadPass(s);
    lastUse := WritePass(s, lastUse);
    lastUse := OutputPass(s, lastUse);
    var back := BackwardPass(s, lastUse);
    lastUse := ForwardPass(s, back);
    forall t: Tensor | t < s.tensors ensures GroupLast(s, 0, lastUse[t], Source(s, t)) {
      RootIsRoot(s, |s.ops|, t);
      RootFixed(s, 0, |s.ops|, Source(s, t));
      RootInRange(s, |s.ops|, t);
    }
  }

  lemma {:induction false} RootInRange(s: Stage, n: nat, t: Tensor)
    requires InRange(s) && n <= |s.ops| && t < s.tensors
    ensures Root(s, 0, n, t) < s.tensors
  {
    if n > 0 {
      var op := s.ops[n - 1];
      assert OpInRange(s, op);
      if op.Reshape? { assert op.Ins()[0] == op.from; }
      RootInRange(s, n - 1, if op.Reshape? && op.to == t then op.from else t);
    }
  }

  method ReadPass(s: Stage) returns (lastUse: seq<nat>)
    requires InRange(s)
    ensures |lastUse| == s.tensors && forall t :: 0 <= t < s.tensors ==> lastUse[t] == Or(LastReader(s, |s.ops|, t), NEVER)
  {
    lastUse := seq(s.tensors, _ => NEVER);
    for j := 0 to |s.ops|
      invariant |lastUse| == s.tensors && forall t :: 0 <= t < s.tensors ==> lastUse[t] == Or(LastReader(s, j, t), NEVER)
    {
      var ins := s.ops[j].Ins();
      assert OpInRange(s, s.ops[j]);
      for k := 0 to |ins|
        invariant |lastUse| == s.tensors
        invariant forall t :: 0 <= t < s.tensors ==> lastUse[t] == if t in ins[..k] then j else Or(LastReader(s, j, t), NEVER)
      {
        assert ins[..k + 1] == ins[..k] + [ins[k]];
        lastUse := lastUse[ins[k] := j];
      }
      assert ins[..|ins|] == ins;
    }
  }

  /** An output no operator reads dies where it is written. */
  method WritePass(s: Stage, readers: seq<nat>) returns (lastUse: seq<nat>)
    requires InRange(s) && |readers| == s.tensors
    requires forall t :: 0 <= t < s.tensors ==> readers[t] == Or(LastReader(s, |s.ops|, t), NEVER)
    ensures |lastUse| == s.tensors
    ensures forall t :: 0 <= t < s.tensors ==> lastUse[t] == Or(LastReader(s, |s.ops|, t), Or(Writer(s, |s.ops|, t), NEVER))
  {
    lastUse := readers;
    for j := 0 to |s.ops|
      invariant |lastUse| == s.tensors
      invariant forall t :: 0 <= t < s.tensors ==> lastUse[t] == Or(LastReader(s, |s.ops|, t), Or(Writer(s, j, t), NEVER))
    {
      var outs := s.ops[j].Outs();
      assert OpInRange(s, s.ops[j]);
      for k := 0 to |outs|
        invariant |lastUse| == s.tensors
        invariant forall t :: 0 <= t < s.tensors ==> lastUse[t] == Or(LastReader(s, |s.ops|, t),
          Or(if Writer(s, j, t) < 0 && t in outs[..k] then j else Writer(s, j, t), NEVER))
      {
        assert outs[..k + 1] == outs[..k] + [outs[k]];
        if lastUse[outs[k]] == NEVER { lastUse := lastUse[outs[k] := j]; }
      }
      assert outs[..|outs|] == outs;
    }
  }

  method OutputPass(s: Stage, uses: seq<nat>) returns (lastUse: seq<nat>)
    requires InRange(s) && |uses| == s.tensors
    requires forall t :: 0 <= t < s.tensors ==> uses[t] == Or(LastReader(s, |s.ops|, t), Or(Writer(s, |s.ops|, t), NEVER))
    ensures |lastUse| == s.tensors && forall t :: 0 <= t < s.tensors ==> lastUse[t] == OwnLast(s, t)
  {
    lastUse := uses;
    for i := 0 to |s.outs|
      invariant |lastUse| == s.tensors
      invariant forall t :: 0 <= t < s.tensors ==> lastUse[t] == if t in s.outs[..i] then NEVER else uses[t]
    {
      assert s.outs[..i + 1] == s.outs[..i] + [s.outs[i]];
      lastUse := lastUse[s.outs[i] := NEVER];
    }
    assert s.outs[..|s.outs|] == s.outs;
  }

  /** Every root of the reshapes from j on has its group's latest last use. */
  ghost predicate RootsKnow(s: Stage, lastUse: seq<nat>, j: nat)
    requires j <= |s.ops|
  {
    && |lastUse| == s.tensors
    && forall r :: 0 <= r < s.tensors && Root(s, j, |s.ops|, r) == r ==> GroupLast(s, j, lastUse[r], r)
  }

  method BackwardPass(s: Stage, uses: seq<nat>) returns (lastUse: seq<nat>)
    requires InRange(s) && Ordered(s) && |uses| == s.tensors && forall t :: 0 <= t < s.tensors ==> uses[t] == OwnLast(s, t)
    ensures RootsKnow(s, lastUse, 0)
  {
    lastUse := uses;
    var j := |s.ops|;
    while j > 0
      invariant 0 <= j <= |s.ops| && RootsKnow(s, lastUse, j)
    {
      j := j - 1;
      if s.ops[j].Reshape? {
        ReshapeInRange(s, j);
        var produced, source := s.ops[j].to, s.ops[j].from;
        var group;
        if lastUse[produced] == NEVER || lastUse[source] == NEVER {
          group := NEVER;
        } else {
          group := if lastUse[produced] > lastUse[source] then lastUse[produced] else lastUse[source];
        }
        LastUseBound(s, lastUse, j);
        JoinGroups(s, lastUse, j, group);
        lastUse := lastUse[produced := group][source := group];
      } else {
        SameGroups(s, lastUse, j);
      }
    }
  }

  lemma ReshapeInRange(s: Stage, j: nat)
    requires InRange(s) && j < |s.ops| && s.ops[j].Reshape?
    ensures s.ops[j].to < s.tensors && s.ops[j].from < s.tensors
  {
    assert OpInRange(s, s.ops[j]);
    assert s.ops[j].Ins()[0] == s.ops[j].from && s.ops[j].Outs()[0] == s.ops[j].to;
  }

  lemma LastUseBound(s: Stage, lastUse: seq<nat>, j: nat)
    requires InRange(s) && Ordered(s) && j < |s.ops| && s.ops[j].Reshape? && RootsKnow(s, lastUse, j + 1)
    ensures s.ops[j].to < s.tensors && s.ops[j].from < s.tensors
    ensures lastUse[s.ops[j].to] <= NEVER && lastUse[s.ops[j].from] <= NEVER
  {
    ReshapeInRange(s, j);
    ReshapeRoot(s, j);
    assert GroupLast(s, j + 1, lastUse[s.ops[j].to], s.ops[j].to);
    assert GroupLast(s, j + 1, lastUse[s.ops[j].from], s.ops[j].from);
  }

  lemma SameGroups(s: Stage, lastUse: seq<nat>, j: nat)
    requires j < |s.ops| && !s.ops[j].Reshape? && RootsKnow(s, lastUse, j + 1)
    ensures RootsKnow(s, lastUse, j)
  {
    forall t: Tensor ensures Root(s, j, |s.ops|, t) == Root(s, j + 1, |s.ops|, t) { RootStep(s, j, |s.ops|, t); }
    forall r | 0 <= r < s.tensors && Root(s, j, |s.ops|, r) == r ensures GroupLast(s, j, lastUse[r], r) {
      assert GroupLast(s, j + 1, lastUse[r], r);
    }
  }

  /** A reshape joins its output's group to its input's. */
  lemma JoinGroups(s: Stage, lastUse: seq<nat>, j: nat, group: nat)
    requires InRange(s) && Ordered(s) && j < |s.ops| && s.ops[j].Reshape? && RootsKnow(s, lastUse, j + 1)
    requires s.ops[j].to < s.tensors && s.ops[j].from < s.tensors
    requires group == Max(lastUse[s.ops[j].to], lastUse[s.ops[j].from])
    ensures RootsKnow(s, lastUse[s.ops[j].to := group][s.ops[j].from := group], j)
  {
    var n := |s.ops|;
    var produced, source := s.ops[j].to, s.ops[j].from;
    var after := lastUse[produced := group][source := group];
    ReshapeRoot(s, j);
    assert GroupLast(s, j + 1, lastUse[produced], produced) && GroupLast(s, j + 1, lastUse[source], source);
    forall r | 0 <= r < s.tensors && Root(s, j, n, r) == r
      ensures GroupLast(s, j, after[r], r)
    {
      RootStep(s, j, n, r);
      assert r != produced;
      forall t: Tensor
        ensures Root(s, j, n, t) == r <==> Root(s, j + 1, n, t) == r || (r == source && Root(s, j + 1, n, t) == produced)
      {
        RootStep(s, j, n, t);
      }
      if r == source {
        var a: Tensor :| a < s.tensors && Root(s, j + 1, n, a) == produced && OwnLast(s, a) == lastUse[produced];
        var b: Tensor :| b < s.tensors && Root(s, j + 1, n, b) == source && OwnLast(s, b) == lastUse[source];
        assert Root(s, j, n, if lastUse[produced] > lastUse[source] then a else b) == source;
      } else {
        assert Root(s, j + 1, n, r) == r;
        assert GroupLast(s, j + 1, lastUse[r], r);
        var a: Tensor :| a < s.tensors && Root(s, j + 1, n, a) == r && OwnLast(s, a) == lastUse[r];
        assert Root(s, j, n, a) == r;
      }
    }
  }

  /** Every reshape's output takes what its input ended with. */
  method ForwardPass(s: Stage, back: seq<nat>) returns (lastUse: seq<nat>)
    requires InRange(s) && Ordered(s) && |back| == s.tensors
    ensures |lastUse| == s.tensors
    ensures forall t: Tensor :: t < s.tensors ==> Source(s, t) < s.tensors && lastUse[t] == back[Source(s, t)]
  {
    lastUse := back;
    ghost var n := |s.ops|;
    forall t: Tensor | t < s.tensors ensures Source(s, t) < s.tensors { RootInRange(s, n, t); }
    forall t: Tensor | t < s.tensors && NotReshaped(s, 0, n, t) ensures Source(s, t) == t { RootFixed(s, 0, n, t); }
    for j := 0 to |s.ops|
      invariant |lastUse| == s.tensors
      invariant forall t: Tensor :: t < s.tensors && NotReshaped(s, j, n, t) ==> lastUse[t] == back[Source(s, t)]
    {
      if s.ops[j].Reshape? {
        ReshapeInRange(s, j);
        ReshapeRoot(s, j);
        lastUse := lastUse[s.ops[j].to := lastUse[s.ops[j].from]];
      }
    }
  }
}
