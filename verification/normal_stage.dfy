/**
 * A stage run whole in fast memory: buffers are dropped as soon as the last
 * operator that needs them ran, and an allocation may take any buffer nothing
 * holds, a dropped one too.
 */
module NormalStage {
  import opened Rows
  import opened Liveness

  /** The tensors' values: what the operators give on them, one after another. */
  ghost predicate Solved(s: Stage, v: seq<Value>) {
    && |v| == s.tensors && InRange(s)
    && forall j :: 0 <= j < |s.ops| ==> OpSolved(s, v, j)
  }

  ghost predicate OpSolved(s: Stage, v: seq<Value>, j: nat)
    requires |v| == s.tensors && InRange(s) && j < |s.ops|
  {
    assert OpInRange(s, s.ops[j]);
    match s.ops[j]
    case Reshape(from, to) => assert s.ops[j].Ins()[0] == from && s.ops[j].Outs()[0] == to; v[to] == v[from]
    case Compute(ins, outs, f) =>
      assert s.ops[j].Ins() == ins && s.ops[j].Outs() == outs;
      forall k: nat :: k < |outs| ==> v[outs[k]] == f(k, Gather(v, ins))
  }

  /** What v has for each of ts. */
  function Gather<T>(v: seq<T>, ts: seq<Tensor>): (x: seq<T>)
    requires forall i :: 0 <= i < |ts| ==> ts[i] < |v|
    ensures |x| == |ts|
  {
    seq(|ts|, i requires 0 <= i < |ts| => v[ts[i]])
  }

  /** Two tensors with one buffer are one reshape group, and a whole group has one buffer or none. */
  ghost predicate Grouped(s: Stage, ptrs: seq<nat>, j: nat) {
    && |ptrs| == s.tensors
    && (forall a: Tensor, b: Tensor :: a < s.tensors && b < s.tensors && ptrs[a] == ptrs[b] != 0 ==> Source(s, a) == Source(s, b))
    && (forall a: Tensor, b: Tensor ::
          a < s.tensors && b < s.tensors && Available(s, j, a) && Available(s, j, b) && Source(s, a) == Source(s, b) ==>
            ptrs[a] == ptrs[b])
  }

  /** What is held when operator j runs: exactly the available tensors of groups not past their last use, with their values. */
  ghost predicate HeldAt(s: Stage, v: seq<Value>, lastUse: seq<nat>, ptrs: seq<nat>, store: map<nat, Value>, j: nat) {
    && |ptrs| == |lastUse| == |v| == s.tensors
    && Grouped(s, ptrs, j)
    && (forall t: Tensor :: t < s.tensors ==> (ptrs[t] != 0 <==> Available(s, j, t) && lastUse[t] >= j))
    && (forall t: Tensor :: t < s.tensors && ptrs[t] != 0 ==> ptrs[t] in store && store[ptrs[t]] == v[t])
  }

  /** Last uses are those of the whole group. */
  ghost predicate LastUsesOk(s: Stage, lastUse: seq<nat>) {
    |lastUse| == s.tensors && forall t: Tensor :: t < s.tensors ==> GroupLast(s, 0, lastUse[t], Source(s, t))
  }

  /** One group, one last use. */
  lemma GroupsAgree(s: Stage, lastUse: seq<nat>, a: Tensor, b: Tensor)
    requires LastUsesOk(s, lastUse) && a < s.tensors && b < s.tensors && Source(s, a) == Source(s, b)
    ensures lastUse[a] == lastUse[b]
  {
    assert GroupLast(s, 0, lastUse[a], Source(s, a)) && GroupLast(s, 0, lastUse[b], Source(s, a));
  }

  /** Operator j reads t, or writes it. */
  predicate UsedAt(s: Stage, j: nat, t: Tensor) {
    j < |s.ops| && (t in s.ops[j].Ins() || t in s.ops[j].Outs())
  }

  /** No tensor is past its last use when an operator reads or writes it; a stage output never is. */
  lemma UsedInTime(s: Stage, lastUse: seq<nat>, j: nat, t: Tensor)
    requires InRange(s) && Ordered(s) && LastUsesOk(s, lastUse) && t < s.tensors
    ensures UsedAt(s, j, t) ==> lastUse[t] >= j
    ensures t in s.outs ==> lastUse[t] >= NEVER
  {
    assert GroupLast(s, 0, lastUse[t], Source(s, t));
    if UsedAt(s, j, t) { OwnLastReaches(s, j, t); }
  }

  lemma OwnLastReaches(s: Stage, j: nat, t: Tensor)
    requires InRange(s) && Ordered(s) && UsedAt(s, j, t)
    ensures OwnLast(s, t) >= j
  {
    var n := |s.ops|;
    if t in s.ops[j].Ins() {
      ReaderReaches(s, n, j, t);
    } else {
      FirstWriter(s, n, j, t);
      LastReaderReads(s, n, t);
      var r := LastReader(s, n, t);
      if r >= 0 {
        assert OpOrdered(s, r) && Available(s, r, t);
        assert OpOrdered(s, j);
        if r <= j { AvailableNotWritten(s, r, j, t); }
      }
    }
  }

  /**
   * A tensor's own last use is the last operator that reads or writes it; a
   * stage output, and a tensor no operator uses, have none.
   */
  lemma OwnLastExact(s: Stage, t: Tensor)
    requires InRange(s) && Ordered(s)
    ensures t in s.outs || (forall j: nat :: !UsedAt(s, j, t)) ==> OwnLast(s, t) == NEVER
    ensures t !in s.outs && (exists j: nat :: UsedAt(s, j, t)) ==>
      UsedAt(s, OwnLast(s, t), t) && forall j: nat :: UsedAt(s, j, t) ==> j <= OwnLast(s, t)
  {
    var n := |s.ops|;
    var r, w := LastReader(s, n, t), Writer(s, n, t);
    LastReaderReads(s, n, t);
    assert r >= 0 ==> UsedAt(s, r, t);
    assert w >= 0 ==> UsedAt(s, w, t);
    forall j: nat | UsedAt(s, j, t) ensures j <= OwnLast(s, t) && (r >= 0 || w >= 0) {
      OwnLastReaches(s, j, t);
      if t in s.ops[j].Ins() { ReaderReaches(s, n, j, t); } else { FirstWriter(s, n, j, t); }
    }
  }

  /** t shares a buffer group with x. */
  predicate Mates(s: Stage, t: Tensor, x: Tensor) {
    x < s.tensors && Source(s, x) == Source(s, t)
  }

  /** A stage output, or used by no operator. */
  ghost predicate Unending(s: Stage, x: Tensor) {
    x in s.outs || forall j: nat :: !UsedAt(s, j, x)
  }

  /**
   * The last use worked out for a tensor is the last operator that reads or
   * writes any tensor of its group, and there is none exactly when one of
   * them is a stage output or used by no operator.
   */
  lemma LastUseExact(s: Stage, lastUse: seq<nat>, t: Tensor)
    requires InRange(s) && Ordered(s) && LastUsesOk(s, lastUse) && t < s.tensors
    ensures lastUse[t] == NEVER <==> exists x: Tensor :: Mates(s, t, x) && Unending(s, x)
    ensures lastUse[t] != NEVER ==>
      && (exists x: Tensor :: Mates(s, t, x) && UsedAt(s, lastUse[t], x))
      && (forall x: Tensor, j: nat :: Mates(s, t, x) && UsedAt(s, j, x) ==> j <= lastUse[t])
  {
    hide InRange, Ordered, OwnLast, UsedAt, LastUsesOk, Mates, Unending;
    var last := LatestMate(s, lastUse, t);
    OwnUses(s, last);
    forall x: Tensor | Mates(s, t, x) && Unending(s, x) ensures lastUse[t] == NEVER {
      MateBounds(s, lastUse, t, x);
      OwnUses(s, x);
    }
    forall x: Tensor, j: nat | Mates(s, t, x) && UsedAt(s, j, x) ensures j <= lastUse[t] {
      MateBounds(s, lastUse, t, x);
      OwnLastReaches(s, j, x);
    }
  }

  lemma OwnUses(s: Stage, x: Tensor)
    requires InRange(s) && Ordered(s)
    ensures OwnLast(s, x) == NEVER <==> Unending(s, x)
    ensures OwnLast(s, x) != NEVER ==> UsedAt(s, OwnLast(s, x), x)
  {
    OwnLastExact(s, x);
  }

  lemma LatestMate(s: Stage, lastUse: seq<nat>, t: Tensor) returns (x: Tensor)
    requires LastUsesOk(s, lastUse) && t < s.tensors
    ensures |lastUse| == s.tensors && Mates(s, t, x) && OwnLast(s, x) == lastUse[t]
  {
    assert GroupLast(s, 0, lastUse[t], Source(s, t));
    x :| x < s.tensors && Source(s, x) == Source(s, t) && OwnLast(s, x) == lastUse[t];
  }

  lemma MateBounds(s: Stage, lastUse: seq<nat>, t: Tensor, x: Tensor)
    requires InRange(s) && LastUsesOk(s, lastUse) && t < s.tensors && Mates(s, t, x)
    ensures |lastUse| == s.tensors && OwnLast(s, x) <= lastUse[t] <= NEVER
  {
    assert GroupLast(s, 0, lastUse[t], Source(s, t));
  }

  lemma {:induction false} ReaderReaches(s: Stage, n: nat, j: nat, t: Tensor)
    requires j < n <= |s.ops| && t in s.ops[j].Ins()
    ensures LastReader(s, n, t) >= j
  {
    if n > j + 1 { ReaderReaches(s, n - 1, j, t); }
  }

  lemma {:induction false} LastReaderReads(s: Stage, n: nat, t: Tensor)
    requires n <= |s.ops|
    ensures LastReader(s, n, t) >= 0 ==> t in s.ops[LastReader(s, n, t)].Ins()
    ensures Writer(s, n, t) >= 0 ==> t in s.ops[Writer(s, n, t)].Outs()
  {
    if n > 0 { LastReaderReads(s, n - 1, t); }
  }

  lemma {:induction false} FirstWriter(s: Stage, n: nat, j: nat, t: Tensor)
    requires Ordered(s) && j < n <= |s.ops| && t in s.ops[j].Outs()
    ensures Writer(s, n, t) == j
  {
    if n > j + 1 {
      FirstWriter(s, n - 1, j, t);
    } else {
      LastReaderReads(s, j, t);
      assert OpOrdered(s, j);
    }
  }

  /** A group whose last use is operator j has a member operator j reads or writes. */
  lemma UserOf(s: Stage, lastUse: seq<nat>, j: nat, t: Tensor) returns (x: Tensor)
    requires InRange(s) && LastUsesOk(s, lastUse) && t < s.tensors && lastUse[t] == j < |s.ops|
    ensures x < s.tensors && Source(s, x) == Source(s, t) && UsedAt(s, j, x)
  {
    assert GroupLast(s, 0, lastUse[t], Source(s, t));
    x :| x < s.tensors && Source(s, x) == Source(s, t) && OwnLast(s, x) == j;
    LastReaderReads(s, |s.ops|, x);
  }

  /** An operator's operands and outputs are available once it ran. */
  lemma UsedAvailable(s: Stage, j: nat, x: Tensor)
    requires Ordered(s) && UsedAt(s, j, x)
    ensures Available(s, j + 1, x)
  {
    assert OpOrdered(s, j);
    if x in s.ops[j].Ins() && x !in s.ins {
      var i :| 0 <= i < j && i < |s.ops| && x in s.ops[i].Outs();
    }
  }

  /** With operator j's outputs placed and computed, and nothing dropped yet. */
  ghost predicate Computed(s: Stage, v: seq<Value>, lastUse: seq<nat>, ptrs: seq<nat>, store: map<nat, Value>, j: nat) {
    && |ptrs| == |lastUse| == |v| == s.tensors
    && Grouped(s, ptrs, j + 1)
    && (forall t: Tensor :: t < s.tensors ==> (ptrs[t] != 0 <==> Available(s, j + 1, t) && lastUse[t] >= j))
    && (forall t: Tensor :: t < s.tensors && ptrs[t] != 0 ==> ptrs[t] in store && store[ptrs[t]] == v[t])
  }

  /** Dropping the groups last used at j, all of them and nothing else, leaves what operator j + 1 finds. */
  lemma DropsExact(s: Stage, v: seq<Value>, lastUse: seq<nat>, mid: seq<nat>, ptrs: seq<nat>, store: map<nat, Value>, j: nat)
    requires InRange(s) && Ordered(s) && LastUsesOk(s, lastUse) && j < |s.ops|
    requires Computed(s, v, lastUse, mid, store, j) && Dropped(s, lastUse, mid, ptrs, j, s.ops[j].Ins() + s.ops[j].Outs())
    ensures HeldAt(s, v, lastUse, ptrs, store, j + 1)
  {
    hide Grouped, LastUsesOk, InRange, Ordered, Source, Available;
    forall t: Tensor | t < s.tensors && Available(s, j + 1, t) && lastUse[t] == j ensures ptrs[t] == 0 {
      var x := UserOf(s, lastUse, j, t);
      GroupsAgree(s, lastUse, t, x);
      UsedAvailable(s, j, x);
      OneBuffer(s, mid, j + 1, t, x);
      UsedListed(s, j, x);
    }
    DroppedGrouped(s, lastUse, mid, ptrs, j, s.ops[j].Ins() + s.ops[j].Outs());
  }

  lemma UsedListed(s: Stage, j: nat, x: Tensor)
    requires UsedAt(s, j, x)
    ensures x in s.ops[j].Ins() + s.ops[j].Outs()
  {}

  lemma OneBuffer(s: Stage, ptrs: seq<nat>, j: nat, a: Tensor, b: Tensor)
    requires Grouped(s, ptrs, j) && a < s.tensors && b < s.tensors && Available(s, j, a) && Available(s, j, b) && Source(s, a) == Source(s, b)
    ensures |ptrs| == s.tensors && ptrs[a] == ptrs[b]
  {}

  /** Of `mid`, the buffers of the listed tensors last used at j are dropped, each by every tensor that holds it. */
  ghost predicate Dropped(s: Stage, lastUse: seq<nat>, mid: seq<nat>, ptrs: seq<nat>, j: nat, list: seq<Tensor>) {
    && |mid| == |ptrs| == |lastUse| == s.tensors
    && (forall t: Tensor :: t < s.tensors ==> ptrs[t] == 0 || ptrs[t] == mid[t])
    && (forall t: Tensor :: t < s.tensors && lastUse[t] != j ==> ptrs[t] == mid[t])
    && (forall a: Tensor, b: Tensor :: a < s.tensors && b < s.tensors && mid[a] == mid[b] ==> ptrs[a] == ptrs[b])
    && (forall x: Tensor :: x in list && x < s.tensors && lastUse[x] == j ==> ptrs[x] == 0)
  }

  lemma DroppedGrouped(s: Stage, lastUse: seq<nat>, mid: seq<nat>, ptrs: seq<nat>, j: nat, list: seq<Tensor>)
    requires Grouped(s, mid, j + 1) && Dropped(s, lastUse, mid, ptrs, j, list)
    ensures Grouped(s, ptrs, j + 1)
  {}

  function Largest(ptrs: seq<nat>): (m: nat)
    ensures forall i :: 0 <= i < |ptrs| ==> ptrs[i] <= m
  {
    if |ptrs| == 0 then 0 else Max(ptrs[|ptrs| - 1], Largest(ptrs[..|ptrs| - 1]))
  }

  /** A reshape's output sharing its input's buffer leaves every group in one buffer. */
  lemma ShareGrouped(s: Stage, ptrs: seq<nat>, j: nat)
    requires InRange(s) && Ordered(s) && j < |s.ops| && s.ops[j].Reshape? && Grouped(s, ptrs, j)
    requires s.ops[j].to < s.tensors && s.ops[j].from < s.tensors
    requires forall t: Tensor :: t < s.tensors && ptrs[t] != 0 ==> Available(s, j, t)
    ensures Grouped(s, ptrs[s.ops[j].to := ptrs[s.ops[j].from]], j + 1)
    ensures Available(s, j, s.ops[j].from) && !Available(s, j, s.ops[j].to)
    ensures forall t: Tensor :: Available(s, j + 1, t) <==> Available(s, j, t) || t == s.ops[j].to
  {
    ReshapeRoot(s, j);
    AvailableNext(s, j);
    assert OpOrdered(s, j);
    assert s.ops[j].to in s.ops[j].Outs() && s.ops[j].from in s.ops[j].Ins();
  }

  lemma AvailableNext(s: Stage, j: nat)
    requires j < |s.ops|
    ensures forall t: Tensor :: Available(s, j + 1, t) <==> Available(s, j, t) || t in s.ops[j].Outs()
  {
    forall t: Tensor ensures Available(s, j + 1, t) <==> Available(s, j, t) || t in s.ops[j].Outs() {
      if Available(s, j, t) && t !in s.ins {
        var i :| 0 <= i < j && i < |s.ops| && t in s.ops[i].Outs();
      }
    }
  }

  /** A computed output starts a group of its own. */
  lemma OutputAlone(s: Stage, j: nat, o: Tensor, b: Tensor)
    requires InRange(s) && Ordered(s) && j < |s.ops| && s.ops[j].Compute? && o in s.ops[j].outs
    requires Available(s, j + 1, b) && Source(s, b) == Source(s, o)
    ensures b == o
  {
    ComputedRoot(s, j, o);
    AvailableNext(s, j);
    assert OpOrdered(s, j) && o in s.ops[j].Outs();
    if b in s.ops[j].outs {
      ComputedRoot(s, j, b);
    } else {
      forall i | j <= i < |s.ops| ensures b !in s.ops[i].Outs() { AvailableNotWritten(s, j, i, b); }
      RootDown(s, j, |s.ops|, b);
      RootIsRoot(s, j, b);
    }
  }

  lemma ComputedRoot(s: Stage, j: nat, o: Tensor)
    requires InRange(s) && Ordered(s) && j < |s.ops| && s.ops[j].Compute? && o in s.ops[j].outs
    ensures Source(s, o) == o
  {
    forall i | 0 <= i < |s.ops| && s.ops[i].Reshape? ensures s.ops[i].to != o {
      assert s.ops[i].to in s.ops[i].Outs() && o in s.ops[j].Outs();
      assert OpOrdered(s, i) && OpOrdered(s, j);
    }
    RootFixed(s, 0, |s.ops|, o);
  }

  /** The first k outputs of operator j have buffers of their own, nothing else changed. */
  ghost predicate Fresh(s: Stage, before: seq<nat>, ptrs: seq<nat>, j: nat, k: nat)
    requires j < |s.ops|
  {
    && |before| == |ptrs| == s.tensors && k <= |s.ops[j].Outs()|
    && (forall l: nat :: l < k && s.ops[j].Outs()[l] < s.tensors ==> ptrs[s.ops[j].Outs()[l]] != 0)
    && (forall t: Tensor :: t < s.tensors && t !in s.ops[j].Outs()[..k] ==> ptrs[t] == before[t])
    && (forall a: Tensor, b: Tensor :: a < s.tensors && b < s.tensors && a != b && ptrs[a] == ptrs[b] != 0 ==>
          before[a] == before[b] != 0)
    && (forall a: Tensor :: a < s.tensors && before[a] != 0 ==> ptrs[a] == before[a])
  }

  lemma FreshGrouped(s: Stage, before: seq<nat>, ptrs: seq<nat>, j: nat)
    requires InRange(s) && Ordered(s) && j < |s.ops| && s.ops[j].Compute? && Grouped(s, before, j)
    requires Fresh(s, before, ptrs, j, |s.ops[j].Outs()|)
    requires forall t: Tensor :: t < s.tensors && before[t] != 0 ==> Available(s, j, t)
    ensures Grouped(s, ptrs, j + 1)
  {
    AvailableNext(s, j);
    var outs := s.ops[j].Outs();
    assert outs[..|outs|] == outs && outs == s.ops[j].outs;
    forall a: Tensor, b: Tensor | a < s.tensors && b < s.tensors && Available(s, j + 1, a) && Available(s, j + 1, b)
        && Source(s, a) == Source(s, b)
      ensures ptrs[a] == ptrs[b]
    {
      if a in outs { OutputAlone(s, j, a, b); }
      if b in outs { OutputAlone(s, j, b, a); }
    }
  }

  lemma {:induction false} AvailableWritten(s: Stage, n: nat, x: Tensor)
    requires n <= |s.ops|
    ensures Available(s, n, x) ==> x in s.ins || Writer(s, n, x) >= 0
  {
    if n > 0 {
      AvailableNext(s, n - 1);
      AvailableWritten(s, n - 1, x);
    }
  }

  /** One more output has a buffer nothing held. */
  lemma PlaceOne(s: Stage, before: seq<nat>, ptrs: seq<nat>, j: nat, k: nat, b: nat)
    requires j < |s.ops| && k < |s.ops[j].Outs()| && Fresh(s, before, ptrs, j, k) && s.ops[j].Outs()[k] < s.tensors
    requires ptrs[s.ops[j].Outs()[k]] == 0 && b != 0 && b !in ptrs
    ensures Fresh(s, before, ptrs[s.ops[j].Outs()[k] := b], j, k + 1)
  {
    var outs := s.ops[j].Outs();
    assert outs[..k + 1] == outs[..k] + [outs[k]];
  }

  /** What output k of an operator is, from its operands' values. */
  function Result(op: Op, args: seq<Value>, k: nat): Value
    requires op.Reshape? ==> |args| == 1
  {
    if op.Reshape? then args[0] else op.f(k, args)
  }

  /** The operands' values, each from its buffer. */
  function Operands(store: map<nat, Value>, ptrs: seq<nat>, ts: seq<Tensor>): (x: seq<Value>)
    requires forall i :: 0 <= i < |ts| ==> ts[i] < |ptrs| && ptrs[ts[i]] in store
    ensures |x| == |ts|
  {
    seq(|ts|, i requires 0 <= i < |ts| => store[ptrs[ts[i]]])
  }

  /** The first k buffers hold the operator's results on args, every other buffer what it held. */
  ghost predicate Wrote(op: Op, args: seq<Value>, bufs: seq<nat>, before: map<nat, Value>, after: map<nat, Value>, k: nat) {
    && k <= |bufs| && (op.Reshape? ==> |args| == 1)
    && (forall l: nat :: l < k ==> bufs[l] in after && after[bufs[l]] == Result(op, args, l))
    && (forall b: nat :: b !in bufs[..k] ==> (b in after <==> b in before) && (b in before ==> after[b] == before[b]))
  }

  lemma WriteOne(op: Op, args: seq<Value>, bufs: seq<nat>, before: map<nat, Value>, after: map<nat, Value>, k: nat)
    requires k < |bufs| && Wrote(op, args, bufs, before, after, k)
    requires forall a, b :: 0 <= a < b < |bufs| ==> bufs[a] != bufs[b]
    ensures Wrote(op, args, bufs, before, after[bufs[k] := Result(op, args, k)], k + 1)
  {
    assert bufs[..k + 1] == bufs[..k] + [bufs[k]];
  }

  /** Outputs in fresh buffers are distinct, and none is an operand's buffer. */
  lemma FreshBuffers(s: Stage, before: seq<nat>, ptrs: seq<nat>, j: nat)
    requires InRange(s) && Ordered(s) && j < |s.ops| && Fresh(s, before, ptrs, j, |s.ops[j].Outs()|)
    requires forall t: Tensor :: t in s.ops[j].Outs() && t < s.tensors ==> before[t] == 0
    ensures OpInRange(s, s.ops[j]) && |ptrs| == s.tensors
    ensures var outs := s.ops[j].Outs();
      && (forall a, b :: 0 <= a < b < |outs| ==> ptrs[outs[a]] != ptrs[outs[b]])
      && (forall t: Tensor :: t < s.tensors && before[t] != 0 ==> ptrs[t] == before[t] && ptrs[t] !in Gather(ptrs, outs))
  {
    var outs := s.ops[j].Outs();
    assert OpInRange(s, s.ops[j]) && OpOrdered(s, j);
    assert outs[..|outs|] == outs;
    forall t: Tensor | t < s.tensors && before[t] != 0 ensures ptrs[t] !in Gather(ptrs, outs) {
      forall k: nat | k < |outs| ensures Gather(ptrs, outs)[k] != ptrs[t] { assert outs[k] in outs; }
    }
  }

  /** A computing operator's outputs in fresh buffers, computed from its held operands. */
  lemma ComputeDone(s: Stage, v: seq<Value>, lastUse: seq<nat>, before: seq<nat>, ptrs: seq<nat>,
                    store: map<nat, Value>, after: map<nat, Value>, j: nat)
    requires InRange(s) && Ordered(s) && LastUsesOk(s, lastUse) && Solved(s, v) && j < |s.ops| && s.ops[j].Compute?
    requires HeldAt(s, v, lastUse, before, store, j) && Fresh(s, before, ptrs, j, |s.ops[j].Outs()|) && OpInRange(s, s.ops[j])
    requires Wrote(s.ops[j], Gather(v, s.ops[j].Ins()), Gather(ptrs, s.ops[j].Outs()), store, after, |s.ops[j].Outs()|)
    ensures Computed(s, v, lastUse, ptrs, after, j)
  {
    var outs := s.ops[j].Outs();
    NotYet(s, j);
    FreshBuffers(s, before, ptrs, j);
    FreshGrouped(s, before, ptrs, j);
    AvailableNext(s, j);
    assert outs[..|outs|] == outs && Gather(ptrs, outs)[..|outs|] == Gather(ptrs, outs);
    assert OpSolved(s, v, j);
    hide Grouped, LastUsesOk, Available;
    forall t: Tensor | t < s.tensors
      ensures ptrs[t] != 0 <==> Available(s, j + 1, t) && lastUse[t] >= j
      ensures ptrs[t] != 0 ==> ptrs[t] in after && after[ptrs[t]] == v[t]
    {
      if t in outs {
        var k :| 0 <= k < |outs| && outs[k] == t;
        assert Gather(ptrs, outs)[k] == ptrs[t];
        UsedInTime(s, lastUse, j, t);
      }
    }
  }

  /** Operator j's outputs are not there before it runs. */
  lemma NotYet(s: Stage, j: nat)
    requires Ordered(s) && j < |s.ops|
    ensures forall t: Tensor :: t in s.ops[j].Outs() ==> !Available(s, j, t)
    ensures forall t: Tensor :: t in s.ops[j].Ins() ==> Available(s, j, t)
  {
    assert OpOrdered(s, j);
  }

  /** A reshape that shares its input's buffer is done. */
  lemma ShareDone(s: Stage, v: seq<Value>, lastUse: seq<nat>, before: seq<nat>, store: map<nat, Value>, j: nat)
    requires InRange(s) && Ordered(s) && LastUsesOk(s, lastUse) && Solved(s, v) && j < |s.ops| && s.ops[j].Reshape?
    requires HeldAt(s, v, lastUse, before, store, j) && s.ops[j].to < s.tensors && s.ops[j].from < s.tensors
    ensures Computed(s, v, lastUse, before[s.ops[j].to := before[s.ops[j].from]], store, j)
  {
    var op := s.ops[j];
    ShareGrouped(s, before, j);
    assert op.from in op.Ins() && op.to in op.Outs();
    UsedInTime(s, lastUse, j, op.from);
    UsedInTime(s, lastUse, j, op.to);
    assert OpSolved(s, v, j);
  }

  /** Operator j's operands are held, with their values. */
  lemma OperandsHeld(s: Stage, v: seq<Value>, lastUse: seq<nat>, ptrs: seq<nat>, store: map<nat, Value>, j: nat)
    requires InRange(s) && Ordered(s) && LastUsesOk(s, lastUse) && j < |s.ops| && HeldAt(s, v, lastUse, ptrs, store, j)
    ensures OpInRange(s, s.ops[j])
    ensures forall t: Tensor :: t in s.ops[j].Ins() ==> t < s.tensors && ptrs[t] != 0 && ptrs[t] in store && store[ptrs[t]] == v[t]
    ensures forall t: Tensor :: t in s.ops[j].Outs() ==> t < s.tensors && ptrs[t] == 0
  {
    assert OpInRange(s, s.ops[j]);
    NotYet(s, j);
    forall t: Tensor | t in s.ops[j].Ins() ensures t < s.tensors && ptrs[t] != 0 {
      UsedInTime(s, lastUse, j, t);
    }
  }

  class StageMemory {
    const s: Stage
    var lastUse: seq<nat>
    var ptrs: seq<nat>
    var store: map<nat, Value>

    ghost predicate Ok()
      reads `lastUse
    {
      InRange(s) && Ordered(s) && LastUsesOk(s, lastUse)
    }

    /** Clears every listed tensor that holds the buffer `dead`. */
    method Clear(list: seq<Tensor>, dead: nat)
      requires |ptrs| == s.tensors && dead != 0 && forall i :: 0 <= i < |list| ==> list[i] < s.tensors
      modifies `ptrs
      ensures |ptrs| == s.tensors
      ensures forall x: Tensor :: x < s.tensors ==> ptrs[x] == if old(ptrs)[x] == dead && x in list then 0 else old(ptrs)[x]
    {
      for r := 0 to |list|
        invariant |ptrs| == s.tensors
        invariant forall x: Tensor :: x < s.tensors ==>
          ptrs[x] == if old(ptrs)[x] == dead && x in list[..r] then 0 else old(ptrs)[x]
      {
        assert list[..r + 1] == list[..r] + [list[r]];
        if ptrs[list[r]] == dead { ptrs := ptrs[list[r] := 0]; }
      }
      assert list[..|list|] == list;
    }

    /** Drops a tensor's buffer, for every operator output and stage input that holds it. */
    method Release(t: Tensor)
      requires InRange(s) && |ptrs| == s.tensors && t < s.tensors
      requires forall x: Tensor :: x < s.tensors && ptrs[x] != 0 ==> Available(s, |s.ops|, x)
      modifies `ptrs
      ensures |ptrs| == s.tensors
      ensures forall x: Tensor :: x < s.tensors ==>
        ptrs[x] == if old(ptrs)[x] == old(ptrs)[t] then 0 else old(ptrs)[x]
    {
      hide Available;
      var dead := ptrs[t];
      if dead == 0 { return; }
      ptrs := ptrs[t := 0];
      for q := 0 to |s.ops|
        invariant |ptrs| == s.tensors
        invariant forall x: Tensor :: x < s.tensors ==>
          ptrs[x] == if old(ptrs)[x] == dead && (x == t || Writer(s, q, x) >= 0) then 0 else old(ptrs)[x]
      {
        assert OpInRange(s, s.ops[q]);
        Clear(s.ops[q].Outs(), dead);
      }
      Clear(s.ins, dead);
      forall x: Tensor | x < s.tensors && old(ptrs)[x] == dead ensures ptrs[x] == 0 { AvailableWritten(s, |s.ops|, x); }
    }

    /** Drops the listed tensors last used at operator j. */
    method ReleaseUsed(list: seq<Tensor>, j: nat, ghost done: seq<Tensor>, ghost mid: seq<nat>)
      requires Ok() && |ptrs| == s.tensors && (forall i :: 0 <= i < |list| ==> list[i] < s.tensors)
      requires Dropped(s, lastUse, mid, ptrs, j, done) && Grouped(s, mid, j + 1)
      requires forall x: Tensor :: x < s.tensors && mid[x] != 0 ==> Available(s, |s.ops|, x)
      modifies `ptrs
      ensures Dropped(s, lastUse, mid, ptrs, j, done + list)
    {
      hide Source, Available, InRange, Ordered;
      for k := 0 to |list|
        invariant Dropped(s, lastUse, mid, ptrs, j, done + list[..k])
      {
        assert list[..k + 1] == list[..k] + [list[k]];
        if lastUse[list[k]] == j {
          ghost var was := ptrs;
          Release(list[k]);
          DropOne(s, lastUse, mid, was, ptrs, j, done + list[..k], list[k]);
        }
      }
      assert list[..|list|] == list;
    }

    /** Any buffer no tensor holds. */
    method Allocate() returns (b: nat)
      ensures b != 0 && b !in ptrs
    {
      var top := Largest(ptrs);
      assert top + 1 !in ptrs;
      b :| b != 0 && b !in ptrs;
    }

    /** A buffer for every output of operator j that has none. */
    method PlaceOutputs(j: nat)
      requires InRange(s) && Ordered(s) && |ptrs| == s.tensors && j < |s.ops|
      requires forall t: Tensor :: t in s.ops[j].Outs() && t < s.tensors ==> ptrs[t] == 0
      modifies `ptrs
      ensures Fresh(s, old(ptrs), ptrs, j, |s.ops[j].Outs()|)
    {
      var outs := s.ops[j].Outs();
      assert OpInRange(s, s.ops[j]) && OpOrdered(s, j);
      hide InRange, Ordered, OpOrdered, Available;
      for k := 0 to |outs|
        invariant Fresh(s, old(ptrs), ptrs, j, k)
        invariant forall l: nat :: k <= l < |outs| ==> ptrs[outs[l]] == 0
      {
        var t := outs[k];
        if ptrs[t] == 0 {
          var b := Allocate();
          PlaceOne(s, old(ptrs), ptrs, j, k, b);
          ptrs := ptrs[t := b];
        }
      }
    }

    /** The kernel of operator j: its outputs' buffers from its operands'. */
    method Kernel(j: nat)
      requires InRange(s) && j < |s.ops| && |ptrs| == s.tensors && OpInRange(s, s.ops[j])
      requires forall i :: 0 <= i < |s.ops[j].Ins()| ==> ptrs[s.ops[j].Ins()[i]] in store
      requires forall a, b :: 0 <= a < b < |s.ops[j].Outs()| ==> ptrs[s.ops[j].Outs()[a]] != ptrs[s.ops[j].Outs()[b]]
      modifies `store
      ensures Wrote(s.ops[j], Operands(old(store), ptrs, s.ops[j].Ins()), Gather(ptrs, s.ops[j].Outs()), old(store), store, |s.ops[j].Outs()|)
    {
      var op := s.ops[j];
      var outs := op.Outs();
      var args := Operands(store, ptrs, op.Ins());
      ghost var bufs := Gather(ptrs, outs);
      for k: nat := 0 to |outs|
        invariant Wrote(op, args, bufs, old(store), store, k)
      {
        WriteOne(op, args, bufs, old(store), store, k);
        store := store[ptrs[outs[k]] := Result(op, args, k)];
      }
    }

    /** One operator of the stage: share or place its outputs, compute them, drop what it used last. */
    method StepOp(j: nat, ghost v: seq<Value>)
      requires Ok() && Solved(s, v) && j < |s.ops| && HeldAt(s, v, lastUse, ptrs, store, j)
      modifies `ptrs, `store
      ensures Ok() && HeldAt(s, v, lastUse, ptrs, store, j + 1)
    {
      hide Grouped, LastUsesOk, Available, Solved, Ordered;
      OperandsHeld(s, v, lastUse, ptrs, store, j);
      var op := s.ops[j];
      if op.Reshape? { ReshapeInRange(s, j); }
      if op.Reshape? && ptrs[op.to] == 0 && ptrs[op.from] != 0 {
        assert op.from in op.Ins() && op.to in op.Outs();
        ShareDone(s, v, lastUse, ptrs, store, j);
        ptrs := ptrs[op.to := ptrs[op.from]];
        ghost var mid := ptrs;
        HeldInStage(s, v, lastUse, mid, store, j);
        ComputedGrouped(s, v, lastUse, mid, store, j);
        if lastUse[op.to] == j {
          Release(op.to);
        }
        ShareDropped(s, lastUse, mid, ptrs, j);
        DropsExact(s, v, lastUse, mid, ptrs, store, j);
      } else {
        ComputeOp(j, v);
        ghost var mid := ptrs;
        HeldInStage(s, v, lastUse, mid, store, j);
        ComputedGrouped(s, v, lastUse, mid, store, j);
        ReleaseUsed(op.Ins(), j, [], mid);
        assert [] + op.Ins() == op.Ins();
        ReleaseUsed(op.Outs(), j, op.Ins(), mid);
        DropsExact(s, v, lastUse, mid, ptrs, store, j);
      }
    }

    /** Places and computes the outputs of an operator that shares nothing. */
    method ComputeOp(j: nat, ghost v: seq<Value>)
      requires Ok() && Solved(s, v) && j < |s.ops| && HeldAt(s, v, lastUse, ptrs, store, j) && s.ops[j].Compute?
      modifies `ptrs, `store
      ensures Computed(s, v, lastUse, ptrs, store, j)
    {
      hide Grouped, LastUsesOk, Available, Solved, Ordered, Fresh, Wrote;
      OperandsHeld(s, v, lastUse, ptrs, store, j);
      ghost var before := ptrs;
      PlaceOutputs(j);
      FreshBuffers(s, before, ptrs, j);
      forall i | 0 <= i < |s.ops[j].Ins()|
        ensures ptrs[s.ops[j].Ins()[i]] in store && store[ptrs[s.ops[j].Ins()[i]]] == v[s.ops[j].Ins()[i]]
      {
        assert s.ops[j].Ins()[i] in s.ops[j].Ins();
      }
      ghost var was := store;
      assert Operands(store, ptrs, s.ops[j].Ins()) == Gather(v, s.ops[j].Ins());
      Kernel(j);
      ComputeDone(s, v, lastUse, before, ptrs, was, store, j);
    }

    /** Memory as the stage starts: no tensor placed. */
    constructor (s: Stage)
      requires InRange(s)
      ensures this.s == s && |ptrs| == s.tensors && forall t :: 0 <= t < |ptrs| ==> ptrs[t] == 0
    {
      this.s := s;
      lastUse := [];
      ptrs := seq(s.tensors, _ => 0);
      store := map[];
    }

    /** Loads every stage input from slow memory into a buffer of its own. */
    method LoadInputs(slow: seq<Value>, ghost v: seq<Value>)
      requires Ok() && |v| == |slow| == s.tensors == |ptrs| && (forall t :: 0 <= t < |ptrs| ==> ptrs[t] == 0)
      requires forall t: Tensor :: t in s.ins && t < s.tensors ==> v[t] == slow[t]
      modifies `ptrs, `store
      ensures Ok() && HeldAt(s, v, lastUse, ptrs, store, 0)
    {
      hide GroupLast, Ordered;
      for i := 0 to |s.ins|
        invariant LoadedTo(s, v, ptrs, store, i)
      {
        if ptrs[s.ins[i]] == 0 {
          var b := Allocate();
          LoadOne(s, v, ptrs, store, i, b);
          ptrs := ptrs[s.ins[i] := b];
          store := store[b := slow[s.ins[i]]];
        } else {
          LoadSkip(s, v, ptrs, store, i);
        }
      }
      LoadedHeld(s, v, lastUse, ptrs, store);
    }

    /** Copies every stage output back to slow memory. */
    method SpillOutputs(before: seq<Value>, ghost v: seq<Value>) returns (slow: seq<Value>)
      requires InRange(s) && |before| == s.tensors && HeldAt(s, v, lastUse, ptrs, store, |s.ops|)
      requires forall t: Tensor :: t in s.outs && t < s.tensors ==> ptrs[t] != 0
      ensures |slow| == |before|
      ensures forall t :: 0 <= t < |slow| ==> slow[t] == if t in s.outs then v[t] else before[t]
    {
      slow := before;
      for i := 0 to |s.outs|
        invariant |slow| == |before|
        invariant forall t :: 0 <= t < |slow| ==> slow[t] == if t in s.outs[..i] then v[t] else before[t]
      {
        assert s.outs[..i + 1] == s.outs[..i] + [s.outs[i]];
        var t := s.outs[i];
        slow := slow[t := store[ptrs[t]]];
      }
      assert s.outs[..|s.outs|] == s.outs;
    }
  }

  /** The first n stage inputs have buffers of their own with their values. */
  ghost predicate LoadedTo(s: Stage, v: seq<Value>, ptrs: seq<nat>, store: map<nat, Value>, n: nat) {
    && |ptrs| == |v| == s.tensors && n <= |s.ins|
    && (forall t: Tensor :: t < s.tensors ==> (ptrs[t] != 0 <==> t in s.ins[..n]))
    && (forall a: Tensor, b: Tensor :: a < b < s.tensors ==> ptrs[a] != ptrs[b] || ptrs[a] == 0)
    && (forall t: Tensor :: t < s.tensors && ptrs[t] != 0 ==> ptrs[t] in store && store[ptrs[t]] == v[t])
  }

  lemma LoadOne(s: Stage, v: seq<Value>, ptrs: seq<nat>, store: map<nat, Value>, n: nat, b: nat)
    requires n < |s.ins| && s.ins[n] < s.tensors && LoadedTo(s, v, ptrs, store, n) && b != 0 && b !in ptrs
    ensures LoadedTo(s, v, ptrs[s.ins[n] := b], store[b := v[s.ins[n]]], n + 1)
  {
    assert s.ins[..n + 1] == s.ins[..n] + [s.ins[n]];
  }

  lemma LoadSkip(s: Stage, v: seq<Value>, ptrs: seq<nat>, store: map<nat, Value>, n: nat)
    requires n < |s.ins| && s.ins[n] < s.tensors && LoadedTo(s, v, ptrs, store, n) && ptrs[s.ins[n]] != 0
    ensures LoadedTo(s, v, ptrs, store, n + 1)
  {
    assert s.ins[..n + 1] == s.ins[..n] + [s.ins[n]];
  }

  lemma LoadedHeld(s: Stage, v: seq<Value>, lastUse: seq<nat>, ptrs: seq<nat>, store: map<nat, Value>)
    requires InRange(s) && Ordered(s) && |lastUse| == s.tensors && LoadedTo(s, v, ptrs, store, |s.ins|)
    ensures HeldAt(s, v, lastUse, ptrs, store, 0)
  {
    assert s.ins[..|s.ins|] == s.ins;
    forall a: Tensor | a in s.ins ensures Source(s, a) == a {
      assert Available(s, 0, a);
      forall i | 0 <= i < |s.ops| ensures a !in s.ops[i].Outs() { AvailableNotWritten(s, 0, i, a); }
      RootFixed(s, 0, |s.ops|, a);
    }
  }

  // The operators' values, one after another.

  /** The tensors once the first n operators ran on them. */
  function After(s: Stage, env: seq<Value>, n: nat): (e: seq<Value>)
    requires InRange(s) && |env| == s.tensors && n <= |s.ops|
    ensures |e| == s.tensors
  {
    if n == 0 then env
    else
      var before := After(s, env, n - 1);
      var op := s.ops[n - 1];
      assert OpInRange(s, op);
      Written(op, before, Gather(before, op.Ins()), |op.Outs()|)
  }

  function Written(op: Op, env: seq<Value>, args: seq<Value>, k: nat): (e: seq<Value>)
    requires k <= |op.Outs()| && (op.Reshape? ==> |args| == 1) && forall i :: 0 <= i < |op.Outs()| ==> op.Outs()[i] < |env|
    ensures |e| == |env|
  {
    if k == 0 then env else Written(op, env, args, k - 1)[op.Outs()[k - 1] := Result(op, args, k - 1)]
  }

  lemma {:induction false} WrittenAt(op: Op, env: seq<Value>, args: seq<Value>, k: nat)
    requires k <= |op.Outs()| && (op.Reshape? ==> |args| == 1) && forall i :: 0 <= i < |op.Outs()| ==> op.Outs()[i] < |env|
    requires forall a, b :: 0 <= a < b < |op.Outs()| ==> op.Outs()[a] != op.Outs()[b]
    ensures forall l: nat :: l < k ==> Written(op, env, args, k)[op.Outs()[l]] == Result(op, args, l)
    ensures forall t: Tensor :: t < |env| && t !in op.Outs()[..k] ==> Written(op, env, args, k)[t] == env[t]
  {
    if k > 0 {
      assert op.Outs()[..k] == op.Outs()[..k - 1] + [op.Outs()[k - 1]];
      WrittenAt(op, env, args, k - 1);
    }
  }

  /** What is available at n keeps its value from there on. */
  lemma {:induction false} AfterKeeps(s: Stage, env: seq<Value>, n: nat, m: nat, t: Tensor)
    requires InRange(s) && Ordered(s) && |env| == s.tensors && n <= m <= |s.ops| && t < s.tensors && Available(s, n, t)
    ensures After(s, env, m)[t] == After(s, env, n)[t]
  {
    if n < m {
      AfterKeeps(s, env, n, m - 1, t);
      var op := s.ops[m - 1];
      assert OpInRange(s, op) && OpOrdered(s, m - 1);
      AvailableNotWritten(s, n, m - 1, t);
      assert op.Outs()[..|op.Outs()|] == op.Outs();
      var before := After(s, env, m - 1);
      WrittenAt(op, before, Gather(before, op.Ins()), |op.Outs()|);
    }
  }

  /** Running the operators once solves every operator's equation. */
  lemma AfterSolves(s: Stage, env: seq<Value>)
    requires InRange(s) && Ordered(s) && |env| == s.tensors
    ensures Solved(s, After(s, env, |s.ops|))
    ensures forall t: Tensor :: t in s.ins && t < s.tensors ==> After(s, env, |s.ops|)[t] == env[t]
  {
    var v := After(s, env, |s.ops|);
    forall j | 0 <= j < |s.ops| ensures OpSolved(s, v, j) { OpAfter(s, env, j); }
    forall t: Tensor | t in s.ins && t < s.tensors ensures v[t] == env[t] { AfterKeeps(s, env, 0, |s.ops|, t); }
  }

  /** An operator's output, once written, is there at the end. */
  lemma OutputAfter(s: Stage, env: seq<Value>, j: nat, k: nat)
    requires InRange(s) && Ordered(s) && |env| == s.tensors && j < |s.ops| && k < |s.ops[j].Outs()|
    requires OpInRange(s, s.ops[j])
    ensures After(s, env, |s.ops|)[s.ops[j].Outs()[k]] == Result(s.ops[j], Gather(After(s, env, j), s.ops[j].Ins()), k)
  {
    var before, op := After(s, env, j), s.ops[j];
    assert OpOrdered(s, j);
    WrittenAt(op, before, Gather(before, op.Ins()), |op.Outs()|);
    assert op.Outs()[k] in op.Outs();
    UsedAvailable(s, j, op.Outs()[k]);
    AfterKeeps(s, env, j + 1, |s.ops|, op.Outs()[k]);
  }

  lemma OpAfter(s: Stage, env: seq<Value>, j: nat)
    requires InRange(s) && Ordered(s) && |env| == s.tensors && j < |s.ops|
    ensures OpSolved(s, After(s, env, |s.ops|), j)
  {
    var v, before, op := After(s, env, |s.ops|), After(s, env, j), s.ops[j];
    assert OpInRange(s, op) && OpOrdered(s, j);
    forall i | 0 <= i < |op.Ins()| ensures v[op.Ins()[i]] == before[op.Ins()[i]] {
      assert op.Ins()[i] in op.Ins();
      AfterKeeps(s, env, j, |s.ops|, op.Ins()[i]);
    }
    assert Gather(v, op.Ins()) == Gather(before, op.Ins());
    forall k: nat | k < |op.Outs()| ensures v[op.Outs()[k]] == Result(op, Gather(v, op.Ins()), k) {
      OutputAfter(s, env, j, k);
    }
    assert op.Reshape? ==> op.Outs()[0] == op.to && op.Ins()[0] == op.from;
  }

  /**
   * Runs a stage whole: its outputs in slow memory are what its operators give
   * one after another, although every buffer is dropped after the last
   * operator that needs it and may be taken again at once.
   */
  method ExecStageNormal(s: Stage, slow: seq<Value>) returns (after: seq<Value>)
    requires InRange(s) && Ordered(s) && |slow| == s.tensors
    requires forall t: Tensor :: t in s.outs && t < s.tensors ==> Available(s, |s.ops|, t)
    ensures |after| == |slow|
    ensures forall t :: 0 <= t < |after| ==> after[t] == if t in s.outs then After(s, slow, |s.ops|)[t] else slow[t]
  {
    hide Source, HeldAt, Ordered, Solved;
    ghost var v := After(s, slow, |s.ops|);
    AfterSolves(s, slow);
    var mem := new StageMemory(s);
    var lastUse := LastUses(s);
    mem.lastUse := lastUse;
    mem.LoadInputs(slow, v);
    for j := 0 to |s.ops|
      invariant mem.s == s && mem.Ok() && HeldAt(s, v, mem.lastUse, mem.ptrs, mem.store, j)
    {
      mem.StepOp(j, v);
    }
    OutputsStay(s, v, mem.lastUse, mem.ptrs, mem.store);
    after := mem.SpillOutputs(slow, v);
  }

  /** No stage output is ever dropped. */
  lemma OutputsStay(s: Stage, v: seq<Value>, lastUse: seq<nat>, ptrs: seq<nat>, store: map<nat, Value>)
    requires InRange(s) && Ordered(s) && LastUsesOk(s, lastUse) && HeldAt(s, v, lastUse, ptrs, store, |s.ops|)
    requires forall t: Tensor :: t in s.outs && t < s.tensors ==> Available(s, |s.ops|, t)
    ensures |ptrs| == s.tensors && forall t: Tensor :: t in s.outs && t < s.tensors ==> ptrs[t] != 0
  {
    forall t: Tensor | t in s.outs && t < s.tensors ensures ptrs[t] != 0 { UsedInTime(s, lastUse, |s.ops|, t); }
  }

  lemma ComputedGrouped(s: Stage, v: seq<Value>, lastUse: seq<nat>, mid: seq<nat>, store: map<nat, Value>, j: nat)
    requires Computed(s, v, lastUse, mid, store, j)
    ensures Grouped(s, mid, j + 1) && Dropped(s, lastUse, mid, mid, j, [])
  {}

  /** Only stage inputs and operator outputs hold buffers. */
  lemma HeldInStage(s: Stage, v: seq<Value>, lastUse: seq<nat>, mid: seq<nat>, store: map<nat, Value>, j: nat)
    requires Computed(s, v, lastUse, mid, store, j) && j < |s.ops|
    ensures forall x: Tensor :: x < s.tensors && mid[x] != 0 ==> Available(s, |s.ops|, x)
  {
    forall x: Tensor | x < s.tensors && mid[x] != 0 ensures Available(s, |s.ops|, x) {
      if x !in s.ins {
        var i :| 0 <= i < j + 1 && i < |s.ops| && x in s.ops[i].Outs();
      }
    }
  }

  /** Releasing a reshape's output drops its input too. */
  lemma ShareDropped(s: Stage, lastUse: seq<nat>, mid: seq<nat>, ptrs: seq<nat>, j: nat)
    requires InRange(s) && Ordered(s) && LastUsesOk(s, lastUse) && j < |s.ops| && s.ops[j].Reshape? && Grouped(s, mid, j + 1)
    requires s.ops[j].to < s.tensors && s.ops[j].from < s.tensors && mid[s.ops[j].to] == mid[s.ops[j].from] && |ptrs| == s.tensors
    requires forall x: Tensor :: x < s.tensors ==>
      ptrs[x] == if lastUse[s.ops[j].to] == j && mid[x] == mid[s.ops[j].to] then 0 else mid[x]
    ensures Dropped(s, lastUse, mid, ptrs, j, s.ops[j].Ins() + s.ops[j].Outs())
  {
    var op := s.ops[j];
    ReshapeRoot(s, j);
    GroupsAgree(s, lastUse, op.from, op.to);
    hide Source, Available, Ordered;
    forall x: Tensor | x < s.tensors && lastUse[x] != j ensures ptrs[x] == mid[x] {
      if lastUse[op.to] == j && mid[x] == mid[op.to] != 0 { GroupsAgree(s, lastUse, x, op.to); }
    }
  }

  lemma DropOne(s: Stage, lastUse: seq<nat>, mid: seq<nat>, was: seq<nat>, ptrs: seq<nat>, j: nat, done: seq<Tensor>, t: Tensor)
    requires LastUsesOk(s, lastUse) && Dropped(s, lastUse, mid, was, j, done) && Grouped(s, mid, j + 1)
    requires t < s.tensors && lastUse[t] == j && |ptrs| == s.tensors
    requires forall x: Tensor :: x < s.tensors ==> ptrs[x] == if was[x] == was[t] then 0 else was[x]
    ensures Dropped(s, lastUse, mid, ptrs, j, done + [t])
  {
    hide Source, Available;
    forall x: Tensor | x < s.tensors && lastUse[x] != j ensures ptrs[x] == mid[x] {
      if was[x] == was[t] != 0 { GroupsAgree(s, lastUse, x, t); }
    }
  }
}
