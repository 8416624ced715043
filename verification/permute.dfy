/**
 * The N-dimensional permutation of a tensor: its definition by coordinates,
 * and the odometer walk that computes it.
 */
module Permute {
  import opened Rows

  type Element(0)

  function Size(shape: seq<nat>): nat {
    if |shape| == 0 then 1 else shape[0] * Size(shape[1..])
  }

  /** Row-major strides. */
  function Strides(shape: seq<nat>): (s: seq<nat>)
    ensures |s| == |shape|
  {
    if |shape| == 0 then [] else [Size(shape[1..])] + Strides(shape[1..])
  }

  function Dot(c: seq<nat>, w: seq<nat>): nat
    requires |c| == |w|
  {
    if |c| == 0 then 0 else c[0] * w[0] + Dot(c[1..], w[1..])
  }

  /** Where the element at coordinates c is. */
  function Flat(shape: seq<nat>, c: seq<nat>): nat
    requires |c| == |shape|
  {
    Dot(c, Strides(shape))
  }

  predicate InBox(shape: seq<nat>, c: seq<nat>) {
    |c| == |shape| && forall a :: 0 <= a < |c| ==> c[a] < shape[a]
  }

  /** Axis a of the result is axis perm[a] of x. */
  function Permuted<T>(x: seq<T>, perm: seq<nat>): (y: seq<T>)
    requires forall a :: 0 <= a < |perm| ==> perm[a] < |x|
    ensures |y| == |perm|
  {
    seq(|perm|, a requires 0 <= a < |perm| => x[perm[a]])
  }

  function Identity(n: nat): (s: seq<nat>)
    ensures |s| == n
  {
    seq(n, i requires 0 <= i < n => i)
  }

  predicate IsPermutation(perm: seq<nat>) { multiset(perm) == multiset(Identity(|perm|)) }

  lemma PermutationInRange(perm: seq<nat>)
    requires IsPermutation(perm)
    ensures forall a :: 0 <= a < |perm| ==> perm[a] < |perm|
  {
    forall a | 0 <= a < |perm| ensures perm[a] < |perm| {
      assert perm[a] in multiset(perm);
      assert perm[a] in Identity(|perm|);
    }
  }

  /** The permutation as its definition has it: every element goes to its permuted coordinates. */
  ghost predicate IsPermuted(src: seq<Element>, dst: seq<Element>, shape: seq<nat>, perm: seq<nat>)
    requires |perm| == |shape| && forall a :: 0 <= a < |perm| ==> perm[a] < |shape|
  {
    && |src| == |dst| == Size(shape)
    && forall c :: InBox(shape, c) ==> Moves(src, dst, shape, perm, c)
  }

  ghost predicate Moves(src: seq<Element>, dst: seq<Element>, shape: seq<nat>, perm: seq<nat>, c: seq<nat>)
    requires |perm| == |shape| == |c| && forall a :: 0 <= a < |perm| ==> perm[a] < |shape|
  {
    var from, to := Flat(shape, c), Flat(Permuted(shape, perm), Permuted(c, perm));
    from < |src| && to < |dst| && dst[to] == src[from]
  }

  // Facts about row-major indices.

  lemma {:induction false} FlatInRange(shape: seq<nat>, c: seq<nat>)
    requires InBox(shape, c)
    ensures Flat(shape, c) < Size(shape)
  {
    if |shape| > 0 {
      FlatInRange(shape[1..], c[1..]);
      MulOrder(c[0] + 1, shape[0], Size(shape[1..]));
      MulSub(c[0], -1, Size(shape[1..]));
      assert Strides(shape)[1..] == Strides(shape[1..]);
    }
  }

  lemma {:induction false} FlatInjective(shape: seq<nat>, c: seq<nat>, d: seq<nat>)
    requires InBox(shape, c) && InBox(shape, d) && Flat(shape, c) == Flat(shape, d)
    ensures c == d
  {
    if |shape| > 0 {
      var w := Size(shape[1..]);
      assert Strides(shape)[1..] == Strides(shape[1..]);
      FlatInRange(shape[1..], c[1..]);
      FlatInRange(shape[1..], d[1..]);
      LeadingDigit(c[0], Flat(shape[1..], c[1..]), d[0], Flat(shape[1..], d[1..]), w);
      FlatInjective(shape[1..], c[1..], d[1..]);
      assert c == [c[0]] + c[1..] && d == [d[0]] + d[1..];
    }
  }

  lemma LeadingDigit(a: nat, x: nat, b: nat, y: nat, w: nat)
    requires x < w && y < w && a * w + x == b * w + y
    ensures a == b && x == y
  {
    if a < b { MulOrder(a + 1, b, w); MulSub(a, -1, w); }
    if b < a { MulOrder(b + 1, a, w); MulSub(b, -1, w); }
  }

  lemma {:induction false} SizeAppend(s: seq<nat>, t: seq<nat>)
    ensures Size(s + t) == Size(s) * Size(t)
  {
    if |s| == 0 {
      assert s + t == t;
    } else {
      assert (s + t)[1..] == s[1..] + t;
      SizeAppend(s[1..], t);
      MulAssoc(s[0], Size(s[1..]), Size(t));
    }
  }

  /** Axes can be grouped: the leading group counts whole trailing groups. */
  lemma {:induction false} FlatAppend(s: seq<nat>, t: seq<nat>, c: seq<nat>, d: seq<nat>)
    requires |c| == |s| && |d| == |t|
    ensures Flat(s + t, c + d) == Flat(s, c) * Size(t) + Flat(t, d)
  {
    if |s| == 0 {
      assert s + t == t && c + d == d;
    } else {
      assert (s + t)[1..] == s[1..] + t && (c + d)[1..] == c[1..] + d;
      assert Strides(s + t)[1..] == Strides(s[1..] + t) && Strides(s)[1..] == Strides(s[1..]);
      FlatAppend(s[1..], t, c[1..], d);
      SizeAppend(s[1..], t);
      Horner(c[0], Size(s[1..]), Size(t), Flat(s[1..], c[1..]), Flat(t, d));
    }
  }

  lemma Horner(c: int, a: int, t: int, f: int, g: int)
    ensures c * (a * t) + (f * t + g) == (c * a + f) * t + g
  {
    MulAssoc(c, a, t);
    MulSub(c * a, -f, t);
    MulNegate(f, t);
  }

  /** Moving one coordinate by one moves the index by its weight. */
  lemma {:induction false} DotBump(c: seq<nat>, w: seq<nat>, j: nat, d: int)
    requires |c| == |w| && j < |c| && c[j] + d >= 0
    ensures Dot(c[j := c[j] + d], w) == Dot(c, w) + d * w[j]
  {
    var e := c[j := c[j] + d];
    if j == 0 {
      assert e[1..] == c[1..];
      MulSub(c[0], -d, w[0]);
      MulNegate(d, w[0]);
    } else {
      assert e[1..] == c[1..][j - 1 := c[1..][j - 1] + d];
      DotBump(c[1..], w[1..], j - 1, d);
    }
  }

  lemma {:induction false} StrideStep(shape: seq<nat>, j: nat)
    requires 0 < j < |shape|
    ensures Strides(shape)[j - 1] == shape[j] * Strides(shape)[j]
  {
    assert Strides(shape)[1..] == Strides(shape[1..]);
    if j == 1 {
      assert Strides(shape[1..])[0] == Size(shape[1..][1..]);
    } else {
      StrideStep(shape[1..], j - 1);
    }
  }

  lemma {:induction false} LastStride(shape: seq<nat>)
    requires |shape| > 0
    ensures Strides(shape)[|shape| - 1] == 1
  {
    if |shape| > 1 {
      LastStride(shape[1..]);
      assert Strides(shape)[1..] == Strides(shape[1..]);
    }
  }

  function Sum(t: seq<nat>): nat { if |t| == 0 then 0 else t[0] + Sum(t[1..]) }

  function Terms(c: seq<nat>, w: seq<nat>): (t: seq<nat>)
    requires |c| == |w|
    ensures |t| == |c|
  {
    seq(|c|, a requires 0 <= a < |c| => c[a] * w[a])
  }

  lemma {:induction false} DotIsSum(c: seq<nat>, w: seq<nat>)
    requires |c| == |w|
    ensures Dot(c, w) == Sum(Terms(c, w))
  {
    if |c| > 0 {
      DotIsSum(c[1..], w[1..]);
      assert Terms(c, w)[1..] == Terms(c[1..], w[1..]);
    }
  }

  lemma {:induction false} SumRemove(t: seq<nat>, k: nat)
    requires k < |t|
    ensures Sum(t) == t[k] + Sum(t[..k] + t[k + 1..])
  {
    if k == 0 {
      assert t[..0] + t[1..] == t[1..];
    } else {
      SumRemove(t[1..], k - 1);
      var r := t[..k] + t[k + 1..];
      assert r[1..] == t[1..][..k - 1] + t[1..][k..];
    }
  }

  /** Taking one equal element out of each of two bags leaves them equal. */
  lemma RemoveOne(a: seq<nat>, b: seq<nat>, k: nat)
    requires multiset(a) == multiset(b) && |a| > 0 && k < |b| && b[k] == a[0]
    ensures multiset(a[1..]) == multiset(b[..k] + b[k + 1..])
  {
    assert a == [a[0]] + a[1..];
    assert b == b[..k] + [b[k]] + b[k + 1..];
    assert multiset(a[1..]) == multiset(a) - multiset{a[0]};
    assert multiset(b[..k] + b[k + 1..]) == multiset(b) - multiset{b[k]};
  }

  /** A sum does not depend on the order of its terms. */
  lemma {:induction false} SumOfSame(a: seq<nat>, b: seq<nat>)
    requires multiset(a) == multiset(b)
    ensures Sum(a) == Sum(b)
  {
    if |a| == 0 {
      assert |multiset(b)| == 0;
    } else {
      assert a[0] in multiset(b);
      var k :| 0 <= k < |b| && b[k] == a[0];
      var rest := b[..k] + b[k + 1..];
      RemoveOne(a, b, k);
      SumRemove(b, k);
      SumOfSame(a[1..], rest);
    }
  }

  lemma {:induction false} PermutedBag(x: seq<nat>, perm: seq<nat>, order: seq<nat>)
    requires (forall a :: 0 <= a < |perm| ==> perm[a] < |x|) && multiset(perm) == multiset(order)
    requires forall a :: 0 <= a < |order| ==> order[a] < |x|
    ensures multiset(Permuted(x, perm)) == multiset(Permuted(x, order))
  {
    if |perm| == 0 {
      assert |multiset(order)| == 0;
    } else {
      assert perm[0] in multiset(order);
      var k :| 0 <= k < |order| && order[k] == perm[0];
      var rest := order[..k] + order[k + 1..];
      RemoveOne(perm, order, k);
      assert order == order[..k] + [order[k]] + order[k + 1..];
      PermutedBag(x, perm[1..], rest);
      assert Permuted(x, perm) == [x[perm[0]]] + Permuted(x, perm[1..]);
      assert Permuted(x, order) == Permuted(x, order[..k]) + [x[order[k]]] + Permuted(x, order[k + 1..]);
      assert Permuted(x, rest) == Permuted(x, order[..k]) + Permuted(x, order[k + 1..]);
    }
  }

  /** Permuted coordinates under permuted weights give the same index. */
  lemma DotPermuted(c: seq<nat>, w: seq<nat>, perm: seq<nat>)
    requires |c| == |w| == |perm| && IsPermutation(perm) && forall a :: 0 <= a < |perm| ==> perm[a] < |perm|
    ensures Dot(Permuted(c, perm), Permuted(w, perm)) == Dot(c, w)
  {
    DotIsSum(c, w);
    DotIsSum(Permuted(c, perm), Permuted(w, perm));
    assert Terms(Permuted(c, perm), Permuted(w, perm)) == Permuted(Terms(c, w), perm);
    PermutedBag(Terms(c, w), perm, Identity(|perm|));
    assert Permuted(Terms(c, w), Identity(|perm|)) == Terms(c, w);
    SumOfSame(Permuted(Terms(c, w), perm), Terms(c, w));
  }

  // The odometer.

  /** The row-major strides, last axis first. */
  method InputStrides(shape: seq<nat>) returns (s: seq<nat>)
    ensures s == Strides(shape)
  {
    s := [];
    var stride := 1;
    var axis := |shape|;
    while axis > 0
      invariant 0 <= axis <= |shape| && stride == Size(shape[axis..]) && s == Strides(shape[axis..])
    {
      axis := axis - 1;
      assert shape[axis..][1..] == shape[axis + 1..];
      s := [stride] + s;
      stride := shape[axis] * stride;
    }
    assert shape[0..] == shape;
  }

  /** The walk so far: the odometer is at the output index, the input index is where it points. */
  ghost predicate Walked(src: seq<Element>, dst: seq<Element>, shape: seq<nat>, step: seq<nat>, n: nat, c: seq<nat>, at: nat)
    requires |step| == |shape| == |c|
  {
    && (n < Size(shape) ==> InBox(shape, c) && Flat(shape, c) == n && at == Dot(c, step))
    && forall o :: InBox(shape, o) && Flat(shape, o) < n ==> Copied(src, dst, shape, step, o)
  }

  ghost predicate Copied(src: seq<Element>, dst: seq<Element>, shape: seq<nat>, step: seq<nat>, o: seq<nat>)
    requires |step| == |shape| == |o|
  {
    Flat(shape, o) < |dst| && Dot(o, step) < |src| && dst[Flat(shape, o)] == src[Dot(o, step)]
  }

  /** Steps the last axis, then carries. */
  method Advance(shape: seq<nat>, step: seq<nat>, c0: seq<nat>, at0: nat) returns (c: seq<nat>, at: int)
    requires |shape| == |step| && InBox(shape, c0) && |shape| >= 1 && at0 == Dot(c0, step)
    ensures |c| == |shape|
    ensures Flat(shape, c0) + 1 < Size(shape) ==> InBox(shape, c) && Flat(shape, c) == Flat(shape, c0) + 1 && at == Dot(c, step)
  {
    hide Dot, Strides, Size;
    var last := |shape| - 1;
    LastStride(shape);
    Bump(shape, step, c0, last);
    c := c0[last := c0[last] + 1];
    at := at0 + step[last];
    if c[last] >= shape[last] {
      Wrap(shape, step, c, last);
      at := at - step[last] * shape[last];
      c := c[last := 0];
      c, at := Carry(shape, step, c, at, Flat(shape, c0) + 1);
    }
  }

  /** Carries from the last axis up, until an axis takes it. */
  method Carry(shape: seq<nat>, step: seq<nat>, c0: seq<nat>, at0: int, ghost next: nat) returns (c: seq<nat>, at: int)
    requires |shape| == |step| && |shape| >= 1 && InBox(shape, c0) && at0 == Dot(c0, step)
    requires Flat(shape, c0) + shape[|shape| - 1] * Strides(shape)[|shape| - 1] == next
    ensures |c| == |shape|
    ensures next < Size(shape) ==> InBox(shape, c) && Flat(shape, c) == next && at == Dot(c, step)
  {
    hide Dot, Strides, Size;
    c, at := c0, at0;
    var k := |shape| - 1;
    while k > 0
      invariant 0 <= k < |shape| && InBox(shape, c) && at == Dot(c, step)
      invariant Flat(shape, c) + shape[k] * Strides(shape)[k] == next
    {
      StrideStep(shape, k);
      k := k - 1;
      Bump(shape, step, c, k);
      c := c[k := c[k] + 1];
      at := at + step[k];
      if c[k] < shape[k] { return; }
      Wrap(shape, step, c, k);
      at := at - step[k] * shape[k];
      c := c[k := 0];
    }
    FirstStride(shape);
  }

  lemma Bump(shape: seq<nat>, step: seq<nat>, c: seq<nat>, j: nat)
    requires |shape| == |step| == |c| && j < |c|
    ensures Dot(c[j := c[j] + 1], step) == Dot(c, step) + step[j]
    ensures Flat(shape, c[j := c[j] + 1]) == Flat(shape, c) + Strides(shape)[j]
  {
    hide Dot, Strides;
    DotBump(c, step, j, 1);
    DotBump(c, Strides(shape), j, 1);
  }

  lemma FirstStride(shape: seq<nat>)
    requires |shape| >= 1
    ensures shape[0] * Strides(shape)[0] == Size(shape)
  {}

  /** Setting a coordinate that reached its extent back to 0. */
  lemma Wrap(shape: seq<nat>, step: seq<nat>, c: seq<nat>, j: nat)
    requires |shape| == |step| == |c| && j < |c| && c[j] == shape[j]
    ensures Dot(c[j := 0], step) == Dot(c, step) - step[j] * shape[j]
    ensures Flat(shape, c[j := 0]) == Flat(shape, c) - shape[j] * Strides(shape)[j]
  {
    hide Dot, Strides;
    var down: int := -(c[j] as int);
    DotBump(c, step, j, down);
    DotBump(c, Strides(shape), j, down);
    MulNegate(c[j], step[j]);
    MulNegate(c[j], Strides(shape)[j]);
  }

  /** The walk: one element after another, the input index stepped instead of rebuilt. */
  method TransposeWalk(src: seq<Element>, shape: seq<nat>, perm: seq<nat>, junk: Element) returns (dst: seq<Element>)
    requires |perm| == |shape| >= 1 && IsPermutation(perm) && |src| == Size(shape)
    requires forall a :: 0 <= a < |shape| ==> shape[a] >= 1
    ensures forall a :: 0 <= a < |perm| ==> perm[a] < |shape|
    ensures IsPermuted(src, dst, shape, perm)
  {
    PermutationInRange(perm);
    var outShape := Permuted(shape, perm);
    var strides := InputStrides(shape);
    var step := Permuted(strides, perm);
    var elements := |src|;
    PermutedSize(shape, perm);
    dst := seq(elements, _ => junk);
    var c := seq(|shape|, _ => 0);
    var at: int := 0;
    ZeroDot(c, step);
    ZeroDot(c, Strides(outShape));
    for n := 0 to elements
      invariant |dst| == elements && |c| == |shape|
      invariant n < elements ==> at >= 0
      invariant Walked(src, dst, outShape, step, n, c, if n < elements then at else 0)
    {
      WalkReads(src, shape, perm, c);
      ghost var before := dst;
      dst := dst[n := src[at]];
      WalkStep(src, before, dst, outShape, step, n, c, at);
      c, at := Advance(outShape, step, c, at);
    }
    forall d | InBox(shape, d) ensures Moves(src, dst, shape, perm, d) {
      WalkMoves(src, dst, shape, perm, d);
    }
  }

  lemma PermutedSize(shape: seq<nat>, perm: seq<nat>)
    requires |perm| == |shape| && IsPermutation(perm) && forall a :: 0 <= a < |perm| ==> perm[a] < |shape|
    ensures Size(Permuted(shape, perm)) == Size(shape)
  {
    PermutedBag(shape, perm, Identity(|perm|));
    assert Permuted(shape, Identity(|perm|)) == shape;
    SizeOfSame(Permuted(shape, perm), shape);
  }

  lemma {:induction false} SizeRemove(t: seq<nat>, k: nat)
    requires k < |t|
    ensures Size(t) == t[k] * Size(t[..k] + t[k + 1..])
  {
    assert t == t[..k] + ([t[k]] + t[k + 1..]);
    SizeAppend(t[..k], [t[k]] + t[k + 1..]);
    SizeAppend([t[k]], t[k + 1..]);
    SizeAppend(t[..k], t[k + 1..]);
    assert [t[k]][1..] == [];
    var a, b, c := Size(t[..k]), t[k], Size(t[k + 1..]);
    assert Size([t[k]]) == b;
    assert a * (b * c) == b * (a * c) by { MulAssoc(a, b, c); MulAssoc(b, a, c); }
  }

  lemma {:induction false} SizeOfSame(a: seq<nat>, b: seq<nat>)
    requires multiset(a) == multiset(b)
    ensures Size(a) == Size(b)
  {
    if |a| == 0 {
      assert |multiset(b)| == 0;
    } else {
      assert a[0] in multiset(b);
      var k :| 0 <= k < |b| && b[k] == a[0];
      var rest := b[..k] + b[k + 1..];
      RemoveOne(a, b, k);
      SizeRemove(b, k);
      SizeOfSame(a[1..], rest);
    }
  }

  lemma {:induction false} ZeroDot(c: seq<nat>, w: seq<nat>)
    requires |c| == |w| && forall a :: 0 <= a < |c| ==> c[a] == 0
    ensures Dot(c, w) == 0
  {
    if |c| > 0 { ZeroDot(c[1..], w[1..]); }
  }

  /** Output coordinates back to the input's. */
  lemma Unpermuted(o: seq<nat>, perm: seq<nat>) returns (d: seq<nat>)
    requires |o| == |perm| && IsPermutation(perm) && forall a :: 0 <= a < |perm| ==> perm[a] < |perm|
    ensures |d| == |perm| && Permuted(d, perm) == o
    ensures forall j :: 0 <= j < |d| ==> j in perm && d[j] == o[Position(perm, j)]
  {
    forall j | 0 <= j < |perm| ensures j in perm {
      assert Identity(|perm|)[j] == j;
      assert j in multiset(Identity(|perm|));
    }
    d := seq(|perm|, j requires 0 <= j < |perm| => o[Position(perm, j)]);
    forall a | 0 <= a < |perm| ensures d[perm[a]] == o[a] { OnePosition(perm, a, Position(perm, perm[a])); }
  }

  function Position(perm: seq<nat>, j: nat): (a: nat)
    requires j in perm
    ensures a < |perm| && perm[a] == j
  {
    if perm[0] == j then 0 else 1 + Position(perm[1..], j)
  }

  /** A permutation lists no axis twice. */
  lemma OnePosition(perm: seq<nat>, a: nat, b: nat)
    requires IsPermutation(perm) && a < |perm| && b < |perm| && perm[a] == perm[b]
    ensures a == b
  {
    var lo, hi := Min(a, b), Max(a, b);
    if lo < hi {
      assert perm == perm[..lo] + [perm[lo]] + perm[lo + 1..hi] + [perm[hi]] + perm[hi + 1..];
      assert multiset(perm)[perm[a]] >= 2;
      IdentityOnce(|perm|, perm[a]);
    }
  }

  lemma {:induction false} IdentityOnce(n: nat, j: nat)
    ensures multiset(Identity(n))[j] <= 1
  {
    if n > 0 {
      IdentityOnce(n - 1, j);
      assert Identity(n) == Identity(n - 1) + [n - 1];
      assert n - 1 !in Identity(n - 1);
    }
  }

  /** The walk's input index is inside the input. */
  lemma WalkReads(src: seq<Element>, shape: seq<nat>, perm: seq<nat>, c: seq<nat>)
    requires |perm| == |shape| && IsPermutation(perm) && (forall a :: 0 <= a < |perm| ==> perm[a] < |shape|)
    requires InBox(Permuted(shape, perm), c) && |src| == Size(shape)
    ensures Dot(c, Permuted(Strides(shape), perm)) < |src|
  {
    var d := Unpermuted(c, perm);
    assert InBox(shape, d) by {
      forall j | 0 <= j < |d| ensures d[j] < shape[j] {
        assert Permuted(shape, perm)[Position(perm, j)] == shape[j];
      }
    }
    DotPermuted(d, Strides(shape), perm);
    FlatInRange(shape, d);
  }

  /** One element copied at n leaves everything below n + 1 copied. */
  lemma WalkStep(src: seq<Element>, before: seq<Element>, dst: seq<Element>, shape: seq<nat>, step: seq<nat>, n: nat, c: seq<nat>, at: nat)
    requires |step| == |shape| == |c| && |before| == Size(shape) && n < Size(shape) && at < |src|
    requires Walked(src, before, shape, step, n, c, at) && dst == before[n := src[at]]
    ensures forall o :: InBox(shape, o) && Flat(shape, o) < n + 1 ==> Copied(src, dst, shape, step, o)
  {
    forall o | InBox(shape, o) && Flat(shape, o) < n + 1 ensures Copied(src, dst, shape, step, o) {
      if Flat(shape, o) == n { FlatInjective(shape, o, c); } else { assert Copied(src, before, shape, step, o); }
    }
  }

  lemma WalkMoves(src: seq<Element>, dst: seq<Element>, shape: seq<nat>, perm: seq<nat>, d: seq<nat>)
    requires |perm| == |shape| && IsPermutation(perm) && (forall a :: 0 <= a < |perm| ==> perm[a] < |shape|)
    requires InBox(shape, d) && |src| == |dst| == Size(shape)
    requires forall o :: InBox(Permuted(shape, perm), o) && Flat(Permuted(shape, perm), o) < |src| ==>
      Copied(src, dst, Permuted(shape, perm), Permuted(Strides(shape), perm), o)
    ensures Moves(src, dst, shape, perm, d)
  {
    hide Size, Dot, Strides;
    var o := Permuted(d, perm);
    assert InBox(Permuted(shape, perm), o);
    PermutedSize(shape, perm);
    FlatInRange(Permuted(shape, perm), o);
    DotPermuted(d, Strides(shape), perm);
    assert Copied(src, dst, Permuted(shape, perm), Permuted(Strides(shape), perm), o);
  }
}
