/**
 * Broadcast operands: the three ways an element-wise kernel indexes an
 * operand, and the same operand under a band of one axis, against the
 * broadcast coordinate that defines them (ONNX Broadcasting document, section
 * "Multidirectional Broadcasting").
 */
module Broadcast {
  import opened Rows
  import opened Permute
  import TransposeBand

  const MAX_RANK: nat := 5

  // The definition.

  function Ones(n: nat): (s: seq<nat>)
    ensures |s| == n
  {
    seq(n, _ => 1)
  }

  function Zeros(n: nat): (s: seq<nat>)
    ensures |s| == n
  {
    seq(n, _ => 0)
  }

  /** An operand's axes are the output's, or 1. */
  predicate Broadcasts(dims: seq<nat>, y: seq<nat>) {
    |dims| == |y| && forall d :: 0 <= d < |y| ==> dims[d] == 1 || dims[d] == y[d]
  }

  predicate Positive(dims: seq<nat>) { forall d :: 0 <= d < |dims| ==> dims[d] >= 1 }

  /** The operand coordinate an output coordinate reads. */
  function Clamped(dims: seq<nat>, o: seq<nat>): (c: seq<nat>)
    requires |dims| == |o|
    ensures |c| == |o|
  {
    seq(|o|, d requires 0 <= d < |o| => if dims[d] == 1 then 0 else o[d])
  }

  /** The operand's own index, its shape not padded: the trailing axes of the output's coordinate. */
  function Source(shape: seq<nat>, o: seq<nat>): nat
    requires |shape| <= |o|
  {
    Flat(shape, Clamped(shape, o[|o| - |shape|..]))
  }

  // The index modes.

  datatype Access = Refused | Dense | Periodic(period: nat) | General(stride: seq<nat>)

  /** The shape, padded in front with 1 to the output's rank. */
  method OperandShape(shape: seq<int>, rank: nat) returns (padded: Option<seq<nat>>)
    ensures padded.None? <==> |shape| > rank || exists d :: 0 <= d < |shape| && shape[d] <= 0
    ensures padded.Some? ==> |padded.value| == rank && Positive(padded.value)
    ensures padded.Some? ==> forall d :: 0 <= d < rank ==> padded.value[d] == if d < rank - |shape| then 1 else shape[d - (rank - |shape|)]
  {
    if |shape| > rank { return None; }
    var dims: seq<nat> := [];
    for d := 0 to rank
      invariant |dims| == d && Positive(dims)
      invariant forall e :: 0 <= e < d ==> dims[e] == if e < rank - |shape| then 1 else shape[e - (rank - |shape|)]
      invariant forall e :: 0 <= e < d - (rank - |shape|) ==> shape[e] > 0
    {
      var extent := if d < rank - |shape| then 1 else shape[d - (rank - |shape|)];
      if extent <= 0 { return None; }
      dims := dims + [extent];
    }
    return Some(dims);
  }

  /** A broadcast axis behind an axis that is not: no repeating block describes it. */
  predicate Inner(dims: seq<nat>, y: seq<nat>)
    requires |dims| == |y|
  {
    exists a: nat, b: nat :: a < b < |y| && dims[a] != 1 && dims[b] != y[b]
  }

  method OperandAccess(dims: seq<nat>, y: seq<nat>) returns (access: Access)
    requires |dims| == |y| && Positive(dims) && Positive(y)
    ensures access.Refused? <==> !Broadcasts(dims, y) || (Inner(dims, y) && |y| > MAX_RANK)
    ensures access.General? <==> Broadcasts(dims, y) && Inner(dims, y) && |y| <= MAX_RANK
    ensures access.Dense? <==> dims == y
    ensures access.General? ==> |access.stride| == MAX_RANK
    ensures !access.Refused? ==> Exact(access, dims, y)
  {
    var rank := |y|;
    for d := 0 to rank
      invariant forall e :: 0 <= e < d ==> dims[e] == 1 || dims[e] == y[e]
    {
      if dims[d] != 1 && dims[d] != y[d] { return Refused; }
    }
    var suffix := rank;
    while suffix > 0 && dims[suffix - 1] == y[suffix - 1]
      invariant 0 <= suffix <= rank && dims[suffix..] == y[suffix..]
    {
      suffix := suffix - 1;
    }
    if suffix == 0 {
      assert dims == dims[0..] == y[0..] == y;
      DenseIsExact(y);
      return Dense;
    }
    var leadingOnes := true;
    for d := 0 to suffix
      invariant leadingOnes <==> forall e :: 0 <= e < d ==> dims[e] == 1
    {
      if dims[d] != 1 { leadingOnes := false; }
    }
    if leadingOnes {
      var period := 1;
      for d := suffix to rank
        invariant period == Size(dims[suffix..d])
      {
        SizeAppend(dims[suffix..d], [dims[d]]);
        assert dims[suffix..d + 1] == dims[suffix..d] + [dims[d]];
        period := period * dims[d];
      }
      assert dims[suffix..rank] == dims[suffix..];
      assert !Inner(dims, y);
      PeriodicIsExact(dims, y, suffix);
      return Periodic(period);
    }
    assert Inner(dims, y) by {
      var a: nat :| a < suffix && dims[a] != 1;
      assert a < suffix - 1;
    }
    if rank > MAX_RANK { return Refused; }
    var stride := GeneralStrides(dims);
    GeneralIsExact(dims, y);
    return General(stride);
  }

  /** The stride of every axis, last first, none for an axis that is broadcast or padding. */
  method GeneralStrides(dims: seq<nat>) returns (strides: seq<nat>)
    requires |dims| <= MAX_RANK
    ensures strides == Zeros(MAX_RANK - |dims|) + Steps(dims, dims)
  {
    hide Size, Steps;
    strides := [];
    var stride: nat := 1;
    var pad := MAX_RANK - |dims|;
    ghost var all := Zeros(pad) + Steps(dims, dims);
    NoAxes(dims);
    var a := MAX_RANK;
    while a > 0
      invariant 0 <= a <= MAX_RANK && strides == all[a..]
      invariant a >= pad ==> stride == Size(dims[a - pad..])
    {
      a := a - 1;
      assert all[a..] == [all[a]] + all[a + 1..];
      if a < pad {
        strides := [0] + strides;
      } else {
        var source := a - pad;
        StepAt(dims, dims, source);
        strides := [if dims[source] == 1 then 0 else stride] + strides;
        stride := stride * dims[source];
      }
    }
  }

  lemma NoAxes(dims: seq<nat>)
    ensures Size(dims[|dims|..]) == 1
  {}

  lemma StepAt(dims: seq<nat>, held: seq<nat>, d: nat)
    requires d < |dims| == |held|
    ensures Steps(dims, held)[d] == if dims[d] == 1 then 0 else Size(held[d + 1..])
    ensures Size(held[d..]) == held[d] * Size(held[d + 1..])
  {
    assert held[d..][1..] == held[d + 1..];
  }

  /** What the stride loop leaves: `dims` says which axes broadcast, `held` what each one counts. */
  function Steps(dims: seq<nat>, held: seq<nat>): (s: seq<nat>)
    requires |dims| == |held|
    ensures |s| == |dims|
  {
    seq(|dims|, d requires 0 <= d < |dims| => if dims[d] == 1 then 0 else Size(held[d + 1..]))
  }

  /** The output's shape as the index loop reads it. */
  function Padded(y: seq<nat>): (p: seq<nat>)
    requires |y| <= MAX_RANK
    ensures |p| == MAX_RANK
  {
    Ones(MAX_RANK - |y|) + y
  }

  /** The digits of i in base `dims`, weighted by `stride`: last axis first. */
  function Digits(dims: seq<nat>, stride: seq<nat>, i: nat): nat
    requires |dims| == |stride| && Positive(dims)
  {
    if |dims| == 0 then 0
    else
      var last := |dims| - 1;
      Digits(dims[..last], stride[..last], i / dims[last]) + (i % dims[last]) * stride[last]
  }

  method GeneralIndex(dims: seq<nat>, stride: seq<nat>, i: nat) returns (index: nat)
    requires |dims| == |stride| && Positive(dims)
    ensures index == Digits(dims, stride, i)
  {
    hide Digits;
    index := 0;
    var rest := i;
    var a := |dims|;
    assert dims[..a] == dims && stride[..a] == stride;
    while a > 0
      invariant 0 <= a <= |dims| && index + Digits(dims[..a], stride[..a], rest) == Digits(dims, stride, i)
    {
      a := a - 1;
      DigitsStep(dims, stride, a, rest);
      index := index + (rest % dims[a]) * stride[a];
      rest := rest / dims[a];
    }
    NoDigits(rest);
  }

  lemma DigitsStep(dims: seq<nat>, stride: seq<nat>, a: nat, rest: nat)
    requires |dims| == |stride| && Positive(dims) && a < |dims|
    ensures Digits(dims[..a + 1], stride[..a + 1], rest) ==
      Digits(dims[..a], stride[..a], rest / dims[a]) + (rest % dims[a]) * stride[a]
  {
    assert dims[..a + 1][..a] == dims[..a] && stride[..a + 1][..a] == stride[..a];
  }

  lemma NoDigits(i: nat)
    ensures Digits([], [], i) == 0
  {}

  predicate Known(access: Access, y: seq<nat>) {
    && !access.Refused? && Positive(y)
    && (access.General? ==> |y| <= MAX_RANK && |access.stride| == MAX_RANK)
    && (access.Periodic? ==> access.period >= 1)
  }

  /** What binary_index returns for output element i. */
  function Index(access: Access, y: seq<nat>, i: nat): nat
    requires Known(access, y)
  {
    match access
    case Dense => i
    case Periodic(p) => i % p
    case General(stride) => Digits(Padded(y), stride, i)
  }

  /** Every output element reads its broadcast coordinate. */
  ghost predicate Exact(access: Access, dims: seq<nat>, y: seq<nat>)
    requires |dims| == |y|
  {
    Known(access, y) && forall o :: InBox(y, o) ==> Index(access, y, Flat(y, o)) == Flat(dims, Clamped(dims, o))
  }

  lemma DenseIsExact(y: seq<nat>)
    requires Positive(y)
    ensures Exact(Dense, y, y)
  {
    forall o | InBox(y, o) ensures Clamped(y, o) == o {}
  }

  lemma PeriodicIsExact(dims: seq<nat>, y: seq<nat>, suffix: nat)
    requires |dims| == |y| && Positive(y) && suffix <= |y| && dims[suffix..] == y[suffix..]
    requires forall e :: 0 <= e < suffix ==> dims[e] == 1
    ensures Exact(Periodic(Size(dims[suffix..])), dims, y)
  {
    var s := y[suffix..];
    SizePositive(s);
    forall o | InBox(y, o) ensures Flat(y, o) % Size(s) == Flat(dims, Clamped(dims, o)) {
      Repeats(dims, y, suffix, o);
    }
  }

  lemma Repeats(dims: seq<nat>, y: seq<nat>, suffix: nat, o: seq<nat>)
    requires |dims| == |y| && suffix <= |y| && dims[suffix..] == y[suffix..] && InBox(y, o)
    requires forall e :: 0 <= e < suffix ==> dims[e] == 1
    ensures Size(y[suffix..]) >= 1 && Flat(y, o) % Size(y[suffix..]) == Flat(dims, Clamped(dims, o))
  {
    hide Flat, Size;
    var s, c := y[suffix..], Clamped(dims, o);
    assert y == y[..suffix] + s && o == o[..suffix] + o[suffix..];
    FlatAppend(y[..suffix], s, o[..suffix], o[suffix..]);
    FlatInRange(s, o[suffix..]);
    LowDigit(Flat(y[..suffix], o[..suffix]), Size(s), Flat(s, o[suffix..]));
    assert dims == dims[..suffix] + s && c == c[..suffix] + o[suffix..];
    FlatAppend(dims[..suffix], s, c[..suffix], o[suffix..]);
    ZeroFlat(dims[..suffix], c[..suffix]);
  }

  lemma ZeroFlat(dims: seq<nat>, c: seq<nat>)
    requires |dims| == |c| && forall a :: 0 <= a < |c| ==> c[a] == 0
    ensures Flat(dims, c) == 0
  {
    ZeroDot(c, Strides(dims));
  }

  lemma LowDigit(q: nat, m: nat, r: nat)
    requires r < m
    ensures (q * m + r) % m == r && (q * m + r) / m == q
  {
    var x := q * m + r;
    assert x == (x / m) * m + x % m;
    LeadingDigit(q, r, x / m, x % m, m);
  }

  lemma {:induction false} SizePositive(s: seq<nat>)
    requires Positive(s)
    ensures Size(s) >= 1
  {
    if |s| > 0 {
      SizePositive(s[1..]);
      MulOrder(1, s[0], Size(s[1..]));
    }
  }

  /** The digits of a coordinate's index are the coordinate. */
  lemma {:induction false} DigitsAreCoordinates(y: seq<nat>, stride: seq<nat>, o: seq<nat>)
    requires InBox(y, o) && |stride| == |y| && Positive(y)
    ensures Digits(y, stride, Flat(y, o)) == Dot(o, stride)
  {
    if |y| > 0 {
      var last := |y| - 1;
      assert y == y[..last] + [y[last]] && o == o[..last] + [o[last]] && stride == stride[..last] + [stride[last]];
      FlatAppend(y[..last], [y[last]], o[..last], [o[last]]);
      OneAxis(y[last], o[last]);
      LowDigit(Flat(y[..last], o[..last]), y[last], o[last]);
      DigitsAreCoordinates(y[..last], stride[..last], o[..last]);
      DotAppend(o[..last], stride[..last], [o[last]], [stride[last]]);
      assert Dot([o[last]], [stride[last]]) == o[last] * stride[last];
    }
  }

  lemma OneAxis(n: nat, x: nat)
    ensures Size([n]) == n && Flat([n], [x]) == x
  {
    assert Strides([n]) == [1];
    assert Dot([x], [1]) == x * 1 + Dot([x][1..], [1][1..]);
  }

  lemma {:induction false} DotAppend(c: seq<nat>, w: seq<nat>, d: seq<nat>, v: seq<nat>)
    requires |c| == |w| && |d| == |v|
    ensures Dot(c + d, w + v) == Dot(c, w) + Dot(d, v)
  {
    if |c| == 0 {
      assert c + d == d && w + v == v;
    } else {
      assert (c + d)[1..] == c[1..] + d && (w + v)[1..] == w[1..] + v;
      DotAppend(c[1..], w[1..], d, v);
    }
  }

  /** Axes of extent 1 in front change nothing. */
  lemma PaddingIsFree(y: seq<nat>, stride: seq<nat>, o: seq<nat>)
    requires InBox(y, o) && |stride| == |y| <= MAX_RANK && Positive(y)
    ensures Digits(Padded(y), Zeros(MAX_RANK - |y|) + stride, Flat(y, o)) == Dot(o, stride)
  {
    hide Flat, Digits, Dot;
    var k := MAX_RANK - |y|;
    FlatAppend(Ones(k), y, Zeros(k), o);
    ZeroFlat(Ones(k), Zeros(k));
    DigitsAreCoordinates(Padded(y), Zeros(k) + stride, Zeros(k) + o);
    DotAppend(Zeros(k), Zeros(k), o, stride);
    ZeroDot(Zeros(k), Zeros(k));
  }

  /** A broadcast axis has no stride, so its coordinate is read as 0. */
  lemma {:induction false} StepsClamp(dims: seq<nat>, held: seq<nat>, o: seq<nat>)
    requires |dims| == |held| == |o|
    ensures Dot(o, Steps(dims, held)) == Flat(held, Clamped(dims, o))
  {
    if |o| > 0 {
      StepsClamp(dims[1..], held[1..], o[1..]);
      assert Steps(dims, held)[1..] == Steps(dims[1..], held[1..]);
      assert Clamped(dims, o)[1..] == Clamped(dims[1..], o[1..]);
      assert Strides(held)[1..] == Strides(held[1..]);
    }
  }

  lemma GeneralIsExact(dims: seq<nat>, y: seq<nat>)
    requires |dims| == |y| <= MAX_RANK && Positive(y)
    ensures Exact(General(Zeros(MAX_RANK - |dims|) + Steps(dims, dims)), dims, y)
  {
    forall o | InBox(y, o) ensures Digits(Padded(y), Zeros(MAX_RANK - |dims|) + Steps(dims, dims), Flat(y, o)) == Flat(dims, Clamped(dims, o)) {
      PaddingIsFree(y, Steps(dims, dims), o);
      StepsClamp(dims, dims, o);
    }
  }

  /** Padding an operand's shape does not move its elements: the padded index is the operand's own. */
  lemma PaddedSource(shape: seq<nat>, dims: seq<nat>, o: seq<nat>)
    requires |shape| <= |o| && dims == Ones(|o| - |shape|) + shape
    ensures Flat(dims, Clamped(dims, o)) == Source(shape, o)
  {
    hide Flat;
    var k := |o| - |shape|;
    assert Clamped(dims, o) == Zeros(k) + Clamped(shape, o[k..]);
    FlatAppend(Ones(k), shape, Zeros(k), Clamped(shape, o[k..]));
    ZeroFlat(Ones(k), Zeros(k));
  }

  /** The shape's axes, matched from the last, are the output's or 1. */
  predicate Trailing(shape: seq<int>, y: seq<nat>) {
    && |shape| <= |y|
    && forall d :: 0 <= d < |shape| ==> shape[d] >= 1 && (shape[d] == 1 || shape[d] == y[|y| - |shape| + d])
  }

  predicate InnerOf(shape: seq<int>, y: seq<nat>)
    requires |shape| <= |y|
  {
    exists a: nat, b: nat :: a < b < |shape| && shape[a] != 1 && shape[b] != y[|y| - |shape| + b]
  }

  lemma PaddedBroadcasts(shape: seq<int>, dims: seq<nat>, y: seq<nat>)
    requires |shape| <= |y| == |dims| && forall d :: 0 <= d < |shape| ==> shape[d] >= 1
    requires forall d :: 0 <= d < |y| ==> dims[d] == if d < |y| - |shape| then 1 else shape[d - (|y| - |shape|)]
    ensures Broadcasts(dims, y) <==> Trailing(shape, y)
    ensures Inner(dims, y) <==> InnerOf(shape, y)
  {
    var k := |y| - |shape|;
    if Broadcasts(dims, y) {
      forall d | 0 <= d < |shape| ensures shape[d] == 1 || shape[d] == y[k + d] { assert dims[k + d] == shape[d]; }
    }
    if Inner(dims, y) {
      var a: nat, b: nat :| a < b < |y| && dims[a] != 1 && dims[b] != y[b];
      assert shape[a - k] != 1 && shape[b - k] != y[k + (b - k)];
    }
    if InnerOf(shape, y) {
      var a: nat, b: nat :| a < b < |shape| && shape[a] != 1 && shape[b] != y[k + b];
      assert dims[k + a] != 1 && dims[k + b] != y[k + b];
    }
  }

  /** The highest rank at which an inner broadcast is read: two operands up to rank 4, SELECT_V2's three up to 5. */
  function GeneralRank(operands: nat): nat { if operands == 3 then 5 else 4 }

  /** A shape broadcasts to the output, and an inner broadcast is within the kernel's rank. */
  ghost predicate Admits(shape: seq<int>, y: seq<nat>, operands: nat) {
    Trailing(shape, y) && (InnerOf(shape, y) ==> |y| <= GeneralRank(operands))
  }

  /**
   * An operand of any shape, any output: the kernel accepts it exactly when its
   * trailing axes broadcast (and an inner broadcast is within the kernel's
   * rank), and every output element reads the element broadcasting names.
   */
  method ReadOperand(shape: seq<int>, y: seq<nat>, operands: nat) returns (access: Access)
    requires Positive(y)
    ensures !access.Refused? ==> |shape| <= |y| && (forall d :: 0 <= d < |shape| ==> shape[d] >= 1) && Known(access, y)
    ensures !access.Refused? ==> forall o :: InBox(y, o) ==> Index(access, y, Flat(y, o)) == Source(Naturals(shape), o)
    ensures access.Refused? <==> !Admits(shape, y, operands)
  {
    var padded := OperandShape(shape, |y|);
    if padded.None? { return Refused; }
    var dims := padded.value;
    access := OperandAccess(dims, y);
    if access.General? && |y| > (if operands == 3 then 5 else 4) { access := Refused; }
    var k := |y| - |shape|;
    assert dims == Ones(k) + Naturals(shape);
    PaddedBroadcasts(shape, dims, y);
    if !access.Refused? {
      forall o | InBox(y, o) ensures Index(access, y, Flat(y, o)) == Source(Naturals(shape), o) {
        PaddedSource(Naturals(shape), dims, o);
      }
    }
  }

  function Naturals(shape: seq<int>): (s: seq<nat>)
    requires forall d :: 0 <= d < |shape| ==> shape[d] >= 1
    ensures |s| == |shape|
  {
    seq(|shape|, d requires 0 <= d < |shape| => shape[d])
  }

  // A two-operand kernel.

  /** The element of an operand that output element i reads. */
  method BinaryIndex(access: Access, y: seq<nat>, i: nat) returns (index: nat)
    requires Known(access, y)
    ensures index == Index(access, y, i)
  {
    if access.General? {
      index := GeneralIndex(Padded(y), access.stride, i);
    } else {
      index := if access.Periodic? then i % access.period else i;
    }
  }

  /** Output element o is f of the elements broadcasting names. */
  ghost predicate ComputedAt(f: (Element, Element) -> Element, a: seq<Element>, sa: seq<nat>, b: seq<Element>, sb: seq<nat>,
                             dst: seq<Element>, y: seq<nat>, o: seq<nat>)
    requires |sa| <= |y| == |o| && |sb| <= |y|
  {
    var at, i, j := Flat(y, o), Source(sa, o), Source(sb, o);
    at < |dst| && i < |a| && j < |b| && dst[at] == f(a[i], b[j])
  }

  /**
   * An element-wise kernel over two operands of any shapes: it runs exactly
   * when both broadcast to the output, and then every output element is f of
   * the elements broadcasting names.
   */
  method ElementWise(f: (Element, Element) -> Element, a: seq<Element>, sa: seq<int>, b: seq<Element>, sb: seq<int>,
                     dst: array<Element>, y: seq<nat>)
    returns (ok: bool)
    requires Positive(y) && dst.Length == Size(y)
    requires (forall d :: 0 <= d < |sa| ==> sa[d] >= 1) ==> |a| == Size(Naturals(sa))
    requires (forall d :: 0 <= d < |sb| ==> sb[d] >= 1) ==> |b| == Size(Naturals(sb))
    modifies dst
    ensures ok <==> Admits(sa, y, 2) && Admits(sb, y, 2)
    ensures !ok ==> dst[..] == old(dst[..])
    ensures ok ==> forall o :: InBox(y, o) ==> ComputedAt(f, a, Naturals(sa), b, Naturals(sb), dst[..], y, o)
  {
    hide Size, Flat, Source, Index, Known, Trailing;
    var first := ReadOperand(sa, y, 2);
    if first.Refused? { return false; }
    var second := ReadOperand(sb, y, 2);
    if second.Refused? { return false; }
    for i := 0 to dst.Length
      invariant forall l :: 0 <= l < i ==>
        Index(first, y, l) < |a| && Index(second, y, l) < |b| && dst[l] == f(a[Index(first, y, l)], b[Index(second, y, l)])
    {
      ghost var o := Coordinate(y, i);
      SourceInRange(sa, y, o);
      SourceInRange(sb, y, o);
      var x := BinaryIndex(first, y, i);
      var z := BinaryIndex(second, y, i);
      dst[i] := f(a[x], b[z]);
    }
    forall o | InBox(y, o) ensures ComputedAt(f, a, Naturals(sa), b, Naturals(sb), dst[..], y, o) {
      FlatInRange(y, o);
    }
    return true;
  }

  /** Every element of a shape has a coordinate. */
  ghost function Coordinate(y: seq<nat>, i: nat): (o: seq<nat>)
    requires Positive(y) && i < Size(y)
    ensures InBox(y, o) && Flat(y, o) == i
  {
    if |y| == 0 then []
    else
      var w := Size(y[1..]);
      SizePositive(y[1..]);
      CoordinateStep(y[0], i, w);
      var o := [i / w] + Coordinate(y[1..], i % w);
      assert o[1..] == Coordinate(y[1..], i % w);
      assert Strides(y)[1..] == Strides(y[1..]);
      o
  }

  lemma CoordinateStep(n: nat, i: nat, w: nat)
    requires w >= 1 && i < n * w
    ensures 0 <= i / w < n && 0 <= i % w < w && i == i / w * w + i % w
  {
    FloorIs(i, w);
    FloorBound(i, w);
    if i / w >= n { MulOrder(n, i / w, w); }
  }

  /** Broadcasting names an element of the operand. */
  lemma SourceInRange(shape: seq<int>, y: seq<nat>, o: seq<nat>)
    requires Trailing(shape, y) && InBox(y, o)
    ensures Source(Naturals(shape), o) < Size(Naturals(shape))
  {
    var s := Naturals(shape);
    var c := Clamped(s, o[|o| - |s|..]);
    assert InBox(s, c);
    FlatInRange(s, c);
  }

  /**
   * The element broadcasting names: of all the operand's coordinates the ones
   * that agree with the output's on every axis the operand is wider than 1.
   */
  lemma SourceIs(shape: seq<int>, y: seq<nat>, o: seq<nat>, c: seq<nat>)
    requires Trailing(shape, y) && InBox(y, o) && InBox(Naturals(shape), c)
    ensures Source(Naturals(shape), o) == Flat(Naturals(shape), c) <==>
      forall d :: 0 <= d < |shape| && shape[d] != 1 ==> c[d] == o[|o| - |shape| + d]
  {
    var s := Naturals(shape);
    var at := Clamped(s, o[|o| - |s|..]);
    assert InBox(s, at);
    if Source(s, o) == Flat(s, c) { FlatInjective(s, c, at); }
    if forall d :: 0 <= d < |shape| && shape[d] != 1 ==> c[d] == o[|o| - |shape| + d] { assert c == at; }
  }

  // Under a band of one axis.

  datatype BandAccess = BandAccess(stride: seq<nat>, shift: nat)

  /** The extents the operand is held in: a tensor that has the axis is packed to the band. */
  function Held(dims: seq<nat>, axis: nat, outH: nat, constant: bool): (h: seq<nat>)
    requires axis < |dims|
    ensures |h| == |dims|
  {
    if constant || dims[axis] == 1 then dims else dims[axis := outH]
  }

  method BandOperand(dims: seq<nat>, axis: nat, origin: nat, outH: nat, constant: bool) returns (r: Option<BandAccess>)
    requires axis < |dims|
    ensures r.None? <==> |dims| > MAX_RANK
    ensures r.Some? ==> r.value.stride == Zeros(MAX_RANK - |dims|) + Steps(dims, Held(dims, axis, outH, constant))
    ensures r.Some? ==> r.value.shift == if constant && dims[axis] != 1 then origin * Size(dims[axis + 1..]) else 0
  {
    hide Size, Steps, Held;
    if |dims| > MAX_RANK { return None; }
    ghost var held := Held(dims, axis, outH, constant);
    var now := dims;
    var strides: seq<nat>, shift: nat, stride: nat := [], 0, 1;
    var pad := MAX_RANK - |dims|;
    ghost var all := Zeros(pad) + Steps(dims, held);
    NoAxes(held);
    var a := MAX_RANK;
    while a > 0
      invariant 0 <= a <= MAX_RANK && strides == all[a..] && |now| == |dims|
      invariant forall e :: 0 <= e < |dims| ==> now[e] == if e < a - pad then dims[e] else held[e]
      invariant a >= pad ==> stride == Size(held[a - pad..])
      invariant shift == if constant && dims[axis] != 1 && axis >= a - pad then origin * Size(dims[axis + 1..]) else 0
    {
      a := a - 1;
      assert all[a..] == [all[a]] + all[a + 1..];
      if a < pad {
        strides := [0] + strides;
      } else {
        var d := a - pad;
        StepAt(dims, held, d);
        HeldAxis(dims, axis, outH, constant, d);
        strides := [if now[d] == 1 then 0 else stride] + strides;
        if d == axis && now[d] != 1 {
          if constant { shift := shift + origin * stride; } else { now := now[d := outH]; }
        }
        stride := stride * now[d];
      }
    }
    return Some(BandAccess(strides, shift));
  }

  lemma HeldAxis(dims: seq<nat>, axis: nat, outH: nat, constant: bool, d: nat)
    requires axis < |dims| && d < |dims|
    ensures var held := Held(dims, axis, outH, constant);
      && held[d] == (if d == axis && !constant && dims[axis] != 1 then outH else dims[d])
      && (constant ==> held == dims)
  {}

  /** The band of an operand that has the axis: its rows [origin, origin + outH), packed. */
  ghost predicate Packed(whole: seq<Element>, held: seq<Element>, dims: seq<nat>, axis: nat, origin: nat, outH: nat)
    requires axis < |dims|
  {
    forall c :: InBox(dims[axis := outH], c) ==> PackedAt(whole, held, dims, axis, origin, outH, c)
  }

  ghost predicate PackedAt(whole: seq<Element>, held: seq<Element>, dims: seq<nat>, axis: nat, origin: nat, outH: nat, c: seq<nat>)
    requires axis < |dims| == |c|
  {
    var at, from := Flat(dims[axis := outH], c), Flat(dims, c[axis := c[axis] + origin]);
    at < |held| && from < |whole| && held[at] == whole[from]
  }

  /** A row band gathered from every stretch is packed. */
  lemma GatherPacks(whole: seq<Element>, held: seq<Element>, dims: seq<nat>, axis: nat, origin: nat, outH: nat, lines: nat, re: nat)
    requires axis < |dims| && lines == Size(dims[..axis]) && re == Size(dims[axis + 1..])
    requires forall l: nat, i: nat, e: nat :: l < lines && i < outH && e < re ==>
      TransposeBand.Gathered(whole, held, dims[axis], origin, outH, re, l, i, e)
    ensures Packed(whole, held, dims, axis, origin, outH)
  {
    forall c | InBox(dims[axis := outH], c) ensures PackedAt(whole, held, dims, axis, origin, outH, c) {
      hide Flat, Size, TransposeBand.Gathered;
      var ahead, behind := dims[..axis], dims[axis + 1..];
      var ca, cb := c[..axis], c[axis + 1..];
      FlatInRange(ahead, ca);
      FlatInRange(behind, cb);
      assert TransposeBand.Gathered(whole, held, dims[axis], origin, outH, Size(behind), Flat(ahead, ca), c[axis], Flat(behind, cb));
      FlatAround(dims[axis := outH], axis, c);
      FlatAround(dims, axis, c[axis := c[axis] + origin]);
      GatheredAt(whole, held, dims, axis, origin, outH, c, Flat(ahead, ca), Flat(behind, cb));
    }
  }

  lemma GatheredAt(whole: seq<Element>, held: seq<Element>, dims: seq<nat>, axis: nat, origin: nat, outH: nat, c: seq<nat>, l: nat, e: nat)
    requires axis < |dims| == |c|
    requires TransposeBand.Gathered(whole, held, dims[axis], origin, outH, Size(dims[axis + 1..]), l, c[axis], e)
    requires Flat(dims[axis := outH], c) == TransposeBand.Cell(l, outH, c[axis], Size(dims[axis + 1..]), e)
    requires Flat(dims, c[axis := c[axis] + origin]) == TransposeBand.Cell(l, dims[axis], c[axis] + origin, Size(dims[axis + 1..]), e)
    ensures PackedAt(whole, held, dims, axis, origin, outH, c)
  {}

  lemma FlatAround(dims: seq<nat>, axis: nat, c: seq<nat>)
    requires axis < |dims| == |c|
    ensures Flat(dims, c) == TransposeBand.Cell(Flat(dims[..axis], c[..axis]), dims[axis], c[axis], Size(dims[axis + 1..]), Flat(dims[axis + 1..], c[axis + 1..]))
  {
    hide Flat, Size;
    var s1, s2, s3 := dims[..axis], [dims[axis]], dims[axis + 1..];
    var c1, c2, c3 := c[..axis], [c[axis]], c[axis + 1..];
    assert dims == s1 + s2 + s3 && c == c1 + c2 + c3;
    FlatAppend(s1 + s2, s3, c1 + c2, c3);
    FlatAppend(s1, s2, c1, c2);
    OneAxis(dims[axis], c[axis]);
  }

  /** What the kernel has of the operand: the whole constant or one-row tensor, or the packed band. */
  ghost predicate HeldFor(whole: seq<Element>, held: seq<Element>, dims: seq<nat>, axis: nat, origin: nat, outH: nat, constant: bool)
    requires axis < |dims|
  {
    if constant || dims[axis] == 1 then held == whole && |whole| == Size(dims) else Packed(whole, held, dims, axis, origin, outH)
  }

  /**
   * Under a band every output element reads the element the whole operation
   * reads at that place: a constant through its shifted base, a tensor through
   * the band it is packed to.
   */
  lemma BandReadsWhole(whole: seq<Element>, held: seq<Element>, dims: seq<nat>, y: seq<nat>, axis: nat, origin: nat, outH: nat, constant: bool,
                       access: BandAccess, o: seq<nat>)
    requires Broadcasts(dims, y) && |y| <= MAX_RANK && axis < |y| && origin + outH <= y[axis] && Positive(y) && outH >= 1
    requires HeldFor(whole, held, dims, axis, origin, outH, constant)
    requires access.stride == Zeros(MAX_RANK - |dims|) + Steps(dims, Held(dims, axis, outH, constant))
    requires access.shift == if constant && dims[axis] != 1 then origin * Size(dims[axis + 1..]) else 0
    requires InBox(y[axis := outH], o)
    ensures var at, from := access.shift + Digits(Padded(y[axis := outH]), access.stride, Flat(y[axis := outH], o)),
                            Flat(dims, Clamped(dims, o[axis := o[axis] + origin]));
      at < |held| && from < |whole| && held[at] == whole[from]
  {
    hide Flat, Digits, Size;
    var h := Held(dims, axis, outH, constant);
    var moved := o[axis := o[axis] + origin];
    PaddingIsFree(y[axis := outH], Steps(dims, h), o);
    StepsClamp(dims, h, o);
    var c := Clamped(dims, o);
    if dims[axis] == 1 {
      assert Clamped(dims, moved) == c;
      FlatInRange(dims, c);
    } else if constant {
      assert Clamped(dims, moved) == c[axis := c[axis] + origin];
      FlatInRange(dims, Clamped(dims, moved));
      ShiftedBase(dims, axis, c, origin);
    } else {
      assert Clamped(dims, moved) == c[axis := c[axis] + origin];
      assert InBox(dims[axis := outH], c);
      assert PackedAt(whole, held, dims, axis, origin, outH, c);
    }
  }

  lemma ShiftedBase(dims: seq<nat>, axis: nat, c: seq<nat>, origin: nat)
    requires axis < |dims| == |c|
    ensures Flat(dims, c[axis := c[axis] + origin]) == origin * Size(dims[axis + 1..]) + Flat(dims, c)
  {
    DotBump(c, Strides(dims), axis, origin);
    StrideIs(dims, axis);
  }

  lemma {:induction false} StrideIs(dims: seq<nat>, axis: nat)
    requires axis < |dims|
    ensures Strides(dims)[axis] == Size(dims[axis + 1..])
  {
    if axis > 0 {
      StrideIs(dims[1..], axis - 1);
      assert dims[1..][axis..] == dims[axis + 1..];
    }
  }
}
