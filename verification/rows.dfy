/**
 * Rows, windows of rows and the height part of the window kernels.
 *
 * A tensor is a sequence of opaque rows along its banded axis. A window
 * operator reads, for output row r, the rows r*stride - padTop + k*dilation;
 * a row outside the tensor is padding. What a kernel does with the rows it
 * reads is an arbitrary function, so every result holds for every kernel.
 */
module Rows {
  type Row(0)

  const UINT16_MAX := 65535
  const UINT32_MAX := 0xFFFF_FFFF

  datatype Option<+T> = None | Some(value: T)

  function Max(a: int, b: int): int { if a >= b then a else b }

  function Min(a: int, b: int): int { if a <= b then a else b }

  /** The height geometry of a convolution or pool; dilation 0 is read as 1 before it gets here. */
  datatype Window = Window(stride: nat, padTop: nat, taps: nat, dilation: nat) {
    /** Rows from the first tap to the last, both included. */
    function Span(): int { (taps - 1) * dilation + 1 }

    /** What the loader establishes of a spatial operator. */
    predicate Valid() {
      stride >= 1 && taps >= 1 && dilation >= 1 && padTop < Span()
    }

    /** The input row tap k of output row r reads. */
    function TapRow(r: int, k: int): int { r * stride - padTop + k * dilation }
  }

  function At<T>(x: seq<T>, i: int): Option<T> {
    if 0 <= i < |x| then Some(x[i]) else None
  }

  /** The rows output row r of a whole-tensor window operator reads. */
  function WindowOf<T>(x: seq<T>, w: Window, r: int): (s: seq<Option<T>>)
    ensures |s| == w.taps
  {
    seq(w.taps, k => At(x, w.TapRow(r, k)))
  }

  /** Tap k of output row r reads the one row that stands k dilations past the padded start of the window, or padding. */
  lemma WindowReads<T>(x: seq<T>, w: Window, r: int, k: nat, i: nat)
    requires k < w.taps && i < |x|
    ensures i + w.padTop == r * w.stride + k * w.dilation ==> WindowOf(x, w, r)[k] == Some(x[i])
    ensures WindowOf(x, w, r)[k].None? <==> !(w.padTop <= r * w.stride + k * w.dilation < w.padTop + |x|)
  {}

  /**
   * The half-open range of taps whose coordinate base + k*dilation is inside
   * [0, extent): the one interval the convolution loops run over.
   */
  method TapRange(base: int, extent: nat, taps: nat, dilation: nat) returns (first: int, last: int)
    requires dilation >= 1
    ensures 0 <= first <= last <= taps
    ensures forall k :: 0 <= k < taps ==> (first <= k < last <==> 0 <= base + k * dilation < extent)
  {
    var lo := 0;
    var hi: int := taps;
    var span := extent - 1 - base;
    if base < 0 {
      lo := (-base + dilation - 1) / dilation;
      CeilingBound(-base, dilation);
      if lo > taps { lo := taps; }
    }
    if span < 0 {
      hi := 0;
    } else {
      var bound := span / dilation + 1;
      FloorBound(span, dilation);
      if bound < hi { hi := bound; }
    }
    if hi < lo { hi := lo; }
    first, last := lo, hi;
    forall k | 0 <= k < taps
      ensures first <= k < last <==> 0 <= base + k * dilation < extent
    {
      MulOrder(k, lo, dilation);
      if base < 0 { CeilingIff(-base, dilation, k); }
      if span >= 0 { FloorIff(span, dilation, k); } else { MulNonNegative(k, dilation); }
    }
  }

  lemma MulNonNegative(a: nat, b: nat)
    ensures a * b >= 0
  {}

  lemma MulOrder(a: int, b: int, d: nat)
    ensures a <= b ==> a * d <= b * d
  {}

  lemma MulAssoc(a: int, b: int, c: int)
    ensures (a * b) * c == a * (b * c)
  {}

  lemma MulSub(a: int, b: int, c: int)
    ensures (a - b) * c == a * c - b * c
  {}

  lemma MulNegate(a: int, b: int)
    ensures (-a) * b == -(a * b)
  {}

  lemma FloorIs(n: int, d: nat)
    requires d >= 1
    ensures (n / d) * d <= n < (n / d) * d + d
  {}

  lemma DivUnique(n: int, q: int, r: int, d: nat)
    requires d >= 1 && n == q * d + r && 0 <= r < d
    ensures n / d == q
  {
    var e := n / d;
    assert n == e * d + n % d;
    MulSub(e, -1, d);
    MulSub(q, -1, d);
    if e < q { MulOrder(e + 1, q, d); }
    if e > q { MulOrder(q + 1, e, d); }
  }

  lemma CeilingBound(n: int, d: nat)
    requires n > 0 && d >= 1
    ensures 0 <= (n + d - 1) / d
  {}

  lemma FloorBound(n: int, d: nat)
    requires n >= 0 && d >= 1
    ensures n / d >= 0
  {}

  /** k is at or past ceil(n / d) exactly when k*d has reached n. */
  lemma CeilingIff(n: int, d: nat, k: int)
    requires n > 0 && d >= 1
    ensures (n + d - 1) / d <= k <==> n <= k * d
  {
    var q := (n + d - 1) / d;
    assert q * d <= n + d - 1 < q * d + d;
    if q <= k {
      MulOrder(q, k, d);
    } else {
      MulOrder(k, q - 1, d);
      assert (q - 1) * d == q * d - d;
    }
  }

  /** k is at or below floor(n / d) exactly when k*d has not passed n. */
  lemma FloorIff(n: int, d: nat, k: int)
    requires n >= 0 && d >= 1
    ensures k <= n / d <==> k * d <= n
  {
    var q := n / d;
    assert q * d <= n < q * d + d;
    if k <= q {
      MulOrder(k, q, d);
    } else {
      MulOrder(q + 1, k, d);
      assert (q + 1) * d == q * d + d;
    }
  }
}
