/**
 * Transposes cut into bands: which permutations are a batch of matrix
 * transposes, and that gathering, transposing and scattering band by band
 * gives the whole permutation.
 *
 * The axes ahead of the swapped pair are a batch, the axes behind it a block
 * that travels with the element. A band cuts either the columns, gathered
 * from every line and written as whole lines of the output, or the rows, read
 * as whole lines and scattered over every line of the output.
 */
module TransposeBand {
  import opened Rows
  import opened Permute

  /** perm is [prefix][A][B][suffix] -> [prefix][B][A][suffix], A of `a` axes and B of `b`, neither empty. */
  predicate Swaps(perm: seq<nat>, prefix: nat, a: nat, b: nat) {
    && a >= 1 && b >= 1 && prefix + a + b <= |perm|
    && forall i :: 0 <= i < |perm| ==> perm[i] == SwappedAxis(prefix, a, b, i)
  }

  function SwappedAxis(prefix: nat, a: nat, b: nat, i: nat): nat {
    if i < prefix || i >= prefix + a + b then i
    else if i < prefix + b then i + a
    else i - b
  }

  datatype Groups = Groups(prefix: nat, split: nat, middle: nat)

  /** Strips the axes that stay at either end, reads where A begins, and checks the middle. */
  method BandGroups(perm: seq<nat>) returns (g: Option<Groups>)
    ensures g.Some? ==> g.value.split <= g.value.middle && Swaps(perm, g.value.prefix, g.value.split, g.value.middle - g.value.split)
    ensures g.None? ==> forall p: nat, a: nat, b: nat :: !Swaps(perm, p, a, b)
  {
    var rank := |perm|;
    if rank < 2 { return None; }
    var prefix: nat := 0;
    while prefix < rank && perm[prefix] == prefix
      invariant prefix <= rank && forall i :: 0 <= i < prefix ==> perm[i] == i
    {
      prefix := prefix + 1;
    }
    forall p: nat, a: nat, b: nat | Swaps(perm, p, a, b) ensures p == prefix && prefix < rank { SwapStarts(perm, p, a, b, prefix); }
    if prefix >= rank { return None; }
    var suffix: nat := 0;
    while suffix < rank - prefix && perm[rank - 1 - suffix] == rank - 1 - suffix
      invariant suffix <= rank - prefix && forall i :: rank - suffix <= i < rank ==> perm[i] == i
    {
      suffix := suffix + 1;
    }
    var middle: int := rank - prefix - suffix;
    forall p: nat, a: nat, b: nat | Swaps(perm, p, a, b) ensures a + b == middle { SwapEnds(perm, p, a, b, rank - suffix); }
    if middle < 2 { return None; }
    if perm[prefix] < prefix { return None; }
    var split: int := perm[prefix] - prefix;
    forall p: nat, a: nat, b: nat | Swaps(perm, p, a, b) ensures a == split { assert perm[prefix] == SwappedAxis(p, a, b, prefix); }
    if split == 0 || split >= middle { return None; }
    for i := 0 to middle
      invariant forall l :: prefix <= l < prefix + i ==> perm[l] == SwappedAxis(prefix, split, middle - split, l)
    {
      var want := if i < middle - split then prefix + split + i else prefix + i - (middle - split);
      assert want == SwappedAxis(prefix, split, middle - split, prefix + i);
      if perm[prefix + i] != want { return None; }
    }
    return Some(Groups(prefix, split, middle));
  }

  /** The first axis that moves is where the pair starts. */
  lemma SwapStarts(perm: seq<nat>, p: nat, a: nat, b: nat, prefix: nat)
    requires Swaps(perm, p, a, b) && prefix <= |perm|
    requires forall i :: 0 <= i < prefix ==> perm[i] == i
    requires prefix < |perm| ==> perm[prefix] != prefix
    ensures p == prefix && prefix < |perm|
  {
    assert perm[p] == SwappedAxis(p, a, b, p) == p + a;
  }

  /** The last axis that moves is where it ends. */
  lemma SwapEnds(perm: seq<nat>, p: nat, a: nat, b: nat, end: nat)
    requires Swaps(perm, p, a, b) && p <= end <= |perm|
    requires forall i :: end <= i < |perm| ==> perm[i] == i
    requires p < end ==> perm[end - 1] != end - 1
    ensures end == p + a + b
  {
    assert perm[p + a + b - 1] == SwappedAxis(p, a, b, p + a + b - 1) == p + a - 1;
  }

  // The matrices.

  /** Row r, column c of matrix n. */
  function Cell(n: nat, rows: nat, r: nat, cols: nat, c: nat): nat { (n * rows + r) * cols + c }

  /** Every matrix of a batch transposed, its elements blocks of `block`. */
  ghost predicate Transposed(src: seq<Element>, dst: seq<Element>, batch: nat, rows: nat, cols: nat, block: nat) {
    forall n: nat, r: nat, c: nat, k: nat :: n < batch && r < rows && c < cols && k < block ==>
      Carried(src, dst, rows, cols, block, n, r, c, k)
  }

  ghost predicate Carried(src: seq<Element>, dst: seq<Element>, rows: nat, cols: nat, block: nat, n: nat, r: nat, c: nat, k: nat) {
    var from, to := Cell(n, rows, r, cols, c) * block + k, Cell(n, cols, c, rows, r) * block + k;
    from < |src| && to < |dst| && dst[to] == src[from]
  }

  /**
   * A swap of two groups of axes is a batch of matrix transposes: the axes
   * ahead are the batch, A the rows, B the columns, and what is behind travels
   * with the element.
   */
  lemma SwapIsTranspose(src: seq<Element>, dst: seq<Element>, shape: seq<nat>, perm: seq<nat>, p: nat, a: nat, b: nat)
    requires |perm| == |shape| && Swaps(perm, p, a, b) && |src| == |dst| == Size(shape)
    requires Transposed(src, dst, Size(shape[..p]), Size(shape[p..p + a]), Size(shape[p + a..p + a + b]), Size(shape[p + a + b..]))
    ensures forall i :: 0 <= i < |perm| ==> perm[i] < |shape|
    ensures IsPermuted(src, dst, shape, perm)
  {
    forall i | 0 <= i < |perm| ensures perm[i] < |shape| { assert perm[i] == SwappedAxis(p, a, b, i); }
    forall c | InBox(shape, c) ensures Moves(src, dst, shape, perm, c) {
      SwapMoves(src, dst, shape, perm, p, a, b, c);
    }
  }

  lemma SwapMoves(src: seq<Element>, dst: seq<Element>, shape: seq<nat>, perm: seq<nat>, p: nat, a: nat, b: nat, c: seq<nat>)
    requires |perm| == |shape| && Swaps(perm, p, a, b) && |src| == |dst| == Size(shape) && InBox(shape, c)
    requires forall i :: 0 <= i < |perm| ==> perm[i] < |shape|
    requires Transposed(src, dst, Size(shape[..p]), Size(shape[p..p + a]), Size(shape[p + a..p + a + b]), Size(shape[p + a + b..]))
    ensures Moves(src, dst, shape, perm, c)
  {
    hide Flat, Size, Carried, Permuted;
    var sp, sa, sb, ss := shape[..p], shape[p..p + a], shape[p + a..p + a + b], shape[p + a + b..];
    var cp, ca, cb, cs := c[..p], c[p..p + a], c[p + a..p + a + b], c[p + a + b..];
    FlatInRange(sp, cp);
    FlatInRange(sa, ca);
    FlatInRange(sb, cb);
    FlatInRange(ss, cs);
    assert shape == sp + sa + sb + ss && c == cp + ca + cb + cs;
    PermutedSwap(shape, perm, p, a, b);
    PermutedSwap(c, perm, p, a, b);
    FlatGroups(sp, sa, sb, ss, cp, ca, cb, cs);
    FlatGroups(sp, sb, sa, ss, cp, cb, ca, cs);
    assert Carried(src, dst, Size(sa), Size(sb), Size(ss), Flat(sp, cp), Flat(sa, ca), Flat(sb, cb), Flat(ss, cs));
    CarriedMoves(src, dst, shape, perm, sa, sb, ss, c, Flat(sp, cp), Flat(sa, ca), Flat(sb, cb), Flat(ss, cs));
  }

  lemma CarriedMoves(src: seq<Element>, dst: seq<Element>, shape: seq<nat>, perm: seq<nat>, sa: seq<nat>, sb: seq<nat>, ss: seq<nat>,
                     c: seq<nat>, n: nat, r: nat, l: nat, k: nat)
    requires |perm| == |shape| == |c| && forall i :: 0 <= i < |perm| ==> perm[i] < |shape|
    requires Carried(src, dst, Size(sa), Size(sb), Size(ss), n, r, l, k)
    requires Flat(shape, c) == Cell(n, Size(sa), r, Size(sb), l) * Size(ss) + k
    requires Flat(Permuted(shape, perm), Permuted(c, perm)) == Cell(n, Size(sb), l, Size(sa), r) * Size(ss) + k
    ensures Moves(src, dst, shape, perm, c)
  {}

  lemma PermutedSwap(x: seq<nat>, perm: seq<nat>, p: nat, a: nat, b: nat)
    requires |x| == |perm| && Swaps(perm, p, a, b) && forall i :: 0 <= i < |perm| ==> perm[i] < |x|
    ensures Permuted(x, perm) == x[..p] + x[p + a..p + a + b] + x[p..p + a] + x[p + a + b..]
  {
    var y := x[..p] + x[p + a..p + a + b] + x[p..p + a] + x[p + a + b..];
    forall i | 0 <= i < |x| ensures Permuted(x, perm)[i] == y[i] { assert perm[i] == SwappedAxis(p, a, b, i); }
  }

  lemma FlatGroups(s1: seq<nat>, s2: seq<nat>, s3: seq<nat>, s4: seq<nat>, c1: seq<nat>, c2: seq<nat>, c3: seq<nat>, c4: seq<nat>)
    requires |c1| == |s1| && |c2| == |s2| && |c3| == |s3| && |c4| == |s4|
    ensures Flat(s1 + s2 + s3 + s4, c1 + c2 + c3 + c4) ==
      Cell(Flat(s1, c1), Size(s2), Flat(s2, c2), Size(s3), Flat(s3, c3)) * Size(s4) + Flat(s4, c4)
  {
    hide Flat, Size;
    FlatAppend(s1 + s2 + s3, s4, c1 + c2 + c3, c4);
    FlatAppend(s1 + s2, s3, c1 + c2, c3);
    FlatAppend(s1, s2, c1, c2);
  }

  // Band by band. A tensor is `lines` stretches of `len` rows, `re` elements a row.

  lemma CellInRange(lines: nat, len: nat, re: nat, l: nat, i: nat, e: nat)
    requires l < lines && i < len && e < re
    ensures Cell(l, len, i, re, e) < lines * len * re
  {
    MulOrder(l + 1, lines, len);
    MulSub(l, -1, len);
    MulOrder(l * len + i + 1, lines * len, re);
    MulSub(l * len + i, -1, re);
  }

  lemma CellInjective(len: nat, re: nat, l: nat, i: nat, e: nat, m: nat, j: nat, f: nat)
    requires i < len && j < len && e < re && f < re && Cell(l, len, i, re, e) == Cell(m, len, j, re, f)
    ensures l == m && i == j && e == f
  {
    LeadingDigit(l * len + i, e, m * len + j, f, re);
    LeadingDigit(l, i, m, j, len);
  }

  /** Rows [start, start + band) of every stretch, packed. */
  method GatherRowBand(whole: seq<Element>, lines: nat, len: nat, start: nat, band: nat, re: nat) returns (buf: seq<Element>)
    requires |whole| == lines * len * re && start + band <= len
    ensures |buf| == lines * band * re
    ensures forall l: nat, i: nat, e: nat :: l < lines && i < band && e < re ==> Gathered(whole, buf, len, start, band, re, l, i, e)
  {
    buf := [];
    for n: nat := 0 to lines
      invariant |buf| == n * band * re
      invariant forall l: nat, i: nat, e: nat :: l < n && i < band && e < re ==> Gathered(whole, buf, len, start, band, re, l, i, e)
    {
      StretchBounds(lines, len, re, n, start, band);
      var from, size := (n * len + start) * re, band * re;
      ghost var before := buf;
      buf := buf + whole[from..from + size];
      StretchStep(n, band, re);
      forall l: nat, i: nat, e: nat | l < n + 1 && i < band && e < re ensures Gathered(whole, buf, len, start, band, re, l, i, e) {
        if l < n { assert Gathered(whole, before, len, start, band, re, l, i, e); }
        else { GatheredNew(whole, before, buf, len, start, band, re, n, i, e); }
      }
    }
  }

  ghost predicate Gathered(whole: seq<Element>, buf: seq<Element>, len: nat, start: nat, band: nat, re: nat, l: nat, i: nat, e: nat) {
    && Cell(l, band, i, re, e) < |buf| && Cell(l, len, start + i, re, e) < |whole|
    && buf[Cell(l, band, i, re, e)] == whole[Cell(l, len, start + i, re, e)]
  }

  lemma StretchBounds(lines: nat, len: nat, re: nat, n: nat, start: nat, band: nat)
    requires n < lines && start + band <= len
    ensures (n * len + start) * re + band * re == (n * len + start + band) * re <= lines * len * re
  {
    MulOrder(n + 1, lines, len);
    MulSub(n, -1, len);
    MulOrder(n * len + start + band, lines * len, re);
    MulSub(n * len + start, 0 - (band as int), re);
    MulNegate(band, re);
  }

  lemma StretchStep(n: nat, band: nat, re: nat)
    ensures (n + 1) * band * re == n * band * re + band * re
  {
    MulSub(n, -1, band);
    MulSub(n * band, 0 - (band as int), re);
    MulNegate(band, re);
  }

  lemma GatheredNew(whole: seq<Element>, before: seq<Element>, buf: seq<Element>, len: nat, start: nat, band: nat, re: nat, n: nat, i: nat, e: nat)
    requires i < band && e < re && |before| == n * band * re
    requires (n * len + start) * re + band * re <= |whole|
    requires buf == before + whole[(n * len + start) * re..(n * len + start) * re + band * re]
    ensures Gathered(whole, buf, len, start, band, re, n, i, e)
  {
    var o := i * re + e;
    MulOrder(i + 1, band, re);
    MulSub(i, -1, re);
    MulSub(n * band, 0 - (i as int), re);
    MulSub(n * len + start, 0 - (i as int), re);
    MulNegate(i, re);
    assert Cell(n, band, i, re, e) == |before| + o;
    assert Cell(n, len, start + i, re, e) == (n * len + start) * re + o;
  }

  /** The mirror: writes a packed band back into rows [start, start + band) of every stretch. */
  method ScatterRowBand(whole: array<Element>, buf: seq<Element>, lines: nat, len: nat, start: nat, band: nat, re: nat)
    requires whole.Length == lines * len * re && |buf| == lines * band * re && start + band <= len
    modifies whole
    ensures forall l: nat, i: nat, e: nat :: l < lines && i < len && e < re ==>
      Scattered(old(whole[..]), whole[..], buf, len, start, band, re, l, i, e)
  {
    hide Scattered, Kept, Cell;
    ghost var before := whole[..];
    AllKept(before, lines, len, re);
    for n: nat := 0 to lines
      invariant forall l: nat, i: nat, e: nat :: l < n && i < len && e < re ==> Scattered(before, whole[..], buf, len, start, band, re, l, i, e)
      invariant forall l: nat, i: nat, e: nat :: n <= l < lines && i < len && e < re ==> Kept(before, whole[..], len, re, l, i, e)
    {
      StretchBounds(lines, len, re, n, start, band);
      StretchBounds(lines, band, re, n, 0, band);
      assert n * band * re == (n * band + 0) * re;
      ghost var there := whole[..];
      CopyIn(whole, (n * len + start) * re, buf, n * band * re, band * re);
      forall l: nat, i: nat, e: nat | l < lines && i < len && e < re
        ensures l < n + 1 ==> Scattered(before, whole[..], buf, len, start, band, re, l, i, e)
        ensures l >= n + 1 ==> Kept(before, whole[..], len, re, l, i, e)
      {
        CellInRange(lines, len, re, l, i, e);
        ScatterStep(before, there, whole[..], buf, lines, len, start, band, re, n, l, i, e, (n * len + start) * re, n * band * re, band * re);
      }
    }
  }

  lemma AllKept(before: seq<Element>, lines: nat, len: nat, re: nat)
    requires |before| == lines * len * re
    ensures forall l: nat, i: nat, e: nat :: l < lines && i < len && e < re ==> Kept(before, before, len, re, l, i, e)
  {
    forall l: nat, i: nat, e: nat | l < lines && i < len && e < re ensures Kept(before, before, len, re, l, i, e) {
      CellInRange(lines, len, re, l, i, e);
    }
  }

  ghost predicate Scattered(before: seq<Element>, whole: seq<Element>, buf: seq<Element>, len: nat, start: nat, band: nat, re: nat, l: nat, i: nat, e: nat) {
    && Cell(l, len, i, re, e) < |whole| == |before|
    && (if start <= i < start + band then
          Cell(l, band, i - start, re, e) < |buf| && whole[Cell(l, len, i, re, e)] == buf[Cell(l, band, i - start, re, e)]
        else whole[Cell(l, len, i, re, e)] == before[Cell(l, len, i, re, e)])
  }

  ghost predicate Kept(before: seq<Element>, whole: seq<Element>, len: nat, re: nat, l: nat, i: nat, e: nat) {
    Cell(l, len, i, re, e) < |whole| == |before| && whole[Cell(l, len, i, re, e)] == before[Cell(l, len, i, re, e)]
  }

  method CopyIn(whole: array<Element>, at: nat, buf: seq<Element>, from: nat, size: nat)
    requires at + size <= whole.Length && from + size <= |buf|
    modifies whole
    ensures forall x :: 0 <= x < whole.Length ==> whole[x] == if at <= x < at + size then buf[from + (x - at)] else old(whole[x])
  {
    for k := 0 to size
      invariant forall x :: 0 <= x < whole.Length ==> whole[x] == if at <= x < at + k then buf[from + (x - at)] else old(whole[x])
    {
      whole[at + k] := buf[from + k];
    }
  }

  lemma ScatterStep(before: seq<Element>, there: seq<Element>, whole: seq<Element>, buf: seq<Element>, lines: nat, len: nat, start: nat, band: nat,
                    re: nat, n: nat, l: nat, i: nat, e: nat, at: nat, from: nat, size: nat)
    requires |whole| == |there| == |before| && from + size <= |buf|
    requires forall x :: 0 <= x < |whole| ==> whole[x] == if at <= x < at + size then buf[from + (x - at)] else there[x]
    requires n < lines && l < lines && i < len && e < re && start + band <= len && Cell(l, len, i, re, e) < |whole|
    requires at == (n * len + start) * re && from == n * band * re && size == band * re
    requires l < n ==> Scattered(before, there, buf, len, start, band, re, l, i, e)
    requires l >= n ==> Kept(before, there, len, re, l, i, e)
    ensures l < n + 1 ==> Scattered(before, whole, buf, len, start, band, re, l, i, e)
    ensures l >= n + 1 ==> Kept(before, whole, len, re, l, i, e)
  {
    InStretch(len, start, band, re, n, l, i, e);
    if l == n && start <= i < start + band {
      MulSub(n * band, start - i, re);
      MulSub(n * len + start, start - i, re);
      MulSub(start, i, re);
    }
  }

  /** A cell is in the copied stretch exactly when it is of that line and row range. */
  lemma InStretch(len: nat, start: nat, band: nat, re: nat, n: nat, l: nat, i: nat, e: nat)
    requires i < len && e < re && start + band <= len
    ensures var at := (n * len + start) * re;
      at <= Cell(l, len, i, re, e) < at + band * re <==> l == n && start <= i < start + band
  {
    var u, v := l * len + i, n * len + start;
    MulSub(v, 0 - (band as int), re);
    MulNegate(band, re);
    if u < v { MulOrder(u + 1, v, re); MulSub(u, -1, re); } else { MulOrder(v, u, re); }
    if u < v + band { MulOrder(u + 1, v + band, re); MulSub(u, -1, re); } else { MulOrder(v + band, u, re); }
    if l < n { MulOrder(l + 1, n, len); MulSub(l, -1, len); }
    if l > n { MulOrder(n + 1, l, len); MulSub(n, -1, len); }
  }

  /** The kernel on a packed slice: every matrix of the batch transposed, a block at a time. */
  method TransposeTile(tile: seq<Element>, batch: nat, rows: nat, cols: nat, block: nat, junk: Element) returns (out: seq<Element>)
    requires |tile| == batch * rows * cols * block
    ensures |out| == |tile|
    ensures Transposed(tile, out, batch, rows, cols, block)
  {
    hide Carried, Cell;
    out := seq(|tile|, _ => junk);
    for n: nat := 0 to batch
      invariant |out| == |tile|
      invariant TurnedTo(tile, out, rows, cols, block, n, 0, 0)
    {
      for r: nat := 0 to rows
        invariant |out| == |tile|
        invariant TurnedTo(tile, out, rows, cols, block, n, r, 0)
      {
        for c: nat := 0 to cols
          invariant |out| == |tile|
          invariant TurnedTo(tile, out, rows, cols, block, n, r, c)
        {
          BlockBounds(batch, rows, cols, block, n, r, c);
          var from, to := Cell(n, rows, r, cols, c) * block, Cell(n, cols, c, rows, r) * block;
          ghost var before := out;
          out := out[..to] + tile[from..from + block] + out[to + block..];
          TurnOne(tile, before, out, rows, cols, block, n, r, c, from, to);
        }
      }
    }
  }

  predicate Ahead(m: nat, s: nat, d: nat, n: nat, r: nat, c: nat) {
    m < n || (m == n && (s < r || (s == r && d < c)))
  }

  ghost predicate TurnedTo(tile: seq<Element>, out: seq<Element>, rows: nat, cols: nat, block: nat, n: nat, r: nat, c: nat) {
    forall m: nat, s: nat, d: nat, k: nat :: Ahead(m, s, d, n, r, c) && s < rows && d < cols && k < block ==>
      Carried(tile, out, rows, cols, block, m, s, d, k)
  }

  lemma BlockBounds(batch: nat, rows: nat, cols: nat, block: nat, n: nat, r: nat, c: nat)
    requires n < batch && r < rows && c < cols
    ensures Cell(n, rows, r, cols, c) * block + block <= batch * rows * cols * block
    ensures Cell(n, cols, c, rows, r) * block + block <= batch * rows * cols * block
  {
    CellInRange(batch, rows, cols, n, r, c);
    CellInRange(batch, cols, rows, n, c, r);
    MulAssoc(batch, rows, cols);
    MulAssoc(batch, cols, rows);
    NextBlock(Cell(n, rows, r, cols, c), batch * rows * cols, block);
    NextBlock(Cell(n, cols, c, rows, r), batch * rows * cols, block);
  }

  lemma NextBlock(a: nat, b: nat, block: nat)
    requires a < b
    ensures a * block + block <= b * block
  {
    MulOrder(a + 1, b, block);
    MulSub(a, -1, block);
  }

  lemma TurnOne(tile: seq<Element>, before: seq<Element>, out: seq<Element>, rows: nat, cols: nat, block: nat, n: nat, r: nat, c: nat,
                from: nat, to: nat)
    requires from + block <= |tile| && to + block <= |before| == |tile|
    requires out == before[..to] + tile[from..from + block] + before[to + block..]
    requires r < rows && c < cols && from == Cell(n, rows, r, cols, c) * block && to == Cell(n, cols, c, rows, r) * block
    requires TurnedTo(tile, before, rows, cols, block, n, r, c)
    ensures TurnedTo(tile, out, rows, cols, block, n, r, c + 1)
  {
    hide Cell;
    forall m: nat, s: nat, d: nat, k: nat | Ahead(m, s, d, n, r, c + 1) && s < rows && d < cols && k < block
      ensures Carried(tile, out, rows, cols, block, m, s, d, k)
    {
      if m == n && s == r && d == c { } else {
        assert Carried(tile, before, rows, cols, block, m, s, d, k);
        var there, here := Cell(m, cols, d, rows, s), Cell(n, cols, c, rows, r);
        if there == here { CellInjective(cols, rows, m, d, s, n, c, r); }
        if there < here { NextBlock(there, here, block); } else { NextBlock(here, there, block); }
      }
    }
  }

  // A tile: one band of columns, or one band of rows.

  /** What is left of dst once columns [start, start + width) have been carried. */
  ghost predicate ColumnDone(src: seq<Element>, before: seq<Element>, dst: seq<Element>, rows: nat, cols: nat, block: nat, start: nat, width: nat,
                             n: nat, r: nat, c: nat, k: nat) {
    if start <= c < start + width then Carried(src, dst, rows, cols, block, n, r, c, k)
    else Unmoved(before, dst, Cell(n, cols, c, rows, r) * block + k)
  }

  ghost predicate RowDone(src: seq<Element>, before: seq<Element>, dst: seq<Element>, rows: nat, cols: nat, block: nat, start: nat, width: nat,
                          n: nat, r: nat, c: nat, k: nat) {
    if start <= r < start + width then Carried(src, dst, rows, cols, block, n, r, c, k)
    else Unmoved(before, dst, Cell(n, cols, c, rows, r) * block + k)
  }

  ghost predicate Unmoved(before: seq<Element>, dst: seq<Element>, at: nat) {
    at < |before| == |dst| && dst[at] == before[at]
  }

  /** A band of columns: gathered from every line, transposed, and written as whole lines of the output. */
  method ColumnTile(src: seq<Element>, dst: array<Element>, batch: nat, rows: nat, cols: nat, block: nat, start: nat, width: nat, junk: Element)
    requires |src| == dst.Length == batch * rows * cols * block && start + width <= cols
    modifies dst
    ensures forall n: nat, r: nat, c: nat, k: nat :: n < batch && r < rows && c < cols && k < block ==>
      ColumnDone(src, old(dst[..]), dst[..], rows, cols, block, start, width, n, r, c, k)
  {
    hide Gathered, Scattered, Carried, ColumnDone, Cell;
    Sizes(batch, rows, cols, width, block);
    ghost var before := dst[..];
    var tile := GatherRowBand(src, batch * rows, cols, start, width, block);
    var out := TransposeTile(tile, batch, rows, width, block, junk);
    ScatterRowBand(dst, out, batch, cols, start, width, rows * block);
    forall n: nat, r: nat, c: nat, k: nat | n < batch && r < rows && c < cols && k < block
      ensures ColumnDone(src, before, dst[..], rows, cols, block, start, width, n, r, c, k)
    {
      Line(batch, rows, n, r);
      NextBlock(r, rows, block);
      assert Scattered(before, dst[..], out, cols, start, width, rows * block, n, c, r * block + k);
      if start <= c < start + width {
        assert Gathered(src, tile, cols, start, width, block, n * rows + r, c - start, k);
        assert Carried(tile, out, rows, width, block, n, r, c - start, k);
      }
      ColumnElement(src, tile, out, before, dst[..], rows, cols, block, start, width, n, r, c, k);
    }
  }

  /** A band of rows: whole lines of the input, transposed, and scattered over every line of the output. */
  method RowTile(src: seq<Element>, dst: array<Element>, batch: nat, rows: nat, cols: nat, block: nat, start: nat, width: nat, junk: Element)
    requires |src| == dst.Length == batch * rows * cols * block && start + width <= rows
    modifies dst
    ensures forall n: nat, r: nat, c: nat, k: nat :: n < batch && r < rows && c < cols && k < block ==>
      RowDone(src, old(dst[..]), dst[..], rows, cols, block, start, width, n, r, c, k)
  {
    hide Gathered, Scattered, Carried, RowDone, Cell;
    Sizes(batch, cols, rows, width, block);
    ghost var before := dst[..];
    var tile := GatherRowBand(src, batch, rows, start, width, cols * block);
    var out := TransposeTile(tile, batch, width, cols, block, junk);
    ScatterRowBand(dst, out, batch * cols, rows, start, width, block);
    forall n: nat, r: nat, c: nat, k: nat | n < batch && r < rows && c < cols && k < block
      ensures RowDone(src, before, dst[..], rows, cols, block, start, width, n, r, c, k)
    {
      Line(batch, cols, n, c);
      NextBlock(c, cols, block);
      assert Scattered(before, dst[..], out, rows, start, width, block, n * cols + c, r, k);
      if start <= r < start + width {
        assert Gathered(src, tile, rows, start, width, cols * block, n, r - start, c * block + k);
        assert Carried(tile, out, width, cols, block, n, r - start, c, k);
      }
      RowElement(src, tile, out, before, dst[..], rows, cols, block, start, width, n, r, c, k);
    }
  }

  lemma Line(batch: nat, rows: nat, n: nat, r: nat)
    requires n < batch && r < rows
    ensures n * rows + r < batch * rows
  {
    NextBlock(n, batch, rows);
  }

  /** The products every transfer of a tile is sized by. */
  lemma Sizes(batch: nat, other: nat, banded: nat, width: nat, block: nat)
    ensures batch * other * banded * block == batch * banded * (other * block) == batch * banded * other * block
    ensures batch * other * width * block == batch * width * (other * block) == batch * width * other * block
  {
    Regroup(batch, other, banded, block);
    Regroup(batch, other, width, block);
  }

  lemma Regroup(a: nat, b: nat, c: nat, d: nat)
    ensures a * b * c * d == a * c * (b * d) == a * c * b * d
  {
    MulAssoc(a, b, c);
    MulAssoc(a, c, b);
    MulAssoc(a * c, b, d);
  }

  /** Splitting a row of blocks names the same element. */
  lemma BlockOfRow(n: nat, len: nat, i: nat, cells: nat, c: nat, block: nat, k: nat)
    ensures Cell(n, len, i, cells * block, c * block + k) == Cell(n, len, i, cells, c) * block + k
  {
    MulAssoc(n * len + i, cells, block);
    MulSub((n * len + i) * cells, -(c as int), block);
    MulNegate(c, block);
  }

  lemma ColumnElement(src: seq<Element>, tile: seq<Element>, out: seq<Element>, before: seq<Element>, dst: seq<Element>, rows: nat, cols: nat, block: nat,
                      start: nat, width: nat, n: nat, r: nat, c: nat, k: nat)
    requires Scattered(before, dst, out, cols, start, width, rows * block, n, c, r * block + k)
    requires start <= c < start + width ==> Gathered(src, tile, cols, start, width, block, n * rows + r, c - start, k)
    requires start <= c < start + width ==> Carried(tile, out, rows, width, block, n, r, c - start, k)
    ensures ColumnDone(src, before, dst, rows, cols, block, start, width, n, r, c, k)
  {
    BlockOfRow(n, cols, c, rows, r, block, k);
    if start <= c < start + width { BlockOfRow(n, width, c - start, rows, r, block, k); }
  }

  lemma RowElement(src: seq<Element>, tile: seq<Element>, out: seq<Element>, before: seq<Element>, dst: seq<Element>, rows: nat, cols: nat, block: nat,
                   start: nat, width: nat, n: nat, r: nat, c: nat, k: nat)
    requires Scattered(before, dst, out, rows, start, width, block, n * cols + c, r, k)
    requires start <= r < start + width ==> Gathered(src, tile, rows, start, width, cols * block, n, r - start, c * block + k)
    requires start <= r < start + width ==> Carried(tile, out, width, cols, block, n, r - start, c, k)
    ensures RowDone(src, before, dst, rows, cols, block, start, width, n, r, c, k)
  {
    if start <= r < start + width {
      BlockOfRow(n, rows, r, cols, c, block, k);
      BlockOfRow(n, width, r - start, cols, c, block, k);
    }
  }

  // The stage.

  datatype TransposeResult = Ok | ErrTile

  /**
   * The whole stage for any band height and either orientation: it runs
   * exactly on the permutations that swap two groups of axes, and leaves the
   * permuted tensor.
   */
  method ExecTransposeBands(src: seq<Element>, dst: array<Element>, shape: seq<nat>, perm: seq<nat>, bandOnCols: bool, band: nat, junk: Element)
    returns (res: TransposeResult)
    requires |perm| == |shape| && |src| == dst.Length == Size(shape) && band >= 1
    modifies dst
    ensures res.ErrTile? <==> forall p: nat, a: nat, b: nat :: !Swaps(perm, p, a, b)
    ensures res.ErrTile? ==> dst[..] == old(dst[..])
    ensures res.Ok? ==> (forall i :: 0 <= i < |perm| ==> perm[i] < |shape|) && IsPermuted(src, dst[..], shape, perm)
  {
    var groups := BandGroups(perm);
    if groups.None? { return ErrTile; }
    var p, a := groups.value.prefix, groups.value.split;
    var b: nat := groups.value.middle - a;
    assert Swaps(perm, p, a, b);
    var batch, rows, cols, block := Size(shape[..p]), Size(shape[p..p + a]), Size(shape[p + a..p + a + b]), Size(shape[p + a + b..]);
    GroupSizes(shape, p, a, b);
    TransposeBands(src, dst, batch, rows, cols, block, bandOnCols, band, junk);
    SwapIsTranspose(src, dst[..], shape, perm, p, a, b);
    return Ok;
  }

  lemma GroupSizes(shape: seq<nat>, p: nat, a: nat, b: nat)
    requires p + a + b <= |shape|
    ensures Size(shape) == Size(shape[..p]) * Size(shape[p..p + a]) * Size(shape[p + a..p + a + b]) * Size(shape[p + a + b..])
  {
    var sp, sa, sb, ss := shape[..p], shape[p..p + a], shape[p + a..p + a + b], shape[p + a + b..];
    assert shape == sp + sa + sb + ss;
    SizeAppend(sp + sa + sb, ss);
    SizeAppend(sp + sa, sb);
    SizeAppend(sp, sa);
  }

  /** The loop over bands. */
  method TransposeBands(src: seq<Element>, dst: array<Element>, batch: nat, rows: nat, cols: nat, block: nat, bandOnCols: bool, band: nat, junk: Element)
    requires |src| == dst.Length == batch * rows * cols * block && band >= 1
    modifies dst
    ensures Transposed(src, dst[..], batch, rows, cols, block)
  {
    hide Carried, Cell;
    var banded := if bandOnCols then cols else rows;
    var start := 0;
    while start < banded
      invariant 0 <= start
      invariant forall n: nat, r: nat, c: nat, k: nat :: n < batch && r < rows && c < cols && k < block && (if bandOnCols then c else r) < start ==>
        Carried(src, dst[..], rows, cols, block, n, r, c, k)
    {
      var end := if banded - start < band then banded else start + band;
      ghost var before := dst[..];
      if bandOnCols {
        ColumnTile(src, dst, batch, rows, cols, block, start, end - start, junk);
      } else {
        RowTile(src, dst, batch, rows, cols, block, start, end - start, junk);
      }
      forall n: nat, r: nat, c: nat, k: nat | n < batch && r < rows && c < cols && k < block && (if bandOnCols then c else r) < end
        ensures Carried(src, dst[..], rows, cols, block, n, r, c, k)
      {
        if bandOnCols { assert ColumnDone(src, before, dst[..], rows, cols, block, start, end - start, n, r, c, k); }
        else { assert RowDone(src, before, dst[..], rows, cols, block, start, end - start, n, r, c, k); }
        if (if bandOnCols then c else r) < start { StillCarried(src, before, dst[..], rows, cols, block, n, r, c, k); }
      }
      start := start + band;
    }
  }

  lemma StillCarried(src: seq<Element>, before: seq<Element>, dst: seq<Element>, rows: nat, cols: nat, block: nat, n: nat, r: nat, c: nat, k: nat)
    requires Carried(src, before, rows, cols, block, n, r, c, k)
    requires Unmoved(before, dst, Cell(n, cols, c, rows, r) * block + k)
    ensures Carried(src, dst, rows, cols, block, n, r, c, k)
  {}
}
