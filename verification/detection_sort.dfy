/**
 * The two argsorts of detection: a bottom-up merge sort and a partial
 * selection sort. Both order by decreasing value, equal values by index.
 */
module DetectionSort {
  import opened Rows

  /** Index a comes before index b: a larger value, or an equal one and a smaller index. */
  predicate Precedes(values: seq<real>, a: nat, b: nat)
    requires a < |values| && b < |values|
  {
    values[a] > values[b] || (values[a] == values[b] && a < b)
  }

  /** Positions [lo, hi) of s hold the indices lo up to hi, in order: they are in range and each precedes the next ones. */
  predicate InOrder(values: seq<real>, s: seq<nat>, lo: nat, hi: nat) {
    && lo <= hi <= |s| && hi <= |values|
    && (forall i :: lo <= i < hi ==> lo <= s[i] < hi)
    && (forall i, j :: lo <= i < j < hi ==> Precedes(values, s[i], s[j]))
  }

  /** Block q of width w. */
  predicate BlockInOrder(values: seq<real>, s: seq<nat>, w: nat, q: nat) {
    InOrder(values, s, Min(q * w, |values|), Min(q * w + w, |values|))
  }

  predicate BlocksInOrder(values: seq<real>, s: seq<nat>, w: nat, m: nat) {
    |s| == |values| && forall q :: 0 <= q < m ==> BlockInOrder(values, s, w, q)
  }

  /** Bottom-up merges of blocks of twice the width, until one block is left: a stable descending order of all the indices. */
  method Argsort(values: seq<real>, indices: array<nat>, buffer: array<nat>)
    requires indices.Length == buffer.Length == |values| && indices != buffer
    modifies indices, buffer
    ensures InOrder(values, indices[..], 0, |values|)
  {
    var n := |values|;
    for i := 0 to n
      invariant forall k :: 0 <= k < i ==> indices[k] == k
    {
      indices[i] := i;
    }
    var width := 1;
    SingleBlocks(values, indices[..]);
    while width < n
      invariant width >= 1 && BlocksInOrder(values, indices[..], width, n)
      decreases n - width
    {
      MergePass(values, indices, buffer, width);
      CopyBack(indices, buffer);
      width := 2 * width;
    }
    if n > 0 { assert BlockInOrder(values, indices[..], width, 0); }
  }

  lemma SingleBlocks(values: seq<real>, s: seq<nat>)
    requires |s| == |values| && forall k :: 0 <= k < |s| ==> s[k] == k
    ensures BlocksInOrder(values, s, 1, |values|)
  {}

  method CopyBack(indices: array<nat>, buffer: array<nat>)
    requires indices.Length == buffer.Length && indices != buffer
    modifies indices
    ensures indices[..] == buffer[..]
  {
    for i := 0 to indices.Length
      invariant indices[..i] == buffer[..i]
    {
      indices[i] := buffer[i];
    }
  }

  /** Merges every pair of blocks into the buffer. */
  method MergePass(values: seq<real>, indices: array<nat>, buffer: array<nat>, width: nat)
    requires indices.Length == buffer.Length == |values| && indices != buffer && 1 <= width < |values|
    requires BlocksInOrder(values, indices[..], width, |values|)
    modifies buffer
    ensures BlocksInOrder(values, buffer[..], 2 * width, |values|)
  {
    hide InOrder;
    var n := |values|;
    var lo := 0;
    ghost var q := 0;
    while lo < n
      invariant 0 <= q <= n && lo == q * (2 * width)
      invariant BlocksInOrder(values, buffer[..], 2 * width, q)
      decreases n - lo
    {
      var mid := if n - lo > width then lo + width else n;
      var hi := if n - mid > width then mid + width else n;
      BlockBounds(q, width, n);
      assert BlockInOrder(values, indices[..], width, 2 * q);
      if 2 * q + 1 < n { assert BlockInOrder(values, indices[..], width, 2 * q + 1); } else { EmptyInOrder(values, indices[..], n); }
      ghost var before := buffer[..];
      Merge(values, indices, buffer, lo, mid, hi);
      forall b | 0 <= b < q ensures BlockInOrder(values, buffer[..], 2 * width, b) {
        BlockKept(values, before, buffer[..], 2 * width, b, q, lo);
      }
      lo := lo + 2 * width;
      q := q + 1;
    }
    forall b | q <= b < n ensures BlockInOrder(values, buffer[..], 2 * width, b) {
      MulOrder(q, b, 2 * width);
      EmptyInOrder(values, buffer[..], n);
    }
  }

  lemma BlockBounds(q: nat, width: nat, n: nat)
    requires width >= 1 && q * (2 * width) < n
    ensures (2 * q) * width == q * (2 * width) && (2 * q + 1) * width == q * (2 * width) + width
    ensures q <= q * (2 * width) && 2 * q < n
    ensures 2 * q + 1 >= n ==> q * (2 * width) + width >= n
    ensures (q + 1) * (2 * width) == q * (2 * width) + 2 * width
  {
    MulAssoc(q, 2, width);
    assert q * 2 == 2 * q;
    MulSub(2 * q, -1, width);
    MulSub(q, -1, 2 * width);
    MulOrder(1, width, 2 * q);
    assert 2 * q * width == width * (2 * q);
  }

  lemma EmptyInOrder(values: seq<real>, s: seq<nat>, n: nat)
    requires n == |values| == |s|
    ensures InOrder(values, s, n, n)
  {}

  lemma BlockKept(values: seq<real>, before: seq<nat>, after: seq<nat>, w: nat, b: nat, q: nat, lo: nat)
    requires |before| == |after| == |values| && b < q && lo == q * w && BlockInOrder(values, before, w, b)
    requires forall i :: 0 <= i < lo && i < |after| ==> after[i] == before[i]
    ensures BlockInOrder(values, after, w, b)
  {
    MulOrder(b + 1, q, w);
    MulSub(b, -1, w);
    InOrderKept(values, before, after, Min(b * w, |values|), Min(b * w + w, |values|));
  }

  lemma InOrderKept(values: seq<real>, before: seq<nat>, after: seq<nat>, lo: nat, hi: nat)
    requires InOrder(values, before, lo, hi) && |after| == |before| && forall i :: lo <= i < hi ==> after[i] == before[i]
    ensures InOrder(values, after, lo, hi)
  {}

  /** What a merge has taken so far: in order, and ahead of everything it has not taken. */
  ghost predicate Merging(values: seq<real>, s: seq<nat>, buf: seq<nat>, lo: nat, mid: nat, hi: nat, left: nat, right: nat, k: nat) {
    && lo <= left <= mid <= right <= hi <= |values| == |s| == |buf| && k == left + right - mid
    && (forall i :: lo <= i < k ==> lo <= buf[i] < hi)
    && (forall i, j :: lo <= i < j < k ==> Precedes(values, buf[i], buf[j]))
    && (forall i, j :: lo <= i < k && left <= j < mid ==> s[j] < |values| && Precedes(values, buf[i], s[j]))
    && (forall i, j :: lo <= i < k && right <= j < hi ==> s[j] < |values| && Precedes(values, buf[i], s[j]))
  }

  method Merge(values: seq<real>, indices: array<nat>, buffer: array<nat>, lo: nat, mid: nat, hi: nat)
    requires indices.Length == buffer.Length == |values| && indices != buffer && lo <= mid <= hi <= |values|
    requires InOrder(values, indices[..], lo, mid) && InOrder(values, indices[..], mid, hi)
    modifies buffer
    ensures InOrder(values, buffer[..], lo, hi)
    ensures forall i :: 0 <= i < |values| && !(lo <= i < hi) ==> buffer[i] == old(buffer[i])
  {
    var left: nat, right: nat := lo, mid;
    for k := lo to hi
      invariant Merging(values, indices[..], buffer[..], lo, mid, hi, left, right, k)
      invariant forall i :: 0 <= i < |values| && !(lo <= i < hi) ==> buffer[i] == old(buffer[i])
    {
      if left < mid && (right >= hi || !(values[indices[right]] > values[indices[left]])) {
        TakeLeft(values, indices[..], buffer[..], lo, mid, hi, left, right, k);
        buffer[k] := indices[left];
        left := left + 1;
      } else {
        TakeRight(values, indices[..], buffer[..], lo, mid, hi, left, right, k);
        buffer[k] := indices[right];
        right := right + 1;
      }
    }
  }

  lemma TakeLeft(values: seq<real>, s: seq<nat>, buf: seq<nat>, lo: nat, mid: nat, hi: nat, left: nat, right: nat, k: nat)
    requires InOrder(values, s, lo, mid) && InOrder(values, s, mid, hi)
    requires Merging(values, s, buf, lo, mid, hi, left, right, k) && left < mid
    requires right < hi ==> values[s[right]] <= values[s[left]]
    ensures Merging(values, s, buf[k := s[left]], lo, mid, hi, left + 1, right, k + 1)
  {
    forall j | right <= j < hi ensures Precedes(values, s[left], s[j]) {
      if right < j { assert Precedes(values, s[right], s[j]); }
    }
  }

  lemma TakeRight(values: seq<real>, s: seq<nat>, buf: seq<nat>, lo: nat, mid: nat, hi: nat, left: nat, right: nat, k: nat)
    requires InOrder(values, s, lo, mid) && InOrder(values, s, mid, hi)
    requires Merging(values, s, buf, lo, mid, hi, left, right, k) && right < hi
    requires left < mid ==> values[s[right]] > values[s[left]]
    ensures Merging(values, s, buf[k := s[right]], lo, mid, hi, left, right + 1, k + 1)
  {
    forall j | left <= j < mid ensures Precedes(values, s[right], s[j]) {
      if left < j { assert Precedes(values, s[left], s[j]); }
    }
  }

  /** s lists every index once: at[i] is where i is. */
  predicate Permutation(s: seq<nat>, at: seq<nat>, n: nat) {
    && |s| == |at| == n
    && (forall k :: 0 <= k < n ==> s[k] < n && at[s[k]] == k)
    && (forall i :: 0 <= i < n ==> at[i] < n && s[at[i]] == i)
  }

  /** The first r of s precede everything after them. */
  predicate FirstInOrder(values: seq<real>, s: seq<nat>, r: nat) {
    && r <= |s| == |values| && (forall k :: 0 <= k < |s| ==> s[k] < |values|)
    && forall i, j :: 0 <= i < r && i < j < |s| ==> Precedes(values, s[i], s[j])
  }

  /** The first `count` of the order, the rest in any order. */
  method PartialArgsort(values: seq<real>, count: nat, indices: array<nat>) returns (ghost at: seq<nat>)
    requires count <= |values| == indices.Length
    modifies indices
    ensures Permutation(indices[..], at, |values|) && FirstInOrder(values, indices[..], count)
  {
    var n := |values|;
    for i := 0 to n
      invariant forall k :: 0 <= k < i ==> indices[k] == k
    {
      indices[i] := i;
    }
    at := indices[..];
    for r := 0 to count
      invariant Permutation(indices[..], at, n) && FirstInOrder(values, indices[..], r)
    {
      var best := Best(values, indices, r, at);
      ghost var s := indices[..];
      SwapKeeps(values, s, at, r, best);
      at := at[s[r] := best][s[best] := r];
      var held := indices[r];
      indices[r] := indices[best];
      indices[best] := held;
      assert indices[..] == s[r := s[best]][best := s[r]];
    }
  }

  /** The position from r on whose index precedes all the others there. */
  method Best(values: seq<real>, indices: array<nat>, r: nat, ghost at: seq<nat>) returns (best: nat)
    requires r < indices.Length == |values| && Permutation(indices[..], at, |values|)
    ensures r <= best < |values|
    ensures forall k :: r <= k < |values| && k != best ==> Precedes(values, indices[best], indices[k])
  {
    best := r;
    for k := r + 1 to |values|
      invariant r <= best < k
      invariant forall i :: r <= i < k && i != best ==> Precedes(values, indices[best], indices[i])
    {
      var a, b := indices[k], indices[best];
      assert at[a] == k && at[b] == best;
      if values[a] > values[b] || (!(values[a] < values[b]) && a < b) { best := k; }
    }
  }

  lemma SwapKeeps(values: seq<real>, s: seq<nat>, at: seq<nat>, r: nat, best: nat)
    requires Permutation(s, at, |values|) && FirstInOrder(values, s, r) && r <= best < |s|
    requires forall k :: r <= k < |s| && k != best ==> Precedes(values, s[best], s[k])
    ensures Permutation(s[r := s[best]][best := s[r]], at[s[r] := best][s[best] := r], |values|)
    ensures FirstInOrder(values, s[r := s[best]][best := s[r]], r + 1)
  {}

  // The order as a definition: one index after another, each put in its place.

  /** Puts index i, larger than all of s, behind those it does not beat. */
  function Insert(values: seq<real>, s: seq<nat>, i: nat): (r: seq<nat>)
    requires i < |values| && forall k :: 0 <= k < |s| ==> s[k] < |values|
    ensures |r| == |s| + 1
    ensures forall k :: 0 <= k < |r| ==> r[k] < |values|
  {
    if |s| == 0 || values[s[|s| - 1]] >= values[i] then s + [i]
    else Insert(values, s[..|s| - 1], i) + [s[|s| - 1]]
  }

  /** The first n indices in order. */
  function Order(values: seq<real>, n: nat): (r: seq<nat>)
    requires n <= |values|
    ensures |r| == n
    ensures forall k :: 0 <= k < n ==> r[k] < |values|
  {
    if n == 0 then [] else Insert(values, Order(values, n - 1), n - 1)
  }

  /** s is ordered, and lists exactly the indices below n. */
  ghost predicate IsOrder(values: seq<real>, s: seq<nat>, n: nat) {
    && |s| == n <= |values|
    && (forall k :: 0 <= k < n ==> s[k] < n)
    && (forall i, j :: 0 <= i < j < n ==> Precedes(values, s[i], s[j]))
    && (forall i: nat :: i < n ==> i in s)
  }

  lemma {:induction false} InsertOrders(values: seq<real>, s: seq<nat>, i: nat)
    requires i < |values| && (forall k :: 0 <= k < |s| ==> s[k] < i)
    requires forall a, b :: 0 <= a < b < |s| ==> Precedes(values, s[a], s[b])
    ensures var r := Insert(values, s, i);
      && (forall k :: 0 <= k < |r| ==> r[k] <= i)
      && (forall a, b :: 0 <= a < b < |r| ==> Precedes(values, r[a], r[b]))
      && i in r && (forall x :: x in s ==> x in r) && (forall x :: x in r ==> x == i || x in s)
  {
    var r := Insert(values, s, i);
    if |s| == 0 || values[s[|s| - 1]] >= values[i] {
      forall a | 0 <= a < |s| ensures Precedes(values, s[a], i) {
        if a < |s| - 1 { assert Precedes(values, s[a], s[|s| - 1]); }
      }
    } else {
      var most, last := s[..|s| - 1], s[|s| - 1];
      InsertOrders(values, most, i);
      var m := Insert(values, most, i);
      forall a | 0 <= a < |m| ensures Precedes(values, m[a], last) {
        assert m[a] in m;
        if m[a] != i {
          var k :| 0 <= k < |most| && most[k] == m[a];
          assert Precedes(values, s[k], s[|s| - 1]);
        }
      }
      forall x | x in s ensures x in r { if x != last { assert x in most; } }
    }
  }

  lemma {:induction false} OrderIsOrder(values: seq<real>, n: nat)
    requires n <= |values|
    ensures IsOrder(values, Order(values, n), n)
  {
    if n > 0 {
      OrderIsOrder(values, n - 1);
      InsertOrders(values, Order(values, n - 1), n - 1);
    }
  }

  /** Any listing whose first r are ahead of the rest starts as the order does. */
  lemma {:induction false} FirstOfOrder(values: seq<real>, s: seq<nat>, at: seq<nat>, r: nat)
    requires Permutation(s, at, |values|) && FirstInOrder(values, s, r)
    ensures s[..r] == Order(values, |values|)[..r]
  {
    if r > 0 {
      var o := Order(values, |values|);
      FirstOfOrder(values, s, at, r - 1);
      OrderIsOrder(values, |values|);
      forall i | 0 <= i < r - 1 ensures s[i] == o[i] { assert s[..r - 1][i] == o[..r - 1][i]; }
      hide Order;
      NextSame(values, s, at, o, r - 1);
      assert s[..r] == s[..r - 1] + [s[r - 1]] && o[..r] == o[..r - 1] + [o[r - 1]];
    }
  }

  /** Two listings that agree below k and have the least of the rest at k agree at k. */
  lemma NextSame(values: seq<real>, s: seq<nat>, at: seq<nat>, o: seq<nat>, k: nat)
    requires Permutation(s, at, |values|) && k < |values| && IsOrder(values, o, |values|)
    requires forall i :: 0 <= i < k ==> s[i] == o[i]
    requires forall j :: k < j < |s| ==> Precedes(values, s[k], s[j])
    ensures s[k] == o[k]
  {
    assert s[k] in o;
    var j :| 0 <= j < |o| && o[j] == s[k];
    forall i | 0 <= i < k ensures o[i] != o[k] { assert Precedes(values, o[i], o[k]); }
    forall i | 0 <= i < k ensures s[i] != s[k] { assert at[s[i]] == i && at[s[k]] == k; }
    var i := at[o[k]];
    assert s[i] == o[k] && i >= k && j >= k;
  }

  /** The merge sort's result is the order. */
  lemma SortedIsOrder(values: seq<real>, s: seq<nat>)
    requires |s| == |values| && InOrder(values, s, 0, |values|)
    ensures s == Order(values, |values|)
  {
    var n := |values|;
    SortedCovers(values, s, n);
    var at := seq(n, i requires 0 <= i < n => IndexOf(s, i));
    forall k | 0 <= k < n ensures at[s[k]] == k {
      assert s[at[s[k]]] == s[k];
    }
    FirstOfOrder(values, s, at, n);
    assert s[..n] == s && Order(values, n)[..n] == Order(values, n);
  }

  function IndexOf(s: seq<nat>, i: nat): (k: nat)
    ensures i in s ==> k < |s| && s[k] == i
  {
    if |s| == 0 then 0 else if s[|s| - 1] == i then |s| - 1 else IndexOf(s[..|s| - 1], i)
  }

  /** n ordered indices below n are all of them. */
  lemma SortedCovers(values: seq<real>, s: seq<nat>, n: nat)
    requires |s| == n <= |values| && InOrder(values, s, 0, n)
    ensures forall i: nat :: i < n ==> i in s
  {
    var have := set k | 0 <= k < n :: s[k];
    Below(n);
    Distinct(values, s, n);
    assert have <= UpTo(n);
    SubsetSize(have, UpTo(n));
    forall i: nat | i < n ensures i in s { assert i in have; }
  }

  function UpTo(n: nat): set<nat> { if n == 0 then {} else UpTo(n - 1) + {n - 1} }

  lemma {:induction false} Below(n: nat)
    ensures |UpTo(n)| == n && forall i: nat :: i in UpTo(n) <==> i < n
  {
    if n > 0 { Below(n - 1); }
  }

  lemma {:induction false} Distinct(values: seq<real>, s: seq<nat>, n: nat)
    requires n <= |s| && n <= |values| && (forall k :: 0 <= k < n ==> s[k] < |values|)
    requires forall i, j :: 0 <= i < j < n ==> Precedes(values, s[i], s[j])
    ensures |set k | 0 <= k < n :: s[k]| == n
  {
    if n > 0 {
      Distinct(values, s, n - 1);
      var most := set k | 0 <= k < n - 1 :: s[k];
      assert (set k | 0 <= k < n :: s[k]) == most + {s[n - 1]};
      assert s[n - 1] !in most;
    }
  }

  lemma SubsetSize(a: set<nat>, b: set<nat>)
    requires a <= b && |a| == |b|
    ensures a == b
  {
    assert |b - a| == |b| - |a|;
  }
}
