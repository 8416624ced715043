/**
 * Class-by-class non-max suppression, the best detections of all classes kept
 * as it goes. Scores come from a total order; whether one box overlaps
 * another too far is an arbitrary relation.
 */
module Detection {
  import opened Rows
  import opened DetectionSort

  type Box = nat

  // One class.

  /** The boxes below n at or above the threshold, by index. */
  function Candidates(scores: seq<real>, threshold: real, n: nat): (c: seq<Box>)
    requires n <= |scores|
    ensures forall k :: 0 <= k < |c| ==> c[k] < n
  {
    if n == 0 then []
    else Candidates(scores, threshold, n - 1) + if scores[n - 1] >= threshold then [n - 1] else []
  }

  /** The elements of list at the positions `order`, in that order. */
  function Listed<T>(list: seq<T>, order: seq<nat>): (s: seq<T>)
    requires forall k :: 0 <= k < |order| ==> order[k] < |list|
    ensures |s| == |order|
  {
    seq(|order|, k requires 0 <= k < |order| => list[order[k]])
  }

  /** The candidates by decreasing score, equal scores by index. */
  function Ranked(scores: seq<real>, threshold: real): (list: seq<Box>)
    ensures forall k :: 0 <= k < |list| ==> list[k] < |scores|
  {
    var c := Candidates(scores, threshold, |scores|);
    var order := Order(Listed(scores, c), |c|);
    Listed(c, order)
  }

  /** The candidates are exactly the boxes at or above the threshold, each once, by index. */
  lemma {:induction false} CandidatesExact(scores: seq<real>, threshold: real, n: nat)
    requires n <= |scores|
    ensures forall i: Box :: i in Candidates(scores, threshold, n) <==> i < n && scores[i] >= threshold
    ensures Rising(Candidates(scores, threshold, n))
  {
    if n > 0 {
      CandidatesExact(scores, threshold, n - 1);
      assert Rising(Candidates(scores, threshold, n - 1) + [n - 1]);
    }
  }

  predicate Rising(c: seq<Box>) { forall a, b :: 0 <= a < b < |c| ==> c[a] < c[b] }

  /**
   * The ranking lists exactly the boxes at or above the threshold, each once:
   * a higher score first, and of equal scores the smaller index.
   */
  lemma RankedExact(scores: seq<real>, threshold: real)
    ensures forall i: Box :: i in Ranked(scores, threshold) <==> i < |scores| && scores[i] >= threshold
    ensures var list := Ranked(scores, threshold); forall a, b :: 0 <= a < b < |list| ==>
      scores[list[a]] > scores[list[b]] || (scores[list[a]] == scores[list[b]] && list[a] < list[b])
  {
    var c := Candidates(scores, threshold, |scores|);
    var order := Order(Listed(scores, c), |c|);
    CandidatesExact(scores, threshold, |scores|);
    OrderIsOrder(Listed(scores, c), |c|);
    ListedAll(c, order);
    ByScore(scores, c, order);
  }

  /** Positions of a rising list, ordered by their scores, list its boxes by score and then index. */
  lemma ByScore(scores: seq<real>, c: seq<Box>, order: seq<nat>)
    requires Rising(c) && (forall k :: 0 <= k < |c| ==> c[k] < |scores|) && IsOrder(Listed(scores, c), order, |c|)
    ensures var list := Listed(c, order); forall a, b :: 0 <= a < b < |list| ==>
      scores[list[a]] > scores[list[b]] || (scores[list[a]] == scores[list[b]] && list[a] < list[b])
  {
    var list := Listed(c, order);
    forall a, b | 0 <= a < b < |list|
      ensures scores[list[a]] > scores[list[b]] || (scores[list[a]] == scores[list[b]] && list[a] < list[b])
    {
      assert Precedes(Listed(scores, c), order[a], order[b]);
    }
  }

  /** A listing at every position, in whatever order, has every element. */
  lemma ListedAll(list: seq<Box>, order: seq<nat>)
    requires (forall k :: 0 <= k < |order| ==> order[k] < |list|) && forall k: nat :: k < |list| ==> k in order
    ensures forall x :: x in Listed(list, order) <==> x in list
  {
    forall x | x in list ensures x in Listed(list, order) {
      var k :| 0 <= k < |list| && list[k] == x;
      assert k in order;
      var a :| 0 <= a < |order| && order[a] == k;
      assert Listed(list, order)[a] == x;
    }
    forall x | x in Listed(list, order) ensures x in list {
      var a :| 0 <= a < |order| && Listed(list, order)[a] == x;
      assert list[order[a]] == x;
    }
  }

  /** Box b is overlapped by one of the boxes picked so far. */
  predicate Dropped(list: seq<Box>, overlaps: (Box, Box) -> bool, picks: seq<nat>, j: nat)
    requires j < |list| && forall a :: 0 <= a < |picks| ==> picks[a] < |list|
  {
    exists a :: 0 <= a < |picks| && overlaps(list[picks[a]], list[j])
  }

  /** Greedy suppression from position i on: the positions picked, at most `limit`. */
  function Picks(list: seq<Box>, overlaps: (Box, Box) -> bool, limit: nat, i: nat, picks: seq<nat>): (r: seq<nat>)
    requires i <= |list| && forall a :: 0 <= a < |picks| ==> picks[a] < |list|
    ensures forall a :: 0 <= a < |r| ==> r[a] < |list|
    decreases |list| - i
  {
    if i == |list| || |picks| >= limit then picks
    else if Dropped(list, overlaps, picks, i) then Picks(list, overlaps, limit, i + 1, picks)
    else Picks(list, overlaps, limit, i + 1, picks + [i])
  }

  /** Positions picked below i: rising, none overlapping a later one, and every other position below i overlapped by an earlier pick. */
  predicate PicksOk(list: seq<Box>, overlaps: (Box, Box) -> bool, picks: seq<nat>, i: nat) {
    && i <= |list|
    && (forall a :: 0 <= a < |picks| ==> picks[a] < i)
    && (forall a, b :: 0 <= a < b < |picks| ==> picks[a] < picks[b] && !overlaps(list[picks[a]], list[picks[b]]))
    && (forall j :: 0 <= j < i ==> j in picks || DroppedBefore(list, overlaps, picks, j))
  }

  predicate DroppedBefore(list: seq<Box>, overlaps: (Box, Box) -> bool, picks: seq<nat>, j: nat)
    requires j < |list| && forall a :: 0 <= a < |picks| ==> picks[a] < |list|
  {
    exists a :: 0 <= a < |picks| && picks[a] < j && overlaps(list[picks[a]], list[j])
  }

  /**
   * Greedy suppression: the picked boxes are pairwise within the overlap
   * threshold, and every other candidate overlaps an earlier picked one,
   * unless the limit was reached first.
   */
  lemma {:induction false} PicksRight(list: seq<Box>, overlaps: (Box, Box) -> bool, limit: nat, i: nat, picks: seq<nat>)
    requires PicksOk(list, overlaps, picks, i) && |picks| <= limit
    ensures var r := Picks(list, overlaps, limit, i, picks);
      && |r| <= limit && (PicksOk(list, overlaps, r, |list|) || (|r| == limit && exists n :: 0 <= n <= |list| && PicksOk(list, overlaps, r, n)))
    decreases |list| - i
  {
    if i < |list| && |picks| < limit {
      if Dropped(list, overlaps, picks, i) {
        var a :| 0 <= a < |picks| && overlaps(list[picks[a]], list[i]);
        PicksRight(list, overlaps, limit, i + 1, picks);
      } else {
        var more := picks + [i];
        forall j | 0 <= j < i + 1 ensures j in more || DroppedBefore(list, overlaps, more, j) {
          if j < i && j !in picks {
            var a :| 0 <= a < |picks| && picks[a] < j && overlaps(list[picks[a]], list[j]);
            assert more[a] == picks[a];
          }
        }
        PicksRight(list, overlaps, limit, i + 1, more);
      }
    }
  }

  /** The flags that are set. */
  function Active(flags: seq<bool>): (n: nat)
    ensures n == 0 ==> forall j :: 0 <= j < |flags| ==> !flags[j]
  {
    if |flags| == 0 then 0 else Active(flags[..|flags| - 1]) + if flags[|flags| - 1] then 1 else 0
  }

  lemma {:induction false} ActiveClear(flags: seq<bool>, j: nat)
    requires j < |flags| && flags[j]
    ensures Active(flags[j := false]) == Active(flags) - 1
  {
    var last := |flags| - 1;
    if j < last {
      ActiveClear(flags[..last], j);
      assert flags[j := false][..last] == flags[..last][j := false];
    } else {
      assert flags[j := false][..last] == flags[..last];
    }
  }

  lemma {:induction false} ActiveAll(flags: seq<bool>)
    requires forall j :: 0 <= j < |flags| ==> flags[j]
    ensures Active(flags) == |flags|
  {
    if |flags| > 0 { ActiveAll(flags[..|flags| - 1]); }
  }

  /** With nothing left to pick, greedy suppression is done. */
  lemma {:induction false} AllDropped(list: seq<Box>, overlaps: (Box, Box) -> bool, limit: nat, i: nat, picks: seq<nat>)
    requires i <= |list| && forall a :: 0 <= a < |picks| ==> picks[a] < |list|
    requires forall j :: i <= j < |list| ==> Dropped(list, overlaps, picks, j)
    ensures Picks(list, overlaps, limit, i, picks) == picks
    decreases |list| - i
  {
    if i < |list| { AllDropped(list, overlaps, limit, i + 1, picks); }
  }

  /** A limit past the candidates is no limit. */
  lemma {:induction false} LimitCapped(list: seq<Box>, overlaps: (Box, Box) -> bool, limit: nat, i: nat, picks: seq<nat>)
    requires i <= |list| && |picks| <= i && forall a :: 0 <= a < |picks| ==> picks[a] < |list|
    ensures Picks(list, overlaps, Min(limit, |list|), i, picks) == Picks(list, overlaps, limit, i, picks)
    decreases |list| - i
  {
    if i < |list| && |picks| < limit {
      if Dropped(list, overlaps, picks, i) { LimitCapped(list, overlaps, limit, i + 1, picks); }
      else { LimitCapped(list, overlaps, limit, i + 1, picks + [i]); }
    }
  }

  /** Scores at or above the threshold, sorted, then suppressed greedily with a flag and a count of what is left. */
  method SingleClass(scores: seq<real>, threshold: real, overlaps: (Box, Box) -> bool, limit: nat) returns (selected: seq<Box>)
    ensures selected == Listed(Ranked(scores, threshold), Picks(Ranked(scores, threshold), overlaps, limit, 0, []))
  {
    var keep := KeepIndices(scores, threshold);
    var kept := |keep|;
    var keepScores := Listed(scores, keep);
    var sorted, buffer := new nat[kept], new nat[kept];
    Argsort(keepScores, sorted, buffer);
    var order := sorted[..];
    SortedIsOrder(keepScores, order);
    var list := seq(kept, k requires 0 <= k < kept => keep[order[k]]);
    ghost var ranked := Ranked(scores, threshold);
    assert list == ranked;
    selected := Suppress(list, overlaps, limit);
  }

  method KeepIndices(scores: seq<real>, threshold: real) returns (keep: seq<Box>)
    ensures keep == Candidates(scores, threshold, |scores|)
  {
    keep := [];
    for i := 0 to |scores|
      invariant keep == Candidates(scores, threshold, i)
    {
      if scores[i] >= threshold { keep := keep + [i]; }
    }
  }

  method Suppress(list: seq<Box>, overlaps: (Box, Box) -> bool, limit: nat) returns (selected: seq<Box>)
    ensures selected == Listed(list, Picks(list, overlaps, limit, 0, []))
  {
    hide Listed, Dropped;
    var kept := |list|;
    var outputSize := if kept < limit then kept else limit;
    var flags := seq(kept, _ => true);
    var active: int := kept;
    ActiveAll(flags);
    LimitCapped(list, overlaps, limit, 0, []);
    selected := [];
    ghost var picks: seq<nat> := [];
    NothingDropped(list, overlaps);
    var i := 0;
    while i < kept && active > 0 && |selected| < outputSize
      invariant 0 <= i <= kept && Suppressing(list, overlaps, flags, i, selected, picks) && active == Active(flags)
      invariant Picks(list, overlaps, outputSize, 0, []) == Picks(list, overlaps, outputSize, i, picks)
      decreases kept - i
    {
      if flags[i] {
        ActiveClear(flags, i);
        ListedMore(list, picks, i);
        selected := selected + [list[i]];
        flags := flags[i := false];
        active := active - 1;
        flags, active := DropOverlapping(list, overlaps, i, flags, active, picks);
        picks := picks + [i];
      }
      i := i + 1;
    }
    if i < kept && active == 0 { AllDropped(list, overlaps, outputSize, i, picks); }
  }

  lemma ListedMore<T>(list: seq<T>, order: seq<nat>, i: nat)
    requires i < |list| && forall k :: 0 <= k < |order| ==> order[k] < |list|
    ensures Listed(list, order + [i]) == Listed(list, order) + [list[i]]
  {}

  lemma NothingDropped(list: seq<Box>, overlaps: (Box, Box) -> bool)
    ensures Listed(list, []) == []
    ensures forall j :: 0 <= j < |list| ==> !Dropped(list, overlaps, [], j)
  {}

  /** The flags from i on say what no pick so far drops; those below i are clear. */
  ghost predicate Suppressing(list: seq<Box>, overlaps: (Box, Box) -> bool, flags: seq<bool>, i: nat, selected: seq<Box>, picks: seq<nat>) {
    && |flags| == |list| && i <= |list|
    && (forall a :: 0 <= a < |picks| ==> picks[a] < |list|) && selected == Listed(list, picks)
    && (forall j :: 0 <= j < i ==> !flags[j])
    && (forall j :: i <= j < |list| ==> (flags[j] <==> !Dropped(list, overlaps, picks, j)))
  }

  method DropOverlapping(list: seq<Box>, overlaps: (Box, Box) -> bool, i: nat, flags0: seq<bool>, active0: int, ghost picks: seq<nat>)
    returns (flags: seq<bool>, active: int)
    requires i < |list| == |flags0| && active0 == Active(flags0) && !flags0[i]
    requires forall a :: 0 <= a < |picks| ==> picks[a] < |list|
    requires forall j :: 0 <= j < i ==> !flags0[j]
    requires forall j :: i < j < |list| ==> (flags0[j] <==> !Dropped(list, overlaps, picks, j))
    ensures |flags| == |list| && active == Active(flags) && forall j :: 0 <= j <= i ==> !flags[j]
    ensures forall j :: i < j < |list| ==> (flags[j] <==> !Dropped(list, overlaps, picks + [i], j))
  {
    flags, active := flags0, active0;
    for j := i + 1 to |list|
      invariant |flags| == |list| && active == Active(flags) && forall l :: 0 <= l <= i ==> !flags[l]
      invariant forall l :: i < l < j ==> (flags[l] <==> !Dropped(list, overlaps, picks + [i], l))
      invariant forall l :: j <= l < |list| ==> flags[l] == flags0[l]
    {
      DroppedByMore(list, overlaps, picks, i, j);
      if flags[j] && overlaps(list[i], list[j]) {
        ActiveClear(flags, j);
        flags := flags[j := false];
        active := active - 1;
      }
    }
  }

  lemma DroppedByMore(list: seq<Box>, overlaps: (Box, Box) -> bool, picks: seq<nat>, i: nat, j: nat)
    requires i < |list| && j < |list| && forall a :: 0 <= a < |picks| ==> picks[a] < |list|
    ensures Dropped(list, overlaps, picks + [i], j) <==> Dropped(list, overlaps, picks, j) || overlaps(list[i], list[j])
  {
    var more := picks + [i];
    if Dropped(list, overlaps, picks, j) {
      var a :| 0 <= a < |picks| && overlaps(list[picks[a]], list[j]);
      assert more[a] == picks[a];
    }
    assert more[|picks|] == i;
  }

  // All classes.

  datatype Entry = Entry(score: real, index: nat)

  /** Puts an entry behind those it does not beat. */
  function Place(s: seq<Entry>, e: Entry): (r: seq<Entry>)
    ensures |r| == |s| + 1
  {
    if |s| == 0 || s[|s| - 1].score >= e.score then s + [e]
    else Place(s[..|s| - 1], e) + [s[|s| - 1]]
  }

  /** Stable sort by decreasing score. */
  function Sorted(list: seq<Entry>): (r: seq<Entry>)
    ensures |r| == |list|
  {
    if |list| == 0 then [] else Place(Sorted(list[..|list| - 1]), list[|list| - 1])
  }

  /** The first k of the stable descending sort. */
  function Best(list: seq<Entry>, k: nat): (r: seq<Entry>)
    ensures |r| == Min(k, |list|)
  {
    Sorted(list)[..Min(k, |list|)]
  }

  predicate Falling(s: seq<Entry>) {
    forall i, j :: 0 <= i < j < |s| ==> s[i].score >= s[j].score
  }

  lemma {:induction false} PlaceFalls(s: seq<Entry>, e: Entry)
    requires Falling(s)
    ensures Falling(Place(s, e)) && forall x :: x in Place(s, e) ==> x == e || x in s
  {
    if |s| > 0 && s[|s| - 1].score < e.score {
      PlaceFalls(s[..|s| - 1], e);
      forall x | x in Place(s, e) ensures x == e || x in s {
        if x in Place(s[..|s| - 1], e) && x != e { assert x in s[..|s| - 1]; }
      }
      var r, m := Place(s, e), Place(s[..|s| - 1], e);
      forall i | 0 <= i < |m| ensures m[i].score >= s[|s| - 1].score {
        assert m[i] in m;
        if m[i] != e { assert m[i] in s[..|s| - 1]; }
      }
    }
  }

  lemma {:induction false} SortedFalls(list: seq<Entry>)
    ensures Falling(Sorted(list))
  {
    if |list| > 0 {
      SortedFalls(list[..|list| - 1]);
      PlaceFalls(Sorted(list[..|list| - 1]), list[|list| - 1]);
    }
  }

  lemma SortedLast(most: seq<Entry>, last: Entry)
    ensures Sorted(most + [last]) == Place(Sorted(most), last)
  {
    assert (most + [last])[..|most|] == most;
  }

  /** Sorting what is sorted changes nothing. */
  lemma {:induction false} SortedSame(s: seq<Entry>)
    requires Falling(s)
    ensures Sorted(s) == s
  {
    hide Sorted, Place;
    if |s| > 0 {
      var most, last := s[..|s| - 1], s[|s| - 1];
      SortedSame(most);
      assert s == most + [last];
      SortedLast(most, last);
      forall k | 0 <= k < |most| ensures most[k].score >= last.score { assert s[k].score >= s[|s| - 1].score; }
      PlaceBehind(most, last);
    }
  }

  function Take(s: seq<Entry>, k: nat): seq<Entry> { s[..Min(k, |s|)] }

  /** The first k after an insertion depend on the first k before it. */
  lemma {:induction false} PlaceTaken(s: seq<Entry>, e: Entry, k: nat)
    requires Falling(s)
    ensures Take(Place(s, e), k) == Take(Place(Take(s, k), e), k)
  {
    if |s| <= k {
      assert Take(s, k) == s;
    } else {
      var most := s[..|s| - 1];
      assert Take(s, k) == Take(most, k);
      PlaceTaken(most, e, k);
      if s[|s| - 1].score >= e.score {
        PlaceBehind(most, e);
        assert Take(s + [e], k) == Take(most + [e], k);
      } else {
        assert Take(Place(most, e) + [s[|s| - 1]], k) == Take(Place(most, e), k);
      }
    }
  }

  lemma PlaceBehind(s: seq<Entry>, e: Entry)
    requires forall i :: 0 <= i < |s| ==> s[i].score >= e.score
    ensures Place(s, e) == s + [e]
  {}

  /** Keeping the best k as classes come gives the best k of all of them. */
  lemma {:induction false} BestOfBest(a: seq<Entry>, b: seq<Entry>, k: nat)
    ensures Best(Best(a, k) + b, k) == Best(a + b, k)
    decreases |b|
  {
    SortedFalls(a);
    var kept := Best(a, k);
    if |b| == 0 {
      assert kept + b == kept && a + b == a;
      SortedSame(kept);
    } else {
      var most, last := b[..|b| - 1], b[|b| - 1];
      BestOfBest(a, most, k);
      assert kept + b == (kept + most) + [last] && a + b == (a + most) + [last];
      SortedLast(kept + most, last);
      SortedLast(a + most, last);
      hide Sorted, Place;
      SortedFalls(kept + most);
      SortedFalls(a + most);
      PlaceTaken(Sorted(kept + most), last, k);
      PlaceTaken(Sorted(a + most), last, k);
    }
  }

  function EntryScores(list: seq<Entry>): (s: seq<real>)
    ensures |s| == |list| && forall k :: 0 <= k < |s| ==> s[k] == list[k].score
  {
    seq(|list|, k requires 0 <= k < |list| => list[k].score)
  }

  /** Inserting an index and inserting its entry go to the same place. */
  lemma {:induction false} InsertPlaces(list: seq<Entry>, s: seq<nat>, i: nat)
    requires i < |list| && forall k :: 0 <= k < |s| ==> s[k] < |list|
    ensures Listed(list, Insert(EntryScores(list), s, i)) == Place(Listed(list, s), list[i])
  {
    if |s| > 0 && list[s[|s| - 1]].score < list[i].score {
      InsertPlaces(list, s[..|s| - 1], i);
      assert Listed(list, s)[..|s| - 1] == Listed(list, s[..|s| - 1]);
    }
  }

  /** The entries in index order, sorted, are the stable sort. */
  lemma {:induction false} OrderSorts(list: seq<Entry>, n: nat)
    requires n <= |list|
    ensures Listed(list, Order(EntryScores(list), n)) == Sorted(list[..n])
  {
    if n > 0 {
      OrderSorts(list, n - 1);
      InsertPlaces(list, Order(EntryScores(list), n - 1), n - 1);
      assert list[..n][..n - 1] == list[..n - 1];
    }
  }

  /** One class joins the best so far. */
  method JoinClass(kept: seq<Entry>, found: seq<Entry>, detections: nat) returns (next: seq<Entry>)
    ensures next == Best(kept + found, detections)
  {
    var after := kept + found;
    var total := |after|;
    var keep := if total < detections then total else detections;
    var sorted := new nat[total];
    ghost var at := PartialArgsort(EntryScores(after), keep, sorted);
    FirstOfOrder(EntryScores(after), sorted[..], at, keep);
    OrderSorts(after, total);
    assert after[..total] == after;
    next := [];
    for r := 0 to keep
      invariant next == Best(after, detections)[..r]
    {
      assert sorted[..][..keep][r] == Order(EntryScores(after), total)[..keep][r];
      next := next + [after[sorted[r]]];
    }
  }

  /** A class's selections, in the order they were made. */
  function ClassEntries(scores: seq<real>, selected: seq<Box>, columns: nat, column: nat): (e: seq<Entry>)
    requires forall k :: 0 <= k < |selected| ==> selected[k] < |scores|
    ensures |e| == |selected|
  {
    seq(|selected|, k requires 0 <= k < |selected| => Entry(scores[selected[k]], selected[k] * columns + column))
  }

  /** Every class's selections, class after class. */
  function AllEntries(scores: seq<seq<real>>, threshold: real, overlaps: (Box, Box) -> bool, perClass: nat, columns: nat, offset: nat, c: nat): seq<Entry>
    requires c <= |scores|
  {
    if c == 0 then []
    else
      var ranked := Ranked(scores[c - 1], threshold);
      AllEntries(scores, threshold, overlaps, perClass, columns, offset, c - 1)
      + ClassEntries(scores[c - 1], Listed(ranked, Picks(ranked, overlaps, perClass, 0, [])), columns, c - 1 + offset)
  }

  /** An entry stands for a box of one of the classes, at or above the threshold, and its index says which box and which class. */
  ghost predicate Names(scores: seq<seq<real>>, threshold: real, columns: nat, offset: nat, n: nat, e: Entry)
    requires n <= |scores| && offset + n <= columns
  {
    && columns >= 1 && e.index % columns >= offset
    && var c, box := e.index % columns - offset, e.index / columns;
    c < n && box < |scores[c]| && e.score == scores[c][box] >= threshold
  }

  lemma {:induction false} EntryNames(scores: seq<seq<real>>, threshold: real, overlaps: (Box, Box) -> bool, perClass: nat,
                                      columns: nat, offset: nat, n: nat, e: Entry)
    requires n <= |scores| && offset + n <= columns
    requires e in AllEntries(scores, threshold, overlaps, perClass, columns, offset, n)
    ensures Names(scores, threshold, columns, offset, n, e)
  {
    hide Names, ClassEntries, Ranked, Picks;
    assert n > 0;
    if e in AllEntries(scores, threshold, overlaps, perClass, columns, offset, n - 1) {
      EntryNames(scores, threshold, overlaps, perClass, columns, offset, n - 1, e);
      NamesMore(scores, threshold, columns, offset, n, e);
    } else {
      var ranked := Ranked(scores[n - 1], threshold);
      ClassNames(scores, threshold, columns, offset, n, Picks(ranked, overlaps, perClass, 0, []), e);
    }
  }

  lemma NamesMore(scores: seq<seq<real>>, threshold: real, columns: nat, offset: nat, n: nat, e: Entry)
    requires 0 < n <= |scores| && offset + n <= columns && Names(scores, threshold, columns, offset, n - 1, e)
    ensures Names(scores, threshold, columns, offset, n, e)
  {}

  lemma ClassNames(scores: seq<seq<real>>, threshold: real, columns: nat, offset: nat, n: nat, picks: seq<nat>, e: Entry)
    requires 0 < n <= |scores| && offset + n <= columns
    requires forall a :: 0 <= a < |picks| ==> picks[a] < |Ranked(scores[n - 1], threshold)|
    requires e in ClassEntries(scores[n - 1], Listed(Ranked(scores[n - 1], threshold), picks), columns, n - 1 + offset)
    ensures Names(scores, threshold, columns, offset, n, e)
  {
    hide Ranked;
    var c, ranked := n - 1, Ranked(scores[n - 1], threshold);
    var selected := Listed(ranked, picks);
    var k :| 0 <= k < |selected| && e == ClassEntries(scores[c], selected, columns, c + offset)[k];
    RankedExact(scores[c], threshold);
    assert ranked[picks[k]] in ranked;
    RowColumn(e.index, selected[k], c + offset, columns);
  }

  lemma RowColumn(index: nat, row: nat, column: nat, columns: nat)
    requires column < columns && index == row * columns + column
    ensures index / columns == row && index % columns == column
  {
    DivUnique(index, row, column, columns);
    assert index == index / columns * columns + index % columns;
  }

  /**
   * The per-class loop: what is left is the first `detections` of a stable
   * descending sort of every class's selections together.
   */
  method Detect(scores: seq<seq<real>>, threshold: real, overlaps: (Box, Box) -> bool, perClass: nat, detections: nat, columns: nat, offset: nat)
    returns (best: seq<Entry>)
    ensures best == Best(AllEntries(scores, threshold, overlaps, perClass, columns, offset, |scores|), detections)
  {
    hide Sorted, Ranked, Picks, ClassEntries;
    best := [];
    for c := 0 to |scores|
      invariant best == Best(AllEntries(scores, threshold, overlaps, perClass, columns, offset, c), detections)
    {
      var found := ClassFound(scores[c], threshold, overlaps, perClass, columns, c + offset);
      BestOfBest(AllEntries(scores, threshold, overlaps, perClass, columns, offset, c), found, detections);
      best := JoinClass(best, found, detections);
    }
  }

  /** One class suppressed, as entries. */
  method ClassFound(scores: seq<real>, threshold: real, overlaps: (Box, Box) -> bool, perClass: nat, columns: nat, column: nat)
    returns (found: seq<Entry>)
    ensures var ranked := Ranked(scores, threshold);
      found == ClassEntries(scores, Listed(ranked, Picks(ranked, overlaps, perClass, 0, [])), columns, column)
  {
    hide Ranked, Picks;
    var selected := SingleClass(scores, threshold, overlaps, perClass);
    found := [];
    for i := 0 to |selected|
      invariant found == ClassEntries(scores, selected, columns, column)[..i]
    {
      found := found + [Entry(scores[selected[i]], selected[i] * columns + column)];
    }
  }
}
