/**
The union of closed intervals three ways: xtask/fixtures/search/intervals.rs (one sorted sweep), the starter in
xtask/fixtures/search/starters/intervals.rs (merge until nothing overlaps), and `reference` in xtask/src/search.rs.
*/
module Intervals {
  import opened Common

  datatype Pair = Pair(lo: nat, hi: nat)

  /** The data in twos; an odd last element is dropped. */
  function Pairs(data: seq<nat>): seq<Pair> {
    if |data| < 2 then [] else [Pair(data[0], data[1])] + Pairs(data[2..])
  }

  function Flat(pairs: seq<Pair>): seq<nat> {
    if pairs == [] then [] else Flat(pairs[..|pairs| - 1]) + [pairs[|pairs| - 1].lo, pairs[|pairs| - 1].hi]
  }

  /** Pair k is elements 2k and 2k + 1, and there are as many as fit. */
  lemma {:induction false} PairsAre(data: seq<nat>, k: nat)
    requires 2 * k + 1 < |data|
    ensures |Pairs(data)| == |data| / 2 && Pairs(data)[k] == Pair(data[2 * k], data[2 * k + 1])
  {
    if |data| >= 4 {
      PairsAre(data[2..], if k > 0 then k - 1 else 0);
    } else {
      assert Pairs(data[2..]) == [];
    }
  }

  /** And back. */
  lemma {:induction false} FlatIs(pairs: seq<Pair>, k: nat)
    requires k < |pairs|
    ensures |Flat(pairs)| == 2 * |pairs| && Flat(pairs)[2 * k] == pairs[k].lo && Flat(pairs)[2 * k + 1] == pairs[k].hi
  {
    var init := pairs[..|pairs| - 1];
    if |init| > 0 {
      FlatIs(init, if k < |init| then k else 0);
    }
  }

  // ---------------------------------------------------------------- meaning

  /** The contract's domain: start <= end. */
  ghost predicate Closed(pairs: seq<Pair>) {
    forall k :: 0 <= k < |pairs| ==> pairs[k].lo <= pairs[k].hi
  }

  predicate Within(p: Pair, x: real) {
    p.lo as real <= x <= p.hi as real
  }

  ghost predicate Covers(pairs: seq<Pair>, x: real) {
    exists k :: 0 <= k < |pairs| && Within(pairs[k], x)
  }

  ghost predicate SameCover(a: seq<Pair>, b: seq<Pair>) {
    forall x: real :: Covers(a, x) <==> Covers(b, x)
  }

  /** Sorted, and strictly apart: sharing an endpoint counts as touching, adjacent integers do not. */
  ghost predicate Separated(pairs: seq<Pair>) {
    && Closed(pairs)
    && forall j, k :: 0 <= j < k < |pairs| ==> pairs[j].hi < pairs[k].lo
  }

  lemma CoversHead(pairs: seq<Pair>, x: real)
    requires pairs != []
    ensures Covers(pairs, x) <==> Within(pairs[0], x) || Covers(pairs[1..], x)
  {
    if Covers(pairs, x) {
      var k :| 0 <= k < |pairs| && Within(pairs[k], x);
      if k > 0 {
        assert Within(pairs[1..][k - 1], x);
      }
    }
    if Covers(pairs[1..], x) {
      var k :| 0 <= k < |pairs[1..]| && Within(pairs[1..][k], x);
      assert Within(pairs[k + 1], x);
    }
  }

  lemma CoversSnoc(pairs: seq<Pair>, p: Pair, x: real)
    ensures Covers(pairs + [p], x) <==> Covers(pairs, x) || Within(p, x)
  {
    var more := pairs + [p];
    if Covers(more, x) {
      var k :| 0 <= k < |more| && Within(more[k], x);
      if k < |pairs| {
        assert Within(pairs[k], x);
      }
    }
    if Covers(pairs, x) {
      var k :| 0 <= k < |pairs| && Within(pairs[k], x);
      assert Within(more[k], x);
    }
    if Within(p, x) {
      assert Within(more[|pairs|], x);
    }
  }

  /** Everything after the first of separated intervals lies above it. */
  lemma TailAbove(pairs: seq<Pair>, x: real)
    requires Separated(pairs) && pairs != [] && Covers(pairs[1..], x)
    ensures pairs[0].hi as real < x
  {
    var k :| 0 <= k < |pairs[1..]| && Within(pairs[1..][k], x);
    assert pairs[1..][k] == pairs[k + 1];
    assert pairs[0].hi < pairs[k + 1].lo;
  }

  /** A point just above the first interval, below any bound above it, that the list does not cover. */
  lemma Gap(pairs: seq<Pair>, bound: nat) returns (x: real)
    requires Separated(pairs) && pairs != [] && pairs[0].hi < bound
    ensures pairs[0].hi as real < x < bound as real && !Covers(pairs, x)
  {
    var next := if |pairs| > 1 then Min(pairs[1].lo, bound) else bound;
    x := (pairs[0].hi as real + next as real) / 2.0;
    forall k | 0 <= k < |pairs|
      ensures !Within(pairs[k], x)
    {
      if k > 0 {
        assert pairs[1].lo <= pairs[k].lo by {
          if k > 1 {
            assert pairs[1].hi < pairs[k].lo;
          }
        }
      }
    }
  }

  lemma HeadsAgree(a: seq<Pair>, b: seq<Pair>)
    requires Separated(a) && Separated(b) && SameCover(a, b) && a != [] && b != []
    ensures a[0].lo >= b[0].lo && a[0].hi >= b[0].hi
  {
    var x := a[0].lo as real;
    assert Within(a[0], x) && Covers(a, x);
    CoversHead(b, x);
    if Covers(b[1..], x) {
      TailAbove(b, x);
    }
    var y := b[0].lo as real;
    assert Within(b[0], y) && Covers(b, y);
    CoversHead(a, y);
    if Covers(a[1..], y) {
      TailAbove(a, y);
    }
    forall x: real | Within(b[0], x)
      ensures Covers(a, x)
    {
      assert Covers(b, x);
    }
    if a[0].hi < b[0].hi {
      var z := Gap(a, b[0].hi);
    }
  }

  /** Separated intervals are determined by the real points they cover. */
  lemma {:induction false} CanonicalUnique(a: seq<Pair>, b: seq<Pair>)
    requires Separated(a) && Separated(b) && SameCover(a, b)
    ensures a == b
    decreases |a|
  {
    if a == [] {
      if b != [] {
        assert Within(b[0], b[0].lo as real);
        assert Covers(b, b[0].lo as real) && !Covers(a, b[0].lo as real);
      }
    } else {
      assert Within(a[0], a[0].lo as real);
      assert Covers(a, a[0].lo as real);
      assert Covers(b, a[0].lo as real);
      HeadsAgree(a, b);
      HeadsAgree(b, a);
      assert a[0] == b[0];
      forall x: real
        ensures Covers(a[1..], x) <==> Covers(b[1..], x)
      {
        CoversHead(a, x);
        CoversHead(b, x);
        if Covers(a[1..], x) {
          TailAbove(a, x);
        }
        if Covers(b[1..], x) {
          TailAbove(b, x);
        }
      }
      CanonicalUnique(a[1..], b[1..]);
    }
  }

  // ---------------------------------------------------------------- sorting

  predicate Before(p: Pair, q: Pair) {
    p.lo < q.lo || (p.lo == q.lo && p.hi <= q.hi)
  }

  function Insert(p: Pair, s: seq<Pair>): seq<Pair> {
    if s == [] || Before(p, s[0]) then [p] + s else [s[0]] + Insert(p, s[1..])
  }

  /** `sort_unstable` on pairs: the order is total, so the result is unique. */
  function Sort(s: seq<Pair>): seq<Pair> {
    if s == [] then [] else Insert(s[|s| - 1], Sort(s[..|s| - 1]))
  }

  ghost predicate Sorted(s: seq<Pair>) {
    forall j, k :: 0 <= j < k < |s| ==> Before(s[j], s[k])
  }

  lemma {:induction false} InsertHolds(p: Pair, s: seq<Pair>)
    ensures |Insert(p, s)| == |s| + 1
    ensures forall q :: q in Insert(p, s) <==> q == p || q in s
    ensures Sorted(s) ==> Sorted(Insert(p, s))
  {
    if !(s == [] || Before(p, s[0])) {
      InsertHolds(p, s[1..]);
      var r := Insert(p, s[1..]);
      assert forall q :: q in s <==> q == s[0] || q in s[1..];
      if Sorted(s) {
        assert forall q :: q in s[1..] ==> Before(s[0], q);
        assert forall k :: 0 <= k < |r| ==> r[k] in r;
      }
    }
  }

  lemma {:induction false} SortHolds(s: seq<Pair>)
    ensures Sorted(Sort(s)) && |Sort(s)| == |s|
    ensures forall q :: q in Sort(s) <==> q in s
  {
    if s != [] {
      var init, last := s[..|s| - 1], s[|s| - 1];
      assert s == init + [last];
      SortHolds(init);
      InsertHolds(last, Sort(init));
    }
  }

  lemma SameMembersCover(a: seq<Pair>, b: seq<Pair>)
    requires forall q :: q in a <==> q in b
    ensures SameCover(a, b) && (Closed(a) ==> Closed(b))
  {
    forall x: real
      ensures Covers(a, x) <==> Covers(b, x)
    {
      if Covers(a, x) {
        var k :| 0 <= k < |a| && Within(a[k], x);
        assert a[k] in b;
      }
      if Covers(b, x) {
        var k :| 0 <= k < |b| && Within(b[k], x);
        assert b[k] in a;
      }
    }
    forall k | 0 <= k < |b|
      ensures Closed(a) ==> b[k].lo <= b[k].hi
    {
      assert b[k] in a;
    }
  }

  // ---------------------------------------------------------------- the sweep

  /** One pair onto the end of the result. */
  function Swept(out: seq<Pair>, p: Pair): seq<Pair> {
    if out != [] && p.lo <= out[|out| - 1].hi then
      out[|out| - 1 := Pair(out[|out| - 1].lo, Max(out[|out| - 1].hi, p.hi))]
    else out + [p]
  }

  function Sweep(pairs: seq<Pair>): seq<Pair> {
    if pairs == [] then [] else Swept(Sweep(pairs[..|pairs| - 1]), pairs[|pairs| - 1])
  }

  lemma SweptCovers(out: seq<Pair>, p: Pair, x: real)
    requires p.lo <= p.hi && Closed(out) && (out != [] ==> out[|out| - 1].lo <= p.lo)
    ensures Covers(Swept(out, p), x) <==> Covers(out, x) || Within(p, x)
  {
    if out != [] && p.lo <= out[|out| - 1].hi {
      var init, last := out[..|out| - 1], out[|out| - 1];
      var wide := Pair(last.lo, Max(last.hi, p.hi));
      assert out == init + [last] && Swept(out, p) == init + [wide];
      CoversSnoc(init, last, x);
      CoversSnoc(init, wide, x);
      assert last.lo as real <= p.lo as real <= last.hi as real;
    } else {
      CoversSnoc(out, p, x);
    }
  }

  /** Sweeping sorted closed pairs yields separated intervals over the same points. */
  lemma {:induction false} SweepHolds(pairs: seq<Pair>)
    requires Sorted(pairs) && Closed(pairs)
    ensures Separated(Sweep(pairs)) && SameCover(pairs, Sweep(pairs))
    ensures pairs != [] ==> Sweep(pairs) != [] && Sweep(pairs)[|Sweep(pairs)| - 1].lo <= pairs[|pairs| - 1].lo
  {
    if pairs != [] {
      var init, p := pairs[..|pairs| - 1], pairs[|pairs| - 1];
      assert pairs == init + [p];
      SweepHolds(init);
      var out := Sweep(init);
      assert init != [] ==> Before(init[|init| - 1], p) by {
        assert init != [] ==> Before(pairs[|pairs| - 2], pairs[|pairs| - 1]);
      }
      forall x: real
        ensures Covers(pairs, x) <==> Covers(Swept(out, p), x)
      {
        CoversSnoc(init, p, x);
        SweptCovers(out, p, x);
      }
    } else {
      assert forall x: real :: !Covers(pairs, x);
    }
  }

  /** The union every implementation must return. */
  function Union(data: seq<nat>): seq<nat> {
    Flat(Sweep(Sort(Pairs(data))))
  }

  /** What it is, without reference to any algorithm: the separated intervals over the points of the data. */
  lemma UnionMeans(data: seq<nat>, u: seq<Pair>)
    requires Closed(Pairs(data))
    ensures Separated(u) && SameCover(u, Pairs(data)) <==> u == Sweep(Sort(Pairs(data)))
  {
    hide Sort, Sweep, Pairs;
    var pairs := Pairs(data);
    SortHolds(pairs);
    SameMembersCover(pairs, Sort(pairs));
    SweepHolds(Sort(pairs));
    if Separated(u) && SameCover(u, pairs) {
      CanonicalUnique(u, Sweep(Sort(pairs)));
    }
  }

  method Solve(data: seq<nat>) returns (result: seq<nat>)
    ensures result == Union(data)
  {
    hide Sort, Pairs, Flat, Sweep, Swept;
    var intervals := Sort(Pairs(data));
    result := [];
    FlatNothing();
    for i := 0 to |intervals|
      invariant result == Flat(Sweep(intervals[..i]))
    {
      var lo, hi := intervals[i].lo, intervals[i].hi;
      var n := |result|;
      SweepNext(intervals, i);
      FlatSwept(Sweep(intervals[..i]), intervals[i]);
      if n != 0 && lo <= result[n - 1] {
        result := result[n - 1 := Max(result[n - 1], hi)];
      } else {
        result := result + [lo];
        result := result + [hi];
      }
    }
    assert intervals[..|intervals|] == intervals;
  }

  lemma FlatNothing()
    ensures Flat(Sweep([])) == []
  {
  }

  lemma SweepNext(pairs: seq<Pair>, i: nat)
    requires i < |pairs|
    ensures Sweep(pairs[..i + 1]) == Swept(Sweep(pairs[..i]), pairs[i])
  {
    assert pairs[..i + 1][..i] == pairs[..i];
  }

  /** The step of the sweep on the flattened list. */
  lemma FlatSwept(out: seq<Pair>, p: Pair)
    ensures var flat, n := Flat(out), |Flat(out)|;
      Flat(Swept(out, p)) == if n != 0 && p.lo <= flat[n - 1] then flat[n - 1 := Max(flat[n - 1], p.hi)] else flat + [p.lo] + [p.hi]
  {
    FlatEnds(out);
    if out != [] {
      FlatWidened(out, Max(out[|out| - 1].hi, p.hi));
    }
    if !(out != [] && p.lo <= out[|out| - 1].hi) {
      assert (out + [p])[..|out|] == out;
    }
  }

  lemma FlatEnds(pairs: seq<Pair>)
    ensures |Flat(pairs)| == 2 * |pairs|
    ensures pairs != [] ==> Flat(pairs)[|Flat(pairs)| - 1] == pairs[|pairs| - 1].hi
  {
    if pairs != [] {
      FlatEnds(pairs[..|pairs| - 1]);
    }
  }

  lemma FlatWidened(pairs: seq<Pair>, hi: nat)
    requires pairs != []
    ensures var n := |Flat(pairs)|;
      n > 0 && Flat(pairs[|pairs| - 1 := Pair(pairs[|pairs| - 1].lo, hi)]) == Flat(pairs)[n - 1 := hi]
  {
    var wide := pairs[|pairs| - 1 := Pair(pairs[|pairs| - 1].lo, hi)];
    assert wide[..|pairs| - 1] == pairs[..|pairs| - 1];
  }

  method Reference(data: seq<nat>) returns (result: seq<nat>)
    ensures result == Union(data)
  {
    hide Sort, Pairs;
    var pairs := Sort(Pairs(data));
    var out: seq<Pair> := [];
    for i := 0 to |pairs|
      invariant out == Sweep(pairs[..i])
    {
      assert pairs[..i + 1] == pairs[..i] + [pairs[i]];
      if out != [] && pairs[i].lo <= out[|out| - 1].hi {
        out := out[|out| - 1 := out[|out| - 1].(hi := Max(out[|out| - 1].hi, pairs[i].hi))];
      } else {
        out := out + [pairs[i]];
      }
    }
    assert pairs[..|pairs|] == pairs;
    result := Flat(out);
  }

  // ---------------------------------------------------------------- merging until nothing overlaps

  predicate Overlap(a: Pair, b: Pair) {
    a.lo <= b.hi && b.lo <= a.hi
  }

  function Merged(s: seq<Pair>, i: nat, j: nat): seq<Pair>
    requires i < j < |s|
  {
    var rest := s[..j] + s[j + 1..];
    rest[i := Pair(Min(s[i].lo, s[j].lo), Max(s[i].hi, s[j].hi))]
  }

  lemma MergeCovers(s: seq<Pair>, i: nat, j: nat)
    requires i < j < |s| && Overlap(s[i], s[j]) && Closed(s)
    ensures SameCover(s, Merged(s, i, j)) && Closed(Merged(s, i, j))
  {
    var r := Merged(s, i, j);
    assert forall k :: 0 <= k < j && k != i ==> r[k] == s[k];
    assert forall k :: j < k < |s| ==> r[k - 1] == s[k];
    forall x: real
      ensures Covers(s, x) <==> Covers(r, x)
    {
      if Covers(s, x) {
        var k :| 0 <= k < |s| && Within(s[k], x);
        if k == i || k == j {
          assert Within(r[i], x);
        } else if k < j {
          assert Within(r[k], x);
        } else {
          assert Within(r[k - 1], x);
        }
      }
      if Covers(r, x) {
        var k :| 0 <= k < |r| && Within(r[k], x);
        if k == i {
          assert Within(s[i], x) || Within(s[j], x);
        } else if k < j {
          assert Within(s[k], x);
        } else {
          assert Within(s[k + 1], x);
        }
      }
    }
  }

  /** Sorting intervals no two of which overlap separates them. */
  lemma ApartSorts(s: seq<Pair>)
    requires Closed(s) && forall i, j :: 0 <= i < j < |s| ==> !Overlap(s[i], s[j])
    ensures Separated(Sort(s))
  {
    SortHolds(s);
    SortApart(s);
    SameMembersCover(s, Sort(s));
    var r := Sort(s);
    forall j, k | 0 <= j < k < |r|
      ensures r[j].hi < r[k].lo
    {
      assert Before(r[j], r[k]) && !Overlap(r[j], r[k]);
    }
  }

  lemma {:induction false} SortApart(s: seq<Pair>)
    requires forall i, j :: 0 <= i < j < |s| ==> !Overlap(s[i], s[j])
    ensures forall i, j :: 0 <= i < j < |Sort(s)| ==> !Overlap(Sort(s)[i], Sort(s)[j])
  {
    if s != [] {
      var init, last := s[..|s| - 1], s[|s| - 1];
      SortApart(init);
      SortHolds(init);
      forall q | q in Sort(init)
        ensures !Overlap(last, q)
      {
        var k :| 0 <= k < |init| && init[k] == q;
        assert !Overlap(s[k], s[|s| - 1]);
      }
      InsertApart(last, Sort(init));
    }
  }

  lemma {:induction false} InsertApart(p: Pair, s: seq<Pair>)
    requires forall i, j :: 0 <= i < j < |s| ==> !Overlap(s[i], s[j])
    requires forall q :: q in s ==> !Overlap(p, q)
    ensures forall i, j :: 0 <= i < j < |Insert(p, s)| ==> !Overlap(Insert(p, s)[i], Insert(p, s)[j])
  {
    if !(s == [] || Before(p, s[0])) {
      InsertApart(p, s[1..]);
      InsertHolds(p, s[1..]);
      var r := Insert(p, s[1..]);
      forall k | 0 <= k < |r|
        ensures !Overlap(s[0], r[k])
      {
        assert r[k] in r && s[0] in s;
        if r[k] != p {
          var j :| 0 <= j < |s[1..]| && s[1..][j] == r[k];
          assert s[j + 1] == r[k];
        }
      }
    }
  }

  /** The first overlapping pair of indices from (i, j) on, in the order of the nested search. */
  function FirstFrom(s: seq<Pair>, i: nat, j: nat): (r: Option<(nat, nat)>)
    requires i < j
    ensures r.Some? ==> r.value.0 < r.value.1 < |s| && Overlap(s[r.value.0], s[r.value.1])
    decreases |s| - i, |s| - j
  {
    if i >= |s| then None
    else if j >= |s| then FirstFrom(s, i + 1, i + 2)
    else if Overlap(s[i], s[j]) then Some((i, j))
    else FirstFrom(s, i, j + 1)
  }

  lemma {:induction false} NoneFrom(s: seq<Pair>, i: nat, j: nat)
    requires i < j && FirstFrom(s, i, j) == None
    ensures forall k :: j <= k < |s| && i < |s| ==> !Overlap(s[i], s[k])
    ensures forall h, k :: i < h < k < |s| ==> !Overlap(s[h], s[k])
    decreases |s| - i, |s| - j
  {
    hide Overlap;
    if i < |s| {
      if j >= |s| {
        NoneFrom(s, i + 1, i + 2);
      } else {
        NoneFrom(s, i, j + 1);
      }
    }
  }

  /** Merging the first overlapping pair until there is none. */
  function Coalesced(s: seq<Pair>): seq<Pair>
    decreases |s|
  {
    match FirstFrom(s, 0, 1)
    case None => s
    case Some(found) => Coalesced(Merged(s, found.0, found.1))
  }

  /** On the contract's inputs what is left covers the same points, with no two intervals touching. */
  lemma {:induction false} CoalescedHolds(s: seq<Pair>)
    requires Closed(s)
    ensures var r := Coalesced(s);
      Closed(r) && SameCover(s, r) && forall i, j :: 0 <= i < j < |r| ==> !Overlap(r[i], r[j])
    decreases |s|
  {
    hide SameCover, Overlap, Merged;
    match FirstFrom(s, 0, 1)
    case None =>
      NoneFrom(s, 0, 1);
      SameMembersCover(s, s);
    case Some(found) =>
      var next := Merged(s, found.0, found.1);
      MergeCovers(s, found.0, found.1);
      MergedShorter(s, found.0, found.1);
      CoalescedHolds(next);
      CoverJoins(s, next, Coalesced(next));
  }

  lemma MergedShorter(s: seq<Pair>, i: nat, j: nat)
    requires i < j < |s|
    ensures |Merged(s, i, j)| == |s| - 1
  {
  }

  /** The list the starter returns is the union wherever start <= end. */
  lemma CoalescedIsUnion(data: seq<nat>)
    requires Closed(Pairs(data))
    ensures Flat(Sort(Coalesced(Pairs(data)))) == Union(data)
  {
    hide Sort, Pairs, Sweep, Flat, Overlap, SameCover, Coalesced;
    var s := Coalesced(Pairs(data));
    CoalescedHolds(Pairs(data));
    ApartSorts(s);
    SortHolds(s);
    SameMembersCover(s, Sort(s));
    CoverJoins(Pairs(data), s, Sort(s));
    UnionMeans(data, Sort(s));
  }

  lemma CoverJoins(a: seq<Pair>, b: seq<Pair>, c: seq<Pair>)
    requires SameCover(a, b) && SameCover(b, c)
    ensures SameCover(a, c) && SameCover(c, a)
  {
  }

  /** The starter terminates on every input, and on the contract's inputs returns the same list. */
  method SolveByMerging(data: seq<nat>) returns (result: seq<nat>)
    ensures result == Flat(Sort(Coalesced(Pairs(data))))
    ensures Closed(Pairs(data)) ==> result == Union(data)
  {
    hide Sort, Pairs, Sweep, Flat, Overlap, Closed;
    var intervals := Pairs(data);
    while true
      invariant Coalesced(intervals) == Coalesced(Pairs(data))
      decreases |intervals|
    {
      var found: Option<(nat, nat)> := FirstOverlap(intervals);
      if found == None {
        break;
      }
      var i, j := found.value.0, found.value.1;
      var b := intervals[j];
      intervals := intervals[..j] + intervals[j + 1..];
      intervals := intervals[i := Pair(Min(intervals[i].lo, b.lo), Max(intervals[i].hi, b.hi))];
    }
    intervals := Sort(intervals);
    result := Flat(intervals);
    if Closed(Pairs(data)) {
      CoalescedIsUnion(data);
    }
  }

  /** The nested search for the first overlapping pair. */
  method FirstOverlap(intervals: seq<Pair>) returns (found: Option<(nat, nat)>)
    ensures found == FirstFrom(intervals, 0, 1)
  {
    hide Overlap;
    for i := 0 to |intervals|
      invariant FirstFrom(intervals, 0, 1) == FirstFrom(intervals, i, i + 1)
    {
      for j := i + 1 to |intervals|
        invariant FirstFrom(intervals, 0, 1) == FirstFrom(intervals, i, j)
      {
        if Overlap(intervals[i], intervals[j]) {
          return Some((i, j));
        }
      }
    }
    return None;
  }

  lemma TwoSorted(p: Pair, q: Pair)
    requires !Before(q, p)
    ensures Sort([p, q]) == [p, q]
  {
    var s := [p, q];
    assert s[..1] == [p] && [p][..0] == [] && [p][1..] == [];
    assert Sort([p]) == Insert(p, Sort([])) == [p];
    assert Insert(q, [p]) == [p] + Insert(q, []);
  }

  lemma TwoFlat(p: Pair, q: Pair)
    ensures Flat([p]) == [p.lo, p.hi] && Flat([p, q]) == [p.lo, p.hi, q.lo, q.hi]
  {
    assert [p, q][..1] == [p] && [p][..0] == [];
  }

  lemma TwoSwept(p: Pair, q: Pair)
    ensures Sweep([p, q]) == Swept([p], q)
  {
    assert [p, q][..1] == [p] && [p][..0] == [];
    assert Sweep([p]) == Swept([], p) == [p];
  }

  lemma TwoApart(p: Pair, q: Pair)
    requires !Overlap(p, q)
    ensures Coalesced([p, q]) == [p, q]
  {
    var s := [p, q];
    assert FirstFrom(s, 2, 3) == None;
    assert FirstFrom(s, 1, 2) == None;
    assert FirstFrom(s, 0, 2) == None;
    assert FirstFrom(s, 0, 1) == None;
  }

  /** Outside the contract the two disagree: on (4, 10), (5, 3) the sweep merges and the starter does not. */
  lemma InvertedPairsDiffer()
    ensures var data := [4, 10, 5, 3]; Union(data) == [4, 10] && Flat(Sort(Coalesced(Pairs(data)))) == data
  {
    var data, p, q := [4, 10, 5, 3], Pair(4, 10), Pair(5, 3);
    assert data[2..] == [5, 3] && [5, 3][2..] == [];
    assert Pairs(data) == [p, q];
    TwoSorted(p, q);
    TwoSwept(p, q);
    TwoFlat(p, q);
    TwoApart(p, q);
    hide Sort, Sweep, Flat, Coalesced, Pairs;
    assert Swept([p], q) == [p];
  }
}
