/**
  The share of a page's height that text lines cover. The sort-and-sweep computes the
  length of the union of the line intervals, whatever their order or overlap.
 */
module VerticalCoverage {
  import opened Sorting
  import opened LayoutModel

  datatype Interval = Interval(lo: real, hi: real)

  ghost predicate Covered(list: seq<Interval>, y: real) {
    exists i | 0 <= i < |list| :: list[i].lo <= y <= list[i].hi
  }

  ghost predicate SamePoints(a: seq<Interval>, b: seq<Interval>) { forall y: real :: Covered(a, y) <==> Covered(b, y) }

  ghost predicate Proper(list: seq<Interval>) { forall i | 0 <= i < |list| :: list[i].lo < list[i].hi }

  /** Proper intervals in ascending order with gaps between them. */
  ghost predicate Separated(parts: seq<Interval>) {
    Proper(parts) && forall i, j | 0 <= i < j < |parts| :: parts[i].hi < parts[j].lo
  }

  function Length(parts: seq<Interval>): real {
    if parts == [] then 0.0 else Length(parts[..|parts| - 1]) + (parts[|parts| - 1].hi - parts[|parts| - 1].lo)
  }

  function Clamp(y: real, height: real): real { if y < 0.0 then 0.0 else if y > height then height else y }

  /** The visible extent of each line; lines outside the page or without height leave nothing. */
  function Clamped(boxes: seq<BBox>, height: real): seq<Interval> {
    if boxes == [] then []
    else
      var b := boxes[|boxes| - 1];
      var lo, hi := Clamp(b.y0, height), Clamp(b.y1, height);
      Clamped(boxes[..|boxes| - 1], height) + (if hi > lo then [Interval(lo, hi)] else [])
  }

  predicate Before(a: Interval, b: Interval) { a.lo < b.lo || (a.lo == b.lo && a.hi < b.hi) }

  // ---- the union is well defined ----

  lemma CoveredHead(parts: seq<Interval>, y: real)
    requires Separated(parts) && parts != []
    ensures y < parts[0].lo ==> !Covered(parts, y)
    ensures parts[0].lo <= y <= parts[0].hi ==> Covered(parts, y)
    ensures y > parts[0].hi ==> (Covered(parts, y) <==> Covered(parts[1..], y))
  {
    if y > parts[0].hi && Covered(parts, y) {
      var i :| 0 <= i < |parts| && parts[i].lo <= y <= parts[i].hi;
      assert parts[1..][i - 1] == parts[i];
    }
    if Covered(parts[1..], y) {
      var i :| 0 <= i < |parts[1..]| && parts[1..][i].lo <= y <= parts[1..][i].hi;
      assert parts[i + 1] == parts[1..][i];
    }
  }

  lemma SameStart(a: seq<Interval>, b: seq<Interval>)
    requires Separated(a) && Separated(b) && SamePoints(a, b) && a != [] && b != []
    ensures a[0].lo <= b[0].lo
  {
    CoveredHead(b, b[0].lo);
    CoveredHead(a, b[0].lo);
  }

  /** Between two parts lies a point that is not covered. */
  lemma SameEnd(a: seq<Interval>, b: seq<Interval>)
    requires Separated(a) && Separated(b) && SamePoints(a, b) && a != [] && b != [] && a[0].lo == b[0].lo
    ensures b[0].hi <= a[0].hi
  {
    if a[0].hi < b[0].hi {
      var next := if |a| > 1 && a[1].lo < b[0].hi then a[1].lo else b[0].hi;
      var y := (a[0].hi + next) / 2.0;
      CoveredHead(a, y);
      CoveredHead(b, y);
    }
  }

  lemma SameTails(a: seq<Interval>, b: seq<Interval>)
    requires Separated(a) && Separated(b) && SamePoints(a, b) && a != [] && b != [] && a[0] == b[0]
    ensures SamePoints(a[1..], b[1..])
  {
    forall y: real
      ensures Covered(a[1..], y) <==> Covered(b[1..], y)
    {
      CoveredHead(a, y);
      CoveredHead(b, y);
      TailIsAbove(a, y);
      TailIsAbove(b, y);
    }
  }

  /** Only one list of separated parts covers a given set of points. */
  lemma {:induction false} PartsAreUnique(a: seq<Interval>, b: seq<Interval>)
    requires Separated(a) && Separated(b) && SamePoints(a, b)
    ensures a == b
  {
    if a == [] || b == [] {
      if a != [] {
        CoveredHead(a, a[0].lo);
      }
      if b != [] {
        CoveredHead(b, b[0].lo);
      }
    } else {
      SameStart(a, b);
      SameStart(b, a);
      SameEnd(a, b);
      SameEnd(b, a);
      SameTails(a, b);
      PartsAreUnique(a[1..], b[1..]);
      assert a == [a[0]] + a[1..] && b == [b[0]] + b[1..];
    }
  }

  lemma TailIsAbove(parts: seq<Interval>, y: real)
    requires Separated(parts) && parts != []
    ensures Covered(parts[1..], y) ==> y > parts[0].hi
  {
  }

  /** Separated parts inside a range are no longer than the range. */
  lemma {:induction false} LengthInRange(parts: seq<Interval>, lo: real, hi: real)
    requires Separated(parts) && lo <= hi && forall i | 0 <= i < |parts| :: lo <= parts[i].lo && parts[i].hi <= hi
    ensures 0.0 <= Length(parts) <= hi - lo
  {
    if parts != [] {
      LengthInRange(parts[..|parts| - 1], lo, parts[|parts| - 1].lo);
    }
  }

  // ---- the sweep ----

  /** The closed parts and the current one are the union of what has been swept. */
  ghost predicate Swept(done: seq<Interval>, current: Interval, swept: seq<Interval>) {
    Separated(done + [current]) && SamePoints(done + [current], swept)
  }

  lemma CoveredAppend(list: seq<Interval>, x: Interval, y: real)
    ensures Covered(list + [x], y) <==> Covered(list, y) || x.lo <= y <= x.hi
  {
    assert (list + [x])[|list|] == x;
    if Covered(list, y) {
      var i :| 0 <= i < |list| && list[i].lo <= y <= list[i].hi;
      assert (list + [x])[i] == list[i];
    }
  }

  lemma SweepJoins(done: seq<Interval>, current: Interval, swept: seq<Interval>, next: Interval)
    requires Swept(done, current, swept) && next.lo < next.hi && current.lo <= next.lo <= current.hi
    ensures Swept(done, Interval(current.lo, Max(current.hi, next.hi)), swept + [next])
  {
    var joined := Interval(current.lo, Max(current.hi, next.hi));
    forall y: real
      ensures Covered(done + [joined], y) <==> Covered(swept + [next], y)
    {
      CoveredAppend(done, joined, y);
      CoveredAppend(done, current, y);
      CoveredAppend(swept, next, y);
    }
    forall i | 0 <= i < |done|
      ensures done[i].lo < done[i].hi < joined.lo
    {
      assert (done + [current])[i] == done[i] && (done + [current])[|done|] == current;
    }
    SeparatedAppend(done, current, joined);
  }

  lemma SeparatedAppend(done: seq<Interval>, current: Interval, last: Interval)
    requires Separated(done + [current]) && last.lo < last.hi
    requires forall i | 0 <= i < |done| :: done[i].hi < last.lo
    ensures Separated(done + [last])
  {
    forall i, j | 0 <= i < j < |done|
      ensures done[i].hi < done[j].lo
    {
      assert (done + [current])[i] == done[i] && (done + [current])[j] == done[j];
    }
    forall i | 0 <= i < |done|
      ensures done[i].lo < done[i].hi
    {
      assert (done + [current])[i] == done[i];
    }
  }

  lemma SweepCloses(done: seq<Interval>, current: Interval, swept: seq<Interval>, next: Interval)
    requires Swept(done, current, swept) && next.lo < next.hi && current.hi < next.lo
    ensures Swept(done + [current], next, swept + [next])
  {
    forall y: real
      ensures Covered(done + [current] + [next], y) <==> Covered(swept + [next], y)
    {
      CoveredAppend(done + [current], next, y);
      CoveredAppend(swept, next, y);
    }
    var parts := done + [current];
    forall i | 0 <= i < |parts|
      ensures parts[i].hi < next.lo
    {
      assert i < |done| ==> parts[i].hi < parts[|done|].lo;
    }
  }

  lemma LengthAppend(done: seq<Interval>, current: Interval)
    ensures Length(done + [current]) == Length(done) + (current.hi - current.lo)
  {
    assert (done + [current])[..|done|] == done;
  }

  /** The sweep over sorted intervals adds up the length of their union. */
  method Sweep(sorted: seq<Interval>) returns (covered: real, ghost parts: seq<Interval>)
    requires sorted != [] && Proper(sorted) && SortedBy(sorted, Before)
    ensures Separated(parts) && SamePoints(parts, sorted) && covered == Length(parts)
  {
    covered := 0.0;
    var current := sorted[0];
    ghost var done: seq<Interval> := [];
    assert done + [current] == sorted[..1];
    for index := 1 to |sorted|
      invariant Swept(done, current, sorted[..index]) && covered == Length(done)
      invariant forall k | index <= k < |sorted| :: current.lo <= sorted[k].lo
    {
      var next := sorted[index];
      assert sorted[..index + 1] == sorted[..index] + [next];
      if next.lo <= current.hi {
        SweepJoins(done, current, sorted[..index], next);
        current := Interval(current.lo, Max(current.hi, next.hi));
      } else {
        SweepCloses(done, current, sorted[..index], next);
        LengthAppend(done, current);
        covered, done, current := covered + (current.hi - current.lo), done + [current], next;
      }
    }
    assert sorted[..|sorted|] == sorted;
    LengthAppend(done, current);
    covered, parts := covered + (current.hi - current.lo), done + [current];
  }

  /** The length of the union of the clamped lines, as a share of the height. */
  ghost predicate IsCoverage(height: int, boxes: seq<BBox>, coverage: real) {
    if height <= 0 then coverage == 0.0
    else exists parts :: UnionParts(parts, Clamped(boxes, height as real)) && coverage == Length(parts) / height as real
  }

  ghost predicate UnionParts(parts: seq<Interval>, list: seq<Interval>) { Separated(parts) && SamePoints(parts, list) }

  method CollectIntervals(boxes: seq<BBox>, height: real) returns (intervals: seq<Interval>)
    ensures intervals == Clamped(boxes, height)
  {
    intervals := [];
    for i := 0 to |boxes|
      invariant intervals == Clamped(boxes[..i], height)
    {
      assert boxes[..i + 1][..i] == boxes[..i];
      var lo, hi := Clamp(boxes[i].y0, height), Clamp(boxes[i].y1, height);
      if hi > lo {
        intervals := intervals + [Interval(lo, hi)];
      }
    }
    assert boxes[..|boxes|] == boxes;
  }

  lemma {:induction false} ClampedFits(boxes: seq<BBox>, height: real)
    requires height >= 0.0
    ensures forall k | 0 <= k < |Clamped(boxes, height)| ::
              0.0 <= Clamped(boxes, height)[k].lo < Clamped(boxes, height)[k].hi <= height
  {
    if boxes != [] {
      ClampedFits(boxes[..|boxes| - 1], height);
    }
  }

  lemma SortKeepsPoints(list: seq<Interval>)
    requires Proper(list)
    ensures Proper(StableSort(list, Before)) && SortedBy(StableSort(list, Before), Before)
    ensures SamePoints(StableSort(list, Before), list)
  {
    var sorted := StableSort(list, Before);
    SortMembers(list, Before);
    SortSorted(list, Before);
    assert forall i | 0 <= i < |sorted| :: sorted[i] in sorted;
    forall y: real
      ensures Covered(sorted, y) <==> Covered(list, y)
    {
      if i: nat :| i < |sorted| && sorted[i].lo <= y <= sorted[i].hi {
        assert sorted[i] in list;
      }
      if i: nat :| i < |list| && list[i].lo <= y <= list[i].hi {
        assert list[i] in sorted;
      }
    }
  }

  method Coverage(height: int, boxes: seq<BBox>) returns (coverage: real)
    ensures IsCoverage(height, boxes, coverage)
  {
    if height <= 0 { return 0.0; }
    var intervals := CollectIntervals(boxes, height as real);
    if intervals == [] {
      assert UnionParts([], intervals) && Length([]) == 0.0;
      return 0.0;
    }
    ClampedFits(boxes, height as real);
    SortKeepsPoints(intervals);
    var covered, parts := Sweep(StableSort(intervals, Before));
    assert UnionParts(parts, intervals);
    coverage := covered / height as real;
  }

  /** Lines that cover the same points, in whatever order and how often, give the same share. */
  lemma CoverageDependsOnPoints(height: int, a: seq<BBox>, b: seq<BBox>, x: real, y: real)
    requires IsCoverage(height, a, x) && IsCoverage(height, b, y)
    requires height > 0 ==> SamePoints(Clamped(a, height as real), Clamped(b, height as real))
    ensures x == y
  {
    if height > 0 {
      var p: seq<Interval> :| UnionParts(p, Clamped(a, height as real)) && x == Length(p) / height as real;
      var q: seq<Interval> :| UnionParts(q, Clamped(b, height as real)) && y == Length(q) / height as real;
      PartsAreUnique(p, q);
    }
  }

  /** It is a share: between nothing and everything. */
  lemma CoverageIsAShare(height: int, boxes: seq<BBox>, coverage: real)
    requires IsCoverage(height, boxes, coverage)
    ensures 0.0 <= coverage <= 1.0
  {
    if height > 0 {
      var list := Clamped(boxes, height as real);
      var parts: seq<Interval> :| UnionParts(parts, list) && coverage == Length(parts) / height as real;
      ClampedFits(boxes, height as real);
      forall i | 0 <= i < |parts|
        ensures 0.0 <= parts[i].lo && parts[i].hi <= height as real
      {
        assert Covered(parts, parts[i].lo) && Covered(parts, parts[i].hi);
        assert Covered(list, parts[i].lo) && Covered(list, parts[i].hi);
      }
      LengthInRange(parts, 0.0, height as real);
      ShareOf(Length(parts), height as real);
    }
  }

  lemma ShareOf(x: real, h: real)
    requires 0.0 <= x <= h && h > 0.0
    ensures 0.0 <= x / h <= 1.0
  {
  }
}
