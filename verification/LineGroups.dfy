/** Grouping of unassigned text lines, whatever lines may be joined. */
module LineGroups {
  import opened Sorting
  import opened LayoutModel
  import opened TextGeometry

  /** `grid`: the group came out of a merge and carries the grid label. */
  datatype Group = Group(bbox: BBox, lastBox: BBox, lines: seq<int>, grid: bool)

  /** Every line of every group, counted. */
  ghost function LinesOf(groups: seq<Group>): multiset<int> {
    if groups == [] then multiset{} else LinesOf(groups[..|groups| - 1]) + multiset(groups[|groups| - 1].lines)
  }

  ghost predicate WellFormed(text: seq<TextLine>, g: Group) { g.lines != [] && IsHull(text, g.bbox, g.lines) }

  ghost predicate AllWellFormed(text: seq<TextLine>, groups: seq<Group>) {
    forall i | 0 <= i < |groups| :: WellFormed(text, groups[i])
  }

  ghost predicate Plain(groups: seq<Group>) { forall i | 0 <= i < |groups| :: !groups[i].grid }

  lemma LinesOfAppend(groups: seq<Group>, g: Group)
    ensures LinesOf(groups + [g]) == LinesOf(groups) + multiset(g.lines)
  {
    assert (groups + [g])[..|groups|] == groups;
  }

  lemma {:induction false} LinesOfContains(groups: seq<Group>, i: nat)
    requires i < |groups|
    ensures multiset(groups[i].lines) <= LinesOf(groups)
  {
    if i < |groups| - 1 {
      LinesOfContains(groups[..|groups| - 1], i);
    }
  }

  lemma AddToBoth(a: multiset<int>, b: multiset<int>, c: multiset<int>, d: multiset<int>, e: multiset<int>)
    requires a + b == c + d
    ensures (a + e) + b == (c + e) + d
  {
    forall x
      ensures ((a + e) + b)[x] == ((c + e) + d)[x]
    {
      assert (a + b)[x] == (c + d)[x];
    }
  }

  lemma Cancel(a: multiset<int>, b: multiset<int>, c: multiset<int>, d: multiset<int>)
    requires a + b == c + (b + d)
    ensures a == c + d
  {
    forall x
      ensures a[x] == (c + d)[x]
    {
      assert (a + b)[x] == (c + (b + d))[x];
    }
  }

  lemma {:induction false} LinesOfUpdate(groups: seq<Group>, i: nat, g: Group)
    requires i < |groups|
    ensures LinesOf(groups[i := g]) + multiset(groups[i].lines) == LinesOf(groups) + multiset(g.lines)
  {
    var last := |groups| - 1;
    if i == last {
      assert groups[i := g][..last] == groups[..last];
    } else {
      LinesOfUpdate(groups[..last], i, g);
      assert groups[i := g][..last] == groups[..last][i := g];
      assert groups[i := g][last] == groups[last] && groups[..last][i] == groups[i];
      AddToBoth(LinesOf(groups[..last][i := g]), multiset(groups[i].lines), LinesOf(groups[..last]), multiset(g.lines),
                multiset(groups[last].lines));
    }
  }

  function Distance(last: BBox, box: BBox): real {
    Max(0.0, box.y0 - last.y1) + Abs(box.x0 - last.x0) * 0.1
  }

  function Moved(box: BBox, dx: real, dy: real): BBox { BBox(box.x0 + dx, box.y0 + dy, box.x1 + dx, box.y1 + dy) }

  /** Ten steps sideways weigh as much as one step down, and a line in the row below the last edge weighs nothing. */
  lemma DistanceWeighs(last: BBox, box: BBox, d: real)
    requires d >= 0.0
    ensures box.y0 <= last.y1 && box.x0 == last.x0 ==> Distance(last, box) == 0.0
    ensures box.y0 >= last.y1 ==> Distance(last, Moved(box, 0.0, d)) == Distance(last, box) + d
    ensures box.y0 + d <= last.y1 ==> Distance(last, Moved(box, 0.0, d)) == Distance(last, box)
    ensures box.x0 >= last.x0 ==> Distance(last, Moved(box, 10.0 * d, 0.0)) == Distance(last, box) + d
    ensures box.x0 <= last.x0 ==> Distance(last, Moved(box, -10.0 * d, 0.0)) == Distance(last, box) + d
  {
  }

  ghost predicate IsNearest(groups: seq<Group>, box: BBox, canJoin: (BBox, BBox) -> bool, best: nat)
    requires best < |groups|
  {
    && canJoin(groups[best].lastBox, box)
    && (forall i | 0 <= i < |groups| && canJoin(groups[i].lastBox, box) ::
          Distance(groups[best].lastBox, box) <= Distance(groups[i].lastBox, box))
    && (forall i | 0 <= i < best && canJoin(groups[i].lastBox, box) ::
          Distance(groups[best].lastBox, box) < Distance(groups[i].lastBox, box))
  }

  /** The first nearest of the first n groups that the line may join, or -1. */
  function NearestOf(groups: seq<Group>, box: BBox, canJoin: (BBox, BBox) -> bool, n: nat): (best: int)
    requires n <= |groups|
    ensures -1 <= best < n
  {
    if n == 0 then -1
    else
      var best, last := NearestOf(groups, box, canJoin, n - 1), groups[n - 1].lastBox;
      if canJoin(last, box) && (best < 0 || Distance(last, box) < Distance(groups[best].lastBox, box)) then n - 1 else best
  }

  lemma {:induction false} NearestIsNearest(groups: seq<Group>, box: BBox, canJoin: (BBox, BBox) -> bool, n: nat)
    requires n <= |groups|
    ensures NearestOf(groups, box, canJoin, n) < 0 <==> forall i | 0 <= i < n :: !canJoin(groups[i].lastBox, box)
    ensures NearestOf(groups, box, canJoin, n) >= 0 ==>
              IsNearest(groups[..n], box, canJoin, NearestOf(groups, box, canJoin, n))
  {
    if n > 0 {
      NearestIsNearest(groups, box, canJoin, n - 1);
    }
  }

  method NearestGroup(groups: seq<Group>, box: BBox, canJoin: (BBox, BBox) -> bool) returns (best: int)
    ensures best == NearestOf(groups, box, canJoin, |groups|)
    ensures best < 0 <==> forall i | 0 <= i < |groups| :: !canJoin(groups[i].lastBox, box)
    ensures best >= 0 ==> IsNearest(groups, box, canJoin, best)
  {
    best := -1;
    for i := 0 to |groups|
      invariant best == NearestOf(groups, box, canJoin, i)
    {
      if canJoin(groups[i].lastBox, box) &&
         (best < 0 || Distance(groups[i].lastBox, box) < Distance(groups[best].lastBox, box)) {
        best := i;
      }
    }
    NearestIsNearest(groups, box, canJoin, |groups|);
    assert groups[..|groups|] == groups;
  }

  function Joined(g: Group, line: int, box: BBox): Group {
    g.(bbox := Expand(g.bbox, box), lastBox := box, lines := g.lines + [line])
  }

  lemma JoinedIsWellFormed(text: seq<TextLine>, g: Group, line: int)
    requires WellFormed(text, g)
    ensures WellFormed(text, Joined(g, line, BoxAt(text, line)))
  {
    HullOfOne(text, line);
    HullOfBoth(text, g.bbox, g.lines, BoxAt(text, line), [line]);
  }

  lemma JoinAddsLine(groups: seq<Group>, i: nat, line: int, box: BBox)
    requires i < |groups|
    ensures LinesOf(groups[i := Joined(groups[i], line, box)]) == LinesOf(groups) + multiset{line}
  {
    LinesOfUpdate(groups, i, Joined(groups[i], line, box));
    var joined := Joined(groups[i], line, box);
    assert multiset(joined.lines) == multiset(groups[i].lines) + multiset{line};
    Cancel(LinesOf(groups[i := joined]), multiset(groups[i].lines), LinesOf(groups), multiset{line});
  }

  /** The line joins the nearest group it may join, or starts a group of its own. */
  function WithLine(text: seq<TextLine>, groups: seq<Group>, line: int, canJoin: (BBox, BBox) -> bool): seq<Group> {
    var box := BoxAt(text, line);
    var best := NearestOf(groups, box, canJoin, |groups|);
    if best < 0 then groups + [Group(box, box, [line], false)] else groups[best := Joined(groups[best], line, box)]
  }

  /** The groups when the first n lines have been placed one after another. */
  function Placed(text: seq<TextLine>, ordered: seq<int>, canJoin: (BBox, BBox) -> bool, n: nat): seq<Group>
    requires n <= |ordered|
  {
    if n == 0 then [] else WithLine(text, Placed(text, ordered, canJoin, n - 1), ordered[n - 1], canJoin)
  }

  lemma WithLineAdds(text: seq<TextLine>, groups: seq<Group>, line: int, canJoin: (BBox, BBox) -> bool)
    ensures LinesOf(WithLine(text, groups, line, canJoin)) == LinesOf(groups) + multiset{line}
  {
    var box := BoxAt(text, line);
    var best := NearestOf(groups, box, canJoin, |groups|);
    if best < 0 {
      LinesOfAppend(groups, Group(box, box, [line], false));
    } else {
      JoinAddsLine(groups, best, line, box);
    }
  }

  /** Whatever grows by each line placed ends up as the placed lines. */
  lemma {:induction false} PlacedTotal(text: seq<TextLine>, ordered: seq<int>, canJoin: (BBox, BBox) -> bool, n: nat,
                                       total: seq<Group> -> multiset<int>)
    requires n <= |ordered| && total([]) == multiset{}
    requires forall groups, line :: total(WithLine(text, groups, line, canJoin)) == total(groups) + multiset{line}
    ensures total(Placed(text, ordered, canJoin, n)) == multiset(ordered[..n])
  {
    if n > 0 {
      PlacedTotal(text, ordered, canJoin, n - 1, total);
      OneMoreTaken(ordered, n);
    }
  }

  lemma {:induction false} PlacedLines(text: seq<TextLine>, ordered: seq<int>, canJoin: (BBox, BBox) -> bool)
    ensures LinesOf(Placed(text, ordered, canJoin, |ordered|)) == multiset(ordered)
  {
    var total := (groups: seq<Group>) => LinesOf(groups);
    forall groups, line
      ensures total(WithLine(text, groups, line, canJoin)) == total(groups) + multiset{line}
    {
      WithLineAdds(text, groups, line, canJoin);
    }
    PlacedTotal(text, ordered, canJoin, |ordered|, total);
    assert ordered[..|ordered|] == ordered;
  }

  lemma WithLineIsWellFormed(text: seq<TextLine>, groups: seq<Group>, line: int, canJoin: (BBox, BBox) -> bool)
    requires AllWellFormed(text, groups) && Plain(groups)
    ensures var placed := WithLine(text, groups, line, canJoin); AllWellFormed(text, placed) && Plain(placed)
  {
    var box := BoxAt(text, line);
    var best := NearestOf(groups, box, canJoin, |groups|);
    if best < 0 {
      HullOfOne(text, line);
    } else {
      JoinedIsWellFormed(text, groups[best], line);
    }
  }

  lemma {:induction false} PlacedIsWellFormed(text: seq<TextLine>, ordered: seq<int>, canJoin: (BBox, BBox) -> bool, n: nat)
    requires n <= |ordered|
    ensures var placed := Placed(text, ordered, canJoin, n); AllWellFormed(text, placed) && Plain(placed)
  {
    if n > 0 {
      PlacedIsWellFormed(text, ordered, canJoin, n - 1);
      WithLineIsWellFormed(text, Placed(text, ordered, canJoin, n - 1), ordered[n - 1], canJoin);
    }
  }

  /**
    The group as it was built: `lastBox` is the box of its last line, and each line behind
    the first may join the line placed directly before it.
   */
  ghost predicate Chained(text: seq<TextLine>, g: Group, canJoin: (BBox, BBox) -> bool) {
    && g.lines != [] && g.lastBox == BoxAt(text, g.lines[|g.lines| - 1])
    && forall k | 0 < k < |g.lines| :: canJoin(BoxAt(text, g.lines[k - 1]), BoxAt(text, g.lines[k]))
  }

  ghost predicate AllChained(text: seq<TextLine>, groups: seq<Group>, canJoin: (BBox, BBox) -> bool) {
    forall i | 0 <= i < |groups| :: Chained(text, groups[i], canJoin)
  }

  lemma WithLineIsChained(text: seq<TextLine>, groups: seq<Group>, line: int, canJoin: (BBox, BBox) -> bool)
    requires AllChained(text, groups, canJoin)
    ensures AllChained(text, WithLine(text, groups, line, canJoin), canJoin)
  {
    NearestIsNearest(groups, BoxAt(text, line), canJoin, |groups|);
    assert groups[..|groups|] == groups;
  }

  /** A line stands behind a line it may join: no other box of the group decides. */
  lemma {:induction false} PlacedIsChained(text: seq<TextLine>, ordered: seq<int>, canJoin: (BBox, BBox) -> bool, n: nat)
    requires n <= |ordered|
    ensures AllChained(text, Placed(text, ordered, canJoin, n), canJoin)
  {
    if n > 0 {
      PlacedIsChained(text, ordered, canJoin, n - 1);
      WithLineIsChained(text, Placed(text, ordered, canJoin, n - 1), ordered[n - 1], canJoin);
    }
  }

  /** One line more, in a group of its own or in the nearest group. */
  method PlaceLine(text: seq<TextLine>, groups: seq<Group>, line: int, canJoin: (BBox, BBox) -> bool)
    returns (placed: seq<Group>)
    ensures placed == WithLine(text, groups, line, canJoin)
  {
    var box := BoxAt(text, line);
    var best := NearestGroup(groups, box, canJoin);
    if best < 0 {
      placed := groups + [Group(box, box, [line], false)];
    } else {
      placed := groups[best := Joined(groups[best], line, box)];
    }
  }

  function Ordered(text: seq<TextLine>, g: Group, medianHeight: real): Group {
    g.(lines := RowWise(text, g.lines, medianHeight))
  }

  lemma OrderedKeeps(text: seq<TextLine>, g: Group, medianHeight: real)
    ensures multiset(Ordered(text, g, medianHeight).lines) == multiset(g.lines)
    ensures WellFormed(text, g) ==> WellFormed(text, Ordered(text, g, medianHeight))
  {
    RowWiseKeepsLines(text, g.lines, medianHeight);
    if WellFormed(text, g) {
      SameMultisetSameMembers(RowWise(text, g.lines, medianHeight), g.lines);
      HullOfSameLines(text, g.bbox, g.lines, RowWise(text, g.lines, medianHeight));
    }
  }

  method PlaceLines(text: seq<TextLine>, ordered: seq<int>, canJoin: (BBox, BBox) -> bool) returns (groups: seq<Group>)
    ensures groups == Placed(text, ordered, canJoin, |ordered|)
  {
    groups := [];
    for i := 0 to |ordered|
      invariant groups == Placed(text, ordered, canJoin, i)
    {
      groups := PlaceLine(text, groups, ordered[i], canJoin);
    }
  }

  /** The first n groups are read in rows. */
  ghost predicate InRowsUpTo(text: seq<TextLine>, groups: seq<Group>, n: nat, medianHeight: real) {
    n <= |groups| && forall i | 0 <= i < n :: InRows(text, groups[i].lines, RowTolerance(medianHeight))
  }

  lemma OrderingKeepsLines(text: seq<TextLine>, groups: seq<Group>, i: nat, medianHeight: real)
    requires i < |groups|
    ensures LinesOf(groups[i := Ordered(text, groups[i], medianHeight)]) == LinesOf(groups)
  {
    var g := Ordered(text, groups[i], medianHeight);
    OrderedKeeps(text, groups[i], medianHeight);
    LinesOfUpdate(groups, i, g);
    Cancel(LinesOf(groups[i := g]), multiset(groups[i].lines), LinesOf(groups), multiset{});
  }

  ghost predicate EachOrdered(text: seq<TextLine>, groups: seq<Group>, medianHeight: real, ordered: seq<Group>) {
    |ordered| == |groups| && forall i | 0 <= i < |groups| :: ordered[i] == Ordered(text, groups[i], medianHeight)
  }

  ghost predicate OrderedUpTo(text: seq<TextLine>, groups: seq<Group>, medianHeight: real, ordered: seq<Group>, n: nat) {
    && |ordered| == |groups|
    && forall i | 0 <= i < |groups| :: ordered[i] == if i < n then Ordered(text, groups[i], medianHeight) else groups[i]
  }

  lemma OrderedKeepShape(text: seq<TextLine>, groups: seq<Group>, medianHeight: real, ordered: seq<Group>)
    requires AllWellFormed(text, groups) && Plain(groups) && EachOrdered(text, groups, medianHeight, ordered)
    ensures AllWellFormed(text, ordered) && Plain(ordered) && InRowsUpTo(text, ordered, |ordered|, medianHeight)
  {
    forall i | 0 <= i < |ordered|
      ensures WellFormed(text, ordered[i]) && !ordered[i].grid
      ensures InRows(text, ordered[i].lines, RowTolerance(medianHeight))
    {
      OrderedKeeps(text, groups[i], medianHeight);
      RowWiseIsInRows(text, groups[i].lines, medianHeight);
    }
  }

  method OrderGroups(text: seq<TextLine>, groups: seq<Group>, medianHeight: real) returns (ordered: seq<Group>)
    ensures EachOrdered(text, groups, medianHeight, ordered) && LinesOf(ordered) == LinesOf(groups)
  {
    ordered := groups;
    for i := 0 to |groups|
      invariant OrderedUpTo(text, groups, medianHeight, ordered, i) && LinesOf(ordered) == LinesOf(groups)
    {
      OrderingKeepsLines(text, ordered, i, medianHeight);
      var sorted := SortRowWise(text, ordered[i].lines, medianHeight);
      ordered := ordered[i := ordered[i].(lines := sorted)];
    }
  }

  /** Groups hold each given line once, read in rows, and each group's box is the hull of its lines. */
  method GroupFallbackLines(text: seq<TextLine>, lines: seq<int>, medianHeight: real, canJoin: (BBox, BBox) -> bool)
    returns (groups: seq<Group>)
    ensures LinesOf(groups) == multiset(lines)
    ensures AllWellFormed(text, groups) && Plain(groups) && InRowsUpTo(text, groups, |groups|, medianHeight)
    ensures var ordered := ByPosition(text, lines);
      var placed := Placed(text, ordered, canJoin, |ordered|);
      AllChained(text, placed, canJoin) && EachOrdered(text, placed, medianHeight, groups)
  {
    SortMultiset(lines, (a, b) => PositionLess(text, a, b));
    var ordered := ByPosition(text, lines);
    var placed := PlaceLines(text, ordered, canJoin);
    PlacedLines(text, ordered, canJoin);
    PlacedIsWellFormed(text, ordered, canJoin, |ordered|);
    PlacedIsChained(text, ordered, canJoin, |ordered|);
    groups := OrderGroups(text, placed, medianHeight);
    OrderedKeepShape(text, placed, medianHeight, groups);
  }
}
