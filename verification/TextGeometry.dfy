/** Boxes of text lines, the box around several of them, and the row-wise reading order of a set of lines. */
module TextGeometry {
  import opened Sorting
  import opened LayoutModel

  /** `visible`: the text has a character that is not white space. */
  datatype TextLine = TextLine(bbox: BBox, visible: bool)

  predicate ValidBox(b: BBox) { b.x1 > b.x0 && b.y1 > b.y0 }

  /** An index outside the page reads as an empty box. */
  function BoxAt(text: seq<TextLine>, line: int): BBox {
    if 0 <= line < |text| then text[line].bbox else BBox(0.0, 0.0, 0.0, 0.0)
  }

  predicate Covers(outer: BBox, inner: BBox) {
    outer.x0 <= inner.x0 && outer.y0 <= inner.y0 && inner.x1 <= outer.x1 && inner.y1 <= outer.y1
  }

  /** Some line reaches this far on each side. */
  ghost predicate Reached(text: seq<TextLine>, box: BBox, lines: seq<int>) {
    && (exists l {:trigger BoxAt(text, l)} | l in lines :: BoxAt(text, l).x0 == box.x0)
    && (exists l {:trigger BoxAt(text, l)} | l in lines :: BoxAt(text, l).y0 == box.y0)
    && (exists l {:trigger BoxAt(text, l)} | l in lines :: BoxAt(text, l).x1 == box.x1)
    && (exists l {:trigger BoxAt(text, l)} | l in lines :: BoxAt(text, l).y1 == box.y1)
  }

  ghost predicate CoversAll(text: seq<TextLine>, box: BBox, lines: seq<int>) {
    forall l | l in lines :: Covers(box, BoxAt(text, l))
  }

  /** The smallest box around the lines. */
  ghost predicate IsHull(text: seq<TextLine>, box: BBox, lines: seq<int>) {
    CoversAll(text, box, lines) && Reached(text, box, lines)
  }

  lemma HullOfOne(text: seq<TextLine>, line: int)
    ensures IsHull(text, BoxAt(text, line), [line])
  {
    assert line in [line];
  }

  lemma HullOfBoth(text: seq<TextLine>, a: BBox, xs: seq<int>, b: BBox, ys: seq<int>)
    requires IsHull(text, a, xs) && IsHull(text, b, ys)
    ensures IsHull(text, Expand(a, b), xs + ys)
  {
    HullSide(text, a, xs, b, ys);
    forall l | l in xs + ys
      ensures Covers(Expand(a, b), BoxAt(text, l))
    {
      assert l in xs || l in ys;
    }
  }

  lemma HullSide(text: seq<TextLine>, a: BBox, xs: seq<int>, b: BBox, ys: seq<int>)
    requires Reached(text, a, xs) && Reached(text, b, ys)
    ensures Reached(text, Expand(a, b), xs + ys)
  {
    assert forall l :: l in xs + ys <==> l in xs || l in ys;
    var i, j :| i in xs && BoxAt(text, i).x0 == a.x0 && j in ys && BoxAt(text, j).x0 == b.x0;
    assert BoxAt(text, i).x0 == Expand(a, b).x0 || BoxAt(text, j).x0 == Expand(a, b).x0;
    i, j :| i in xs && BoxAt(text, i).y0 == a.y0 && j in ys && BoxAt(text, j).y0 == b.y0;
    assert BoxAt(text, i).y0 == Expand(a, b).y0 || BoxAt(text, j).y0 == Expand(a, b).y0;
    i, j :| i in xs && BoxAt(text, i).x1 == a.x1 && j in ys && BoxAt(text, j).x1 == b.x1;
    assert BoxAt(text, i).x1 == Expand(a, b).x1 || BoxAt(text, j).x1 == Expand(a, b).x1;
    i, j :| i in xs && BoxAt(text, i).y1 == a.y1 && j in ys && BoxAt(text, j).y1 == b.y1;
    assert BoxAt(text, i).y1 == Expand(a, b).y1 || BoxAt(text, j).y1 == Expand(a, b).y1;
  }

  lemma HullOfSameLines(text: seq<TextLine>, box: BBox, xs: seq<int>, ys: seq<int>)
    requires IsHull(text, box, xs) && forall l :: l in xs <==> l in ys
    ensures IsHull(text, box, ys)
  {
  }

  // ---- row-wise order ----

  predicate PositionLess(text: seq<TextLine>, a: int, b: int) {
    var l, r := BoxAt(text, a), BoxAt(text, b);
    if l.y0 != r.y0 then l.y0 < r.y0 else if l.x0 != r.x0 then l.x0 < r.x0 else a < b
  }

  predicate LeftLess(text: seq<TextLine>, a: int, b: int) { BoxAt(text, a).x0 < BoxAt(text, b).x0 }

  function ByPosition(text: seq<TextLine>, lines: seq<int>): seq<int> {
    StableSort(lines, (a, b) => PositionLess(text, a, b))
  }

  function LeftToRight(text: seq<TextLine>, lines: seq<int>): seq<int> {
    StableSort(lines, (a, b) => LeftLess(text, a, b))
  }

  function RowTolerance(medianHeight: real): real { Max(1.0, medianHeight * 0.5) }

  /** How far the row that starts with the first line reaches. */
  function RowEnd(text: seq<TextLine>, lines: seq<int>, tolerance: real, from: nat): (end: nat)
    requires 0 < from <= |lines|
    ensures from <= end <= |lines|
    decreases |lines| - from
  {
    if from == |lines| || BoxAt(text, lines[from]).y0 - BoxAt(text, lines[0]).y0 > tolerance then from
    else RowEnd(text, lines, tolerance, from + 1)
  }

  /** Lines sorted by position are cut into rows, and each row is read from left to right. */
  function Rows(text: seq<TextLine>, lines: seq<int>, tolerance: real): seq<int> {
    if lines == [] then []
    else
      var end := RowEnd(text, lines, tolerance, 1);
      LeftToRight(text, lines[..end]) + Rows(text, lines[end..], tolerance)
  }

  function RowWise(text: seq<TextLine>, lines: seq<int>, medianHeight: real): seq<int> {
    Rows(text, ByPosition(text, lines), RowTolerance(medianHeight))
  }

  method FindRowEnd(text: seq<TextLine>, lines: seq<int>, tolerance: real) returns (end: nat)
    requires lines != []
    ensures end == RowEnd(text, lines, tolerance, 1)
  {
    end := 1;
    while end < |lines| && BoxAt(text, lines[end]).y0 - BoxAt(text, lines[0]).y0 <= tolerance
      invariant 0 < end <= |lines|
      invariant RowEnd(text, lines, tolerance, 1) == RowEnd(text, lines, tolerance, end)
    {
      end := end + 1;
    }
  }

  method SortRowWise(text: seq<TextLine>, lines: seq<int>, medianHeight: real) returns (sorted: seq<int>)
    ensures sorted == RowWise(text, lines, medianHeight)
  {
    var rest, tolerance := ByPosition(text, lines), RowTolerance(medianHeight);
    sorted := [];
    while rest != []
      invariant sorted + Rows(text, rest, tolerance) == RowWise(text, lines, medianHeight)
      decreases |rest|
    {
      var end := FindRowEnd(text, rest, tolerance);
      sorted := sorted + LeftToRight(text, rest[..end]);
      rest := rest[end..];
    }
  }

  lemma MultisetOfConcat(a: seq<int>, b: seq<int>, c: seq<int>, d: seq<int>)
    requires multiset(a) == multiset(c) && multiset(b) == multiset(d)
    ensures multiset(a + b) == multiset(c + d)
  {
  }

  lemma LeftToRightKeepsLines(text: seq<TextLine>, row: seq<int>)
    ensures multiset(LeftToRight(text, row)) == multiset(row)
  {
    SortMultiset(row, (a, b) => LeftLess(text, a, b));
  }

  lemma {:induction false} RowsKeepLines(text: seq<TextLine>, lines: seq<int>, tolerance: real)
    ensures multiset(Rows(text, lines, tolerance)) == multiset(lines)
    decreases |lines|
  {
    if lines != [] {
      var end := RowEnd(text, lines, tolerance, 1);
      var row, rest := lines[..end], lines[end..];
      RowsKeepLines(text, rest, tolerance);
      LeftToRightKeepsLines(text, row);
      MultisetOfConcat(LeftToRight(text, row), Rows(text, rest, tolerance), row, rest);
      assert lines == row + rest;
    }
  }

  /** Row-wise sorting loses and repeats no line. */
  lemma RowWiseKeepsLines(text: seq<TextLine>, lines: seq<int>, medianHeight: real)
    ensures multiset(RowWise(text, lines, medianHeight)) == multiset(lines)
    ensures |RowWise(text, lines, medianHeight)| == |lines|
  {
    SortMultiset(lines, (a, b) => PositionLess(text, a, b));
    RowsKeepLines(text, ByPosition(text, lines), RowTolerance(medianHeight));
    SameMultisetSameMembers(RowWise(text, lines, medianHeight), lines);
  }

  ghost predicate ByTop(text: seq<TextLine>, lines: seq<int>) {
    forall i, j | 0 <= i < j < |lines| :: BoxAt(text, lines[i]).y0 <= BoxAt(text, lines[j]).y0
  }

  /**
    The result is a succession of rows: the first holds exactly the lines whose top is
    within the tolerance of the highest line, from left to right; the rest is again row-wise.
   */
  ghost predicate InRows(text: seq<TextLine>, lines: seq<int>, tolerance: real)
    decreases |lines|
  {
    lines == [] || exists end | 0 < end <= |lines| :: FirstRow(text, lines, tolerance, end) && InRows(text, lines[end..], tolerance)
  }

  ghost predicate FirstRow(text: seq<TextLine>, lines: seq<int>, tolerance: real, end: nat)
    requires 0 < end <= |lines|
  {
    && SortedBy(lines[..end], (a, b) => LeftLess(text, a, b))
    && exists top | top in lines[..end] :: RowOf(text, lines, tolerance, end, top)
  }

  ghost predicate RowOf(text: seq<TextLine>, lines: seq<int>, tolerance: real, end: nat, top: int)
    requires 0 < end <= |lines|
  {
    var y := BoxAt(text, top).y0;
    && (forall i | 0 <= i < |lines| :: y <= BoxAt(text, lines[i]).y0)
    && (forall i | 0 <= i < |lines| :: i < end <==> BoxAt(text, lines[i]).y0 - y <= tolerance)
  }

  lemma {:induction false} RowEndSplits(text: seq<TextLine>, lines: seq<int>, tolerance: real, from: nat)
    requires 0 < from <= |lines| && ByTop(text, lines) && tolerance >= 0.0
    requires forall i | 0 <= i < from :: BoxAt(text, lines[i]).y0 - BoxAt(text, lines[0]).y0 <= tolerance
    ensures RowOf(text, lines, tolerance, RowEnd(text, lines, tolerance, from), lines[0])
    decreases |lines| - from
  {
    if from < |lines| && BoxAt(text, lines[from]).y0 - BoxAt(text, lines[0]).y0 <= tolerance {
      RowEndSplits(text, lines, tolerance, from + 1);
    }
  }

  lemma {:induction false} RowsAreRows(text: seq<TextLine>, lines: seq<int>, tolerance: real)
    requires ByTop(text, lines) && tolerance >= 0.0
    ensures InRows(text, Rows(text, lines, tolerance), tolerance)
    decreases |lines|
  {
    if lines != [] {
      var end := RowEnd(text, lines, tolerance, 1);
      RowEndSplits(text, lines, tolerance, 1);
      assert ByTop(text, lines[end..]);
      RowsAreRows(text, lines[end..], tolerance);
      RowsKeepLines(text, lines[end..], tolerance);
      RowInFront(text, lines, end, Rows(text, lines[end..], tolerance), tolerance);
    }
  }

  /** A row and what follows it, each put in order, make rows. */
  lemma RowInFront(text: seq<TextLine>, lines: seq<int>, end: nat, rest: seq<int>, tolerance: real)
    requires 0 < end <= |lines| && RowOf(text, lines, tolerance, end, lines[0])
    requires multiset(rest) == multiset(lines[end..]) && InRows(text, rest, tolerance)
    ensures InRows(text, LeftToRight(text, lines[..end]) + rest, tolerance)
  {
    var row, less := LeftToRight(text, lines[..end]), (a, b) => LeftLess(text, a, b);
    SortMembers(lines[..end], less);
    SortSorted(lines[..end], less);
    SameMultisetSameMembers(rest, lines[end..]);
    assert lines[..end][0] == lines[0];
    RowMoved(text, lines, row, rest, tolerance, end);
    FirstRowThenRest(text, row, rest, tolerance, lines[0]);
  }

  lemma FirstRowThenRest(text: seq<TextLine>, row: seq<int>, rest: seq<int>, tolerance: real, top: int)
    requires top in row && SortedBy(row, (a, b) => LeftLess(text, a, b)) && InRows(text, rest, tolerance)
    requires RowOf(text, row + rest, tolerance, |row|, top)
    ensures InRows(text, row + rest, tolerance)
  {
    var all := row + rest;
    assert all[..|row|] == row && all[|row|..] == rest;
    assert FirstRow(text, all, tolerance, |row|);
  }

  lemma RowMoved(text: seq<TextLine>, lines: seq<int>, row: seq<int>, rest: seq<int>, tolerance: real, end: nat)
    requires 0 < end <= |lines| && RowOf(text, lines, tolerance, end, lines[0])
    requires |row| == end && |row + rest| == |lines|
    requires forall x :: x in row <==> x in lines[..end]
    requires forall x :: x in rest <==> x in lines[end..]
    ensures RowOf(text, row + rest, tolerance, end, lines[0])
  {
    forall i | 0 <= i < |lines|
      ensures exists k :: 0 <= k < |lines| && (k < end <==> i < end) && (row + rest)[i] == lines[k]
    {
      if i < end {
        assert row[i] in row;
        var k :| 0 <= k < end && lines[..end][k] == row[i];
        assert lines[k] == row[i];
      } else {
        assert rest[i - end] in rest;
        var k :| 0 <= k < |lines| - end && lines[end..][k] == rest[i - end];
        assert lines[end + k] == rest[i - end];
      }
    }
  }

  /** What the row-wise sort promises about any list of lines. */
  lemma RowWiseIsInRows(text: seq<TextLine>, lines: seq<int>, medianHeight: real)
    ensures InRows(text, RowWise(text, lines, medianHeight), RowTolerance(medianHeight))
  {
    var less := (a, b) => PositionLess(text, a, b);
    SortSorted(lines, less);
    RowsAreRows(text, ByPosition(text, lines), RowTolerance(medianHeight));
  }
}
