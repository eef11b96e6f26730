/**
  Re-reading the lines of one block column by column when they turn out to be laid
  out in columns with gutters between them.
 */
module LineColumns {
  import opened Sorting
  import opened LayoutModel
  import opened LayoutBlocks
  import opened TextGeometry
  import opened PageGeometry
  import opened LineGroups
  import opened GridGeometry
  import opened GridMerge

  const GRID_LABEL: string := "text_grid_fallback"

  /** How lines are gathered in columns; what separates the columns is fixed. */
  datatype ColumnRules = ColumnRules(overlapRatio: (BBox, BBox) -> real, tooWide: (BBox, real) -> bool)

  function Width(b: BBox): real { Max(0.0, b.x1 - b.x0) }

  /** The source's measures. */
  function LineColumnRules(): ColumnRules {
    ColumnRules((line: BBox, column: BBox) => OverlapOfWidth(line, column, Min(Width(line), column.x1 - column.x0)),
                (line: BBox, medianWidth: real) => Width(line) > medianWidth * 1.35 + 0.001)
  }

  /** A gutter between the columns, and a quarter of the shorter one beside the other. */
  predicate Apart(left: BBox, right: BBox, medianHeight: real) {
    && right.x0 - left.x1 > medianHeight * 0.75
    && Shared(left.y0, left.y1, right.y0, right.y1) >= 0.25 * Max(0.001, Min(left.y1 - left.y0, right.y1 - right.y0))
  }

  predicate CenterLess(text: seq<TextLine>, a: int, b: int) {
    var l, r := BoxAt(text, a), BoxAt(text, b);
    var left, right := (l.x0 + l.x1) * 0.5, (r.x0 + r.x1) * 0.5;
    if left != right then left < right else if l.y0 != r.y0 then l.y0 < r.y0 else a < b
  }

  predicate ColumnLess(a: Group, b: Group) { a.bbox.x0 < b.bbox.x0 }

  lemma {:induction false} LinesOfPrepend(g: Group, groups: seq<Group>)
    ensures LinesOf([g] + groups) == multiset(g.lines) + LinesOf(groups)
  {
    if groups == [] {
      LinesOfAppend([], g);
      assert [g] + groups == [] + [g];
    } else {
      var front, last := groups[..|groups| - 1], groups[|groups| - 1];
      LinesOfPrepend(g, front);
      LinesOfAppend([g] + front, last);
      assert [g] + groups == [g] + front + [last];
    }
  }

  lemma {:induction false} InsertKeepsLines(g: Group, groups: seq<Group>, less: (Group, Group) -> bool)
    ensures LinesOf(Insert(g, groups, less)) == multiset(g.lines) + LinesOf(groups)
  {
    LinesOfPrepend(g, groups);
    if groups != [] && less(groups[0], g) {
      InsertKeepsLines(g, groups[1..], less);
      LinesOfPrepend(groups[0], Insert(g, groups[1..], less));
      LinesOfPrepend(groups[0], groups[1..]);
      assert [groups[0]] + groups[1..] == groups;
    }
  }

  lemma {:induction false} SortKeepsLines(groups: seq<Group>, less: (Group, Group) -> bool)
    ensures LinesOf(StableSort(groups, less)) == LinesOf(groups)
  {
    if groups != [] {
      SortKeepsLines(groups[1..], less);
      InsertKeepsLines(groups[0], StableSort(groups[1..], less), less);
      LinesOfPrepend(groups[0], groups[1..]);
      assert [groups[0]] + groups[1..] == groups;
    }
  }

  /** Among the first n columns, the first that the line overlaps most and at least by half, or -1. */
  function BestOf(columns: seq<Group>, box: BBox, rules: ColumnRules, n: nat): (best: int)
    requires n <= |columns|
    ensures -1 <= best < n
  {
    if n == 0 then -1
    else
      var best, ratio := BestOf(columns, box, rules, n - 1), rules.overlapRatio(box, columns[n - 1].bbox);
      if ratio >= 0.5 && (best < 0 || ratio > rules.overlapRatio(box, columns[best].bbox)) then n - 1 else best
  }

  lemma {:induction false} BestIsBest(columns: seq<Group>, box: BBox, rules: ColumnRules, n: nat)
    requires n <= |columns|
    ensures var best := BestOf(columns, box, rules, n);
            && (best >= 0 ==> rules.overlapRatio(box, columns[best].bbox) >= 0.5)
            && (forall i | 0 <= i < n && rules.overlapRatio(box, columns[i].bbox) >= 0.5 ::
                  best >= 0 && rules.overlapRatio(box, columns[best].bbox) >= rules.overlapRatio(box, columns[i].bbox))
            && forall i | 0 <= i < best && rules.overlapRatio(box, columns[i].bbox) >= 0.5 ::
                 rules.overlapRatio(box, columns[i].bbox) < rules.overlapRatio(box, columns[best].bbox)
  {
    if n > 0 {
      BestIsBest(columns, box, rules, n - 1);
    }
  }

  method BestColumn(columns: seq<Group>, box: BBox, rules: ColumnRules) returns (best: int)
    ensures best == BestOf(columns, box, rules, |columns|)
  {
    best := -1;
    for k := 0 to |columns|
      invariant best == BestOf(columns, box, rules, k)
    {
      var ratio := rules.overlapRatio(box, columns[k].bbox);
      if ratio >= 0.5 && (best < 0 || ratio > rules.overlapRatio(box, columns[best].bbox)) {
        best := k;
      }
    }
  }

  /** The line joins its best column, or starts a new one. */
  function WithColumnLine(text: seq<TextLine>, columns: seq<Group>, line: int, rules: ColumnRules): seq<Group> {
    var box := BoxAt(text, line);
    var best := BestOf(columns, box, rules, |columns|);
    if best < 0 then columns + [Group(box, box, [line], false)] else columns[best := Joined(columns[best], line, box)]
  }

  function Gathered(text: seq<TextLine>, ordered: seq<int>, rules: ColumnRules, n: nat): seq<Group>
    requires n <= |ordered|
  {
    if n == 0 then [] else WithColumnLine(text, Gathered(text, ordered, rules, n - 1), ordered[n - 1], rules)
  }

  lemma ColumnLineAdds(text: seq<TextLine>, columns: seq<Group>, line: int, rules: ColumnRules)
    ensures LinesOf(WithColumnLine(text, columns, line, rules)) == LinesOf(columns) + multiset{line}
  {
    var box := BoxAt(text, line);
    var best := BestOf(columns, box, rules, |columns|);
    if best < 0 {
      LinesOfAppend(columns, Group(box, box, [line], false));
    } else {
      JoinAddsLine(columns, best, line, box);
    }
  }

  lemma {:induction false} GatheredTotal(text: seq<TextLine>, ordered: seq<int>, rules: ColumnRules, n: nat,
                                         total: seq<Group> -> multiset<int>)
    requires n <= |ordered| && total([]) == multiset{}
    requires forall columns, line :: total(WithColumnLine(text, columns, line, rules)) == total(columns) + multiset{line}
    ensures total(Gathered(text, ordered, rules, n)) == multiset(ordered[..n])
  {
    if n > 0 {
      GatheredTotal(text, ordered, rules, n - 1, total);
      OneMoreTaken(ordered, n);
    }
  }

  /** The columns share out all the lines. */
  lemma {:induction false} GatheredLines(text: seq<TextLine>, ordered: seq<int>, rules: ColumnRules)
    ensures LinesOf(Gathered(text, ordered, rules, |ordered|)) == multiset(ordered)
  {
    var total := (columns: seq<Group>) => LinesOf(columns);
    forall columns, line
      ensures total(WithColumnLine(text, columns, line, rules)) == total(columns) + multiset{line}
    {
      ColumnLineAdds(text, columns, line, rules);
    }
    GatheredTotal(text, ordered, rules, |ordered|, total);
    assert ordered[..|ordered|] == ordered;
  }

  predicate AnyTooWide(text: seq<TextLine>, ordered: seq<int>, medianWidth: real, rules: ColumnRules) {
    exists i | 0 <= i < |ordered| :: rules.tooWide(BoxAt(text, ordered[i]), medianWidth)
  }

  /** Columns gather every line, unless one is too wide. */
  method CollectColumns(text: seq<TextLine>, ordered: seq<int>, medianWidth: real, rules: ColumnRules)
    returns (columns: seq<Group>)
    ensures columns == if AnyTooWide(text, ordered, medianWidth, rules) then [] else Gathered(text, ordered, rules, |ordered|)
  {
    columns := [];
    for i := 0 to |ordered|
      invariant columns == Gathered(text, ordered, rules, i)
      invariant forall k | 0 <= k < i :: !rules.tooWide(BoxAt(text, ordered[k]), medianWidth)
    {
      var box := BoxAt(text, ordered[i]);
      if rules.tooWide(box, medianWidth) { return []; }
      var best := BestColumn(columns, box, rules);
      if best < 0 {
        columns := columns + [Group(box, box, [ordered[i]], false)];
      } else {
        columns := columns[best := Joined(columns[best], ordered[i], box)];
      }
    }
  }

  predicate InText(text: seq<TextLine>, lines: seq<int>) { forall i | 0 <= i < |lines| :: 0 <= lines[i] < |text| }

  function Widths(text: seq<TextLine>, lines: seq<int>): seq<real> {
    seq(|lines|, i requires 0 <= i < |lines| => Max(0.0, BoxAt(text, lines[i]).x1 - BoxAt(text, lines[i]).x0))
  }

  method LineWidths(text: seq<TextLine>, lines: seq<int>) returns (widths: seq<real>, inRange: bool)
    ensures inRange <==> InText(text, lines)
    ensures inRange ==> widths == Widths(text, lines)
  {
    widths := [];
    for i := 0 to |lines|
      invariant |widths| == i && forall k | 0 <= k < i :: 0 <= lines[k] < |text| && widths[k] == Widths(text, lines)[k]
    {
      if !(0 <= lines[i] < |text|) { return [], false; }
      var box := BoxAt(text, lines[i]);
      widths := widths + [Max(0.0, box.x1 - box.x0)];
    }
    inRange := true;
  }

  predicate Separated(columns: seq<Group>, n: nat, medianHeight: real)
    requires n <= |columns|
  {
    && (forall k | 0 <= k < n :: |columns[k].lines| >= 2)
    && (forall k | 0 <= k < n && k < |columns| - 1 :: Apart(columns[k].bbox, columns[k + 1].bbox, medianHeight))
  }

  method AreSeparated(columns: seq<Group>, medianHeight: real) returns (separated: bool)
    ensures separated <==> Separated(columns, |columns|, medianHeight)
  {
    for i := 0 to |columns|
      invariant Separated(columns, i, medianHeight)
    {
      if |columns[i].lines| < 2 { return false; }
      if i + 1 < |columns| && !Apart(columns[i].bbox, columns[i + 1].bbox, medianHeight) { return false; }
    }
    separated := true;
  }

  function ByCenter(text: seq<TextLine>, lines: seq<int>): seq<int> { StableSort(lines, (a, b) => CenterLess(text, a, b)) }

  /** The columns the lines fall into from left to right, if they are laid out in columns at all. */
  function DetectedColumns(text: seq<TextLine>, lines: seq<int>, medianHeight: real, rules: ColumnRules): seq<Group> {
    var ordered, medianWidth := ByCenter(text, lines), Median(Widths(text, lines));
    if !InText(text, lines) || medianWidth <= 0.0 || AnyTooWide(text, ordered, medianWidth, rules) then []
    else
      var columns := StableSort(Gathered(text, ordered, rules, |ordered|), ColumnLess);
      if 2 <= |columns| <= 4 && Separated(columns, |columns|, medianHeight) then columns else []
  }

  /** Two to four columns from left to right, each the box around its at least two lines, that share out the lines. */
  ghost predicate ColumnsOf(text: seq<TextLine>, columns: seq<Group>, lines: seq<int>, medianHeight: real) {
    && 2 <= |columns| <= 4 && LinesOf(columns) == multiset(lines) && AllWellFormed(text, columns)
    && SortedBy(columns, ColumnLess) && Separated(columns, |columns|, medianHeight)
  }

  lemma ColumnLineIsWellFormed(text: seq<TextLine>, columns: seq<Group>, line: int, rules: ColumnRules)
    requires AllWellFormed(text, columns)
    ensures AllWellFormed(text, WithColumnLine(text, columns, line, rules))
  {
    var box := BoxAt(text, line);
    var best := BestOf(columns, box, rules, |columns|);
    if best < 0 {
      HullOfOne(text, line);
    } else {
      JoinedIsWellFormed(text, columns[best], line);
    }
  }

  lemma {:induction false} GatheredIsWellFormed(text: seq<TextLine>, ordered: seq<int>, rules: ColumnRules, n: nat)
    requires n <= |ordered|
    ensures AllWellFormed(text, Gathered(text, ordered, rules, n))
  {
    if n > 0 {
      GatheredIsWellFormed(text, ordered, rules, n - 1);
      ColumnLineIsWellFormed(text, Gathered(text, ordered, rules, n - 1), ordered[n - 1], rules);
    }
  }

  lemma SortedIsWellFormed(text: seq<TextLine>, columns: seq<Group>)
    requires AllWellFormed(text, columns)
    ensures AllWellFormed(text, StableSort(columns, ColumnLess))
  {
    var sorted := StableSort(columns, ColumnLess);
    SortMembers(columns, ColumnLess);
    forall i | 0 <= i < |sorted|
      ensures WellFormed(text, sorted[i])
    {
      assert sorted[i] in columns;
    }
  }

  lemma {:induction false} SortedColumnsShareLines(text: seq<TextLine>, lines: seq<int>, rules: ColumnRules)
    ensures var columns := StableSort(Gathered(text, ByCenter(text, lines), rules, |ByCenter(text, lines)|), ColumnLess);
            LinesOf(columns) == multiset(lines) && SortedBy(columns, ColumnLess) && AllWellFormed(text, columns)
  {
    var ordered := ByCenter(text, lines);
    var found := Gathered(text, ordered, rules, |ordered|);
    SortMultiset(lines, (a, b) => CenterLess(text, a, b));
    GatheredLines(text, ordered, rules);
    SortKeepsLines(found, ColumnLess);
    SortSorted(found, ColumnLess);
    GatheredIsWellFormed(text, ordered, rules, |ordered|);
    SortedIsWellFormed(text, found);
  }

  /** Two to four well separated columns that share out the block's lines, or nothing. */
  lemma {:induction false} DetectedColumnsShareLines(text: seq<TextLine>, lines: seq<int>, medianHeight: real, rules: ColumnRules)
    ensures var columns := DetectedColumns(text, lines, medianHeight, rules);
            columns == [] || ColumnsOf(text, columns, lines, medianHeight)
  {
    SortedColumnsShareLines(text, lines, rules);
  }

  method DetectLineColumns(text: seq<TextLine>, lines: seq<int>, medianHeight: real, rules: ColumnRules)
    returns (columns: seq<Group>)
    ensures columns == DetectedColumns(text, lines, medianHeight, rules)
  {
    var widths, inRange := LineWidths(text, lines);
    if !inRange || Median(widths) <= 0.0 { return []; }
    var found := CollectColumns(text, ByCenter(text, lines), Median(widths), rules);
    columns := StableSort(found, ColumnLess);
    var separated := AreSeparated(columns, medianHeight);
    if |columns| < 2 || |columns| > 4 || !separated { return []; }
  }

  /** One column after another, each from top to bottom. */
  function ColumnOrder(text: seq<TextLine>, columns: seq<Group>): seq<int> {
    if columns == [] then []
    else ColumnOrder(text, columns[..|columns| - 1]) + ByPosition(text, columns[|columns| - 1].lines)
  }

  lemma {:induction false} ColumnOrderKeepsLines(text: seq<TextLine>, columns: seq<Group>)
    ensures multiset(ColumnOrder(text, columns)) == LinesOf(columns)
  {
    if columns != [] {
      ColumnOrderKeepsLines(text, columns[..|columns| - 1]);
      SortMultiset(columns[|columns| - 1].lines, (a, b) => PositionLess(text, a, b));
    }
  }

  predicate SupportsRefinement(b: LayoutBlock) {
    && (b.kind == Unknown || b.kind == Text || b.kind == List)
    && b.sourceLabel != GRID_LABEL && |b.lines| >= 4
  }

  predicate AllValid(text: seq<TextLine>, lines: seq<int>) {
    forall i | 0 <= i < |lines| :: 0 <= lines[i] < |text| && ValidBox(BoxAt(text, lines[i]))
  }

  /** The heights of the lines; none at all when some line is out of range or has an improper box. */
  function Heights(text: seq<TextLine>, lines: seq<int>): seq<real> {
    if !AllValid(text, lines) then []
    else seq(|lines|, i requires 0 <= i < |lines| => Max(0.0, BoxAt(text, lines[i]).y1 - BoxAt(text, lines[i]).y0))
  }

  method LineHeights(text: seq<TextLine>, lines: seq<int>) returns (heights: seq<real>)
    ensures heights == Heights(text, lines)
  {
    heights := [];
    for i := 0 to |lines|
      invariant |heights| == i
      invariant forall k | 0 <= k < i :: 0 <= lines[k] < |text| && ValidBox(BoxAt(text, lines[k]))
      invariant forall k | 0 <= k < i :: heights[k] == Max(0.0, BoxAt(text, lines[k]).y1 - BoxAt(text, lines[k]).y0)
    {
      if !(0 <= lines[i] < |text|) || !ValidBox(BoxAt(text, lines[i])) { return []; }
      heights := heights + [Max(0.0, BoxAt(text, lines[i]).y1 - BoxAt(text, lines[i]).y0)];
    }
  }

  function MedianHeight(text: seq<TextLine>, lines: seq<int>): real { Median(Heights(text, lines)) }

  /** Lines with proper boxes always have a positive median height. */
  lemma ValidLinesHaveHeight(text: seq<TextLine>, lines: seq<int>)
    ensures MedianHeight(text, lines) > 0.0 <==> lines != [] && AllValid(text, lines)
  {
    if lines != [] && AllValid(text, lines) {
      MedianOfPositive(Heights(text, lines));
    }
  }

  /** The block as it was, or with the same lines read column by column. */
  function Refined(text: seq<TextLine>, b: LayoutBlock, rules: ColumnRules): LayoutBlock {
    var height := MedianHeight(text, b.lines);
    var columns := DetectedColumns(text, b.lines, height, rules);
    if SupportsRefinement(b) && height > 0.0 && columns != [] then b.(lines := ColumnOrder(text, columns)) else b
  }

  lemma {:induction false} RefinedKeepsLines(text: seq<TextLine>, b: LayoutBlock, rules: ColumnRules)
    ensures SameButLineOrder(b, Refined(text, b, rules))
  {
    var columns := DetectedColumns(text, b.lines, MedianHeight(text, b.lines), rules);
    DetectedColumnsShareLines(text, b.lines, MedianHeight(text, b.lines), rules);
    ColumnOrderKeepsLines(text, columns);
  }

  /** A block is reread exactly when it is a text block of at least four proper lines that fall into columns. */
  lemma {:induction false} RefinedWhen(text: seq<TextLine>, b: LayoutBlock, rules: ColumnRules)
    ensures var columns := DetectedColumns(text, b.lines, MedianHeight(text, b.lines), rules);
            Refined(text, b, rules) ==
            if b.kind in {Unknown, Text, List} && b.sourceLabel != GRID_LABEL && |b.lines| >= 4 &&
               AllValid(text, b.lines) && columns != []
            then b.(lines := ColumnOrder(text, columns))
            else b
  {
    ValidLinesHaveHeight(text, b.lines);
  }

  /** The columns the block is read in, none when it stays as it is. */
  function ColumnsRead(text: seq<TextLine>, b: LayoutBlock, rules: ColumnRules): nat {
    if Refined(text, b, rules) == b then 0 else |DetectedColumns(text, b.lines, MedianHeight(text, b.lines), rules)|
  }

  function Refinement(text: seq<TextLine>, rules: ColumnRules): LayoutBlock -> LayoutBlock { b => Refined(text, b, rules) }

  function Reading(text: seq<TextLine>, rules: ColumnRules): LayoutBlock -> nat { b => ColumnsRead(text, b, rules) }

  method RefineBlock(text: seq<TextLine>, b: LayoutBlock, rules: ColumnRules) returns (refined: LayoutBlock, columns: nat)
    ensures refined == Refinement(text, rules)(b) && columns == Reading(text, rules)(b)
  {
    if !SupportsRefinement(b) { return b, 0; }
    var heights := LineHeights(text, b.lines);
    var median := Median(heights);
    if median <= 0.0 { return b, 0; }
    var detected := DetectLineColumns(text, b.lines, median, rules);
    if detected == [] { return b, 0; }
    var lines := ReadColumns(text, detected);
    refined := b.(lines := lines);
    columns := if lines != b.lines then |detected| else 0;
  }

  method ReadColumns(text: seq<TextLine>, columns: seq<Group>) returns (lines: seq<int>)
    ensures lines == ColumnOrder(text, columns)
  {
    lines := [];
    for i := 0 to |columns|
      invariant lines == ColumnOrder(text, columns[..i])
    {
      assert columns[..i + 1][..i] == columns[..i];
      lines := lines + ByPosition(text, columns[i].lines);
    }
    assert columns[..|columns|] == columns;
  }

  // ---- reading column by column ----

  /** Of two lines, the later one is further down, or strictly to the right of the earlier one. */
  ghost predicate ReadsInColumns(text: seq<TextLine>, lines: seq<int>) {
    forall p, q | 0 <= p < q < |lines| :: Follows(text, lines[p], lines[q])
  }

  ghost predicate Follows(text: seq<TextLine>, a: int, b: int) {
    BoxAt(text, a).x1 < BoxAt(text, b).x0 || !PositionLess(text, b, a)
  }

  ghost predicate LeftOf(columns: seq<Group>) {
    forall i, j | 0 <= i < j < |columns| :: columns[i].bbox.x1 < columns[j].bbox.x0
  }

  /** Gutters between neighbours separate all columns. */
  lemma {:induction false} GuttersSeparate(columns: seq<Group>, medianHeight: real)
    requires Separated(columns, |columns|, medianHeight) && medianHeight > 0.0 && AllProper(columns)
    ensures LeftOf(columns)
  {
    if |columns| > 1 {
      var last := |columns| - 1;
      assert forall k | 0 <= k < last :: columns[..last][k] == columns[k];
      GuttersSeparate(columns[..last], medianHeight);
      assert Apart(columns[last - 1].bbox, columns[last].bbox, medianHeight);
      forall i | 0 <= i < last
        ensures columns[i].bbox.x1 < columns[last].bbox.x0
      {
        assert i < last - 1 ==> columns[..last][i].bbox.x1 < columns[..last][last - 1].bbox.x0;
        assert Proper(columns[last - 1]);
      }
    }
  }

  lemma {:induction false} ColumnOrderMembers(text: seq<TextLine>, columns: seq<Group>, line: int)
    requires line in ColumnOrder(text, columns)
    ensures exists i | 0 <= i < |columns| :: line in columns[i].lines
  {
    var last := |columns| - 1;
    SortMembers(columns[last].lines, (a, b) => PositionLess(text, a, b));
    if line !in columns[last].lines {
      ColumnOrderMembers(text, columns[..last], line);
      var i :| 0 <= i < last && line in columns[..last][i].lines;
      assert columns[i] == columns[..last][i];
    }
  }

  lemma PositionsSorted(text: seq<TextLine>, lines: seq<int>)
    ensures ReadsInColumns(text, ByPosition(text, lines))
  {
    var less := (a, b) => PositionLess(text, a, b);
    SortSorted(lines, less);
    var sorted := ByPosition(text, lines);
    forall p, q | 0 <= p < q < |sorted|
      ensures Follows(text, sorted[p], sorted[q])
    {
      assert !less(sorted[q], sorted[p]);
    }
  }

  /** What comes from earlier columns lies left of what comes from the last one. */
  lemma EarlierColumnsAreLeft(text: seq<TextLine>, columns: seq<Group>, a: int, b: int)
    requires AllWellFormed(text, columns) && LeftOf(columns) && columns != []
    requires a in ColumnOrder(text, columns[..|columns| - 1]) && b in columns[|columns| - 1].lines
    ensures Follows(text, a, b)
  {
    var last := |columns| - 1;
    ColumnOrderMembers(text, columns[..last], a);
    var i :| 0 <= i < last && a in columns[..last][i].lines;
    assert WellFormed(text, columns[i]) && WellFormed(text, columns[last]);
    assert Covers(columns[i].bbox, BoxAt(text, a)) && Covers(columns[last].bbox, BoxAt(text, b));
  }

  lemma {:induction false} ColumnOrderReadsInColumns(text: seq<TextLine>, columns: seq<Group>)
    requires AllWellFormed(text, columns) && LeftOf(columns)
    ensures ReadsInColumns(text, ColumnOrder(text, columns))
  {
    if columns != [] {
      var last := |columns| - 1;
      var front, column := ColumnOrder(text, columns[..last]), ByPosition(text, columns[last].lines);
      ColumnOrderReadsInColumns(text, columns[..last]);
      PositionsSorted(text, columns[last].lines);
      SortMembers(columns[last].lines, (a, b) => PositionLess(text, a, b));
      forall a, b | a in front && b in column
        ensures Follows(text, a, b)
      {
        EarlierColumnsAreLeft(text, columns, a, b);
      }
      BothReadInColumns(text, front, column);
    }
  }

  lemma BothReadInColumns(text: seq<TextLine>, front: seq<int>, column: seq<int>)
    requires ReadsInColumns(text, front) && ReadsInColumns(text, column)
    requires forall a, b | a in front && b in column :: Follows(text, a, b)
    ensures ReadsInColumns(text, front + column)
  {
    var all := front + column;
    forall p, q | 0 <= p < q < |all|
      ensures Follows(text, all[p], all[q])
    {
      if p < |front| <= q {
        assert all[p] in front && all[q] in column;
      }
    }
  }

  lemma ValidLinesProperColumns(text: seq<TextLine>, columns: seq<Group>, lines: seq<int>)
    requires AllWellFormed(text, columns) && LinesOf(columns) == multiset(lines) && AllValid(text, lines)
    ensures AllProper(columns)
  {
    forall l | l in LinesOf(columns)
      ensures ValidBox(BoxAt(text, l))
    {
      assert l in lines;
    }
    HullsAreProper(text, columns);
  }

  /** A block whose order changes is read column by column, and each column from top to bottom. */
  lemma {:induction false} RefinedReadsInColumns(text: seq<TextLine>, b: LayoutBlock, rules: ColumnRules)
    ensures Refined(text, b, rules) == b || ReadsInColumns(text, Refined(text, b, rules).lines)
  {
    var height := MedianHeight(text, b.lines);
    var columns := DetectedColumns(text, b.lines, height, rules);
    if height > 0.0 && columns != [] {
      DetectedColumnsShareLines(text, b.lines, height, rules);
      ValidLinesProperColumns(text, columns, b.lines);
      GuttersSeparate(columns, height);
      ColumnOrderReadsInColumns(text, columns);
    }
  }

  // ---- the blocks of a page ----

  ghost predicate SameButLineOrder(before: LayoutBlock, after: LayoutBlock) {
    after == before.(lines := after.lines) && multiset(after.lines) == multiset(before.lines)
  }

  ghost predicate SameButLines(before: seq<LayoutBlock>, after: seq<LayoutBlock>) {
    |after| == |before| && forall i | 0 <= i < |before| :: SameButLineOrder(before[i], after[i])
  }

  lemma {:induction false} SameLinesOwned(before: seq<LayoutBlock>, after: seq<LayoutBlock>)
    requires SameButLines(before, after)
    ensures OwnedLines(after) == OwnedLines(before)
  {
    if before != [] {
      var last := |before| - 1;
      assert SameButLineOrder(before[last], after[last]);
      forall i | 0 <= i < last
        ensures SameButLineOrder(before[..last][i], after[..last][i])
      {
        assert SameButLineOrder(before[i], after[i]);
      }
      SameLinesOwned(before[..last], after[..last]);
    }
  }

  ghost predicate EachRefined(text: seq<TextLine>, blocks: seq<LayoutBlock>, rules: ColumnRules,
                              refined: seq<LayoutBlock>)
  {
    |refined| == |blocks| && MappedUpTo(blocks, Refinement(text, rules), refined, |blocks|)
  }

  ghost predicate MappedUpTo(blocks: seq<LayoutBlock>, refine: LayoutBlock -> LayoutBlock, refined: seq<LayoutBlock>, n: nat) {
    n <= |blocks| && n <= |refined| && forall k | 0 <= k < n :: refined[k] == refine(blocks[k])
  }

  lemma MappedOneMore(blocks: seq<LayoutBlock>, refine: LayoutBlock -> LayoutBlock, refined: seq<LayoutBlock>, next: LayoutBlock)
    requires MappedUpTo(blocks, refine, refined, |refined|) && |refined| < |blocks| && next == refine(blocks[|refined|])
    ensures MappedUpTo(blocks, refine, refined + [next], |refined| + 1)
  {
  }

  lemma EachKeepsLines(text: seq<TextLine>, blocks: seq<LayoutBlock>, rules: ColumnRules, refined: seq<LayoutBlock>)
    requires EachRefined(text, blocks, rules, refined)
    ensures SameButLines(blocks, refined)
  {
    forall k | 0 <= k < |blocks|
      ensures SameButLineOrder(blocks[k], refined[k])
    {
      RefinedKeepsLines(text, blocks[k], rules);
    }
  }

  datatype RefinementStats = RefinementStats(reorderedBlocks: nat, maximumColumns: nat)

  /** How many of the first n blocks are reread, and the most columns one of them is read in. */
  function StatsOf(blocks: seq<LayoutBlock>, columns: LayoutBlock -> nat, n: nat): RefinementStats
    requires n <= |blocks|
  {
    if n == 0 then RefinementStats(0, 0) else WithBlock(StatsOf(blocks, columns, n - 1), columns(blocks[n - 1]))
  }

  function WithBlock(stats: RefinementStats, columns: nat): RefinementStats {
    if columns == 0 then stats
    else RefinementStats(stats.reorderedBlocks + 1, if columns > stats.maximumColumns then columns else stats.maximumColumns)
  }

  /** A block that changes is read in two to four columns. */
  lemma ColumnsReadBounds(text: seq<TextLine>, b: LayoutBlock, rules: ColumnRules)
    ensures ColumnsRead(text, b, rules) == 0 <==> Refined(text, b, rules) == b
    ensures ColumnsRead(text, b, rules) != 0 ==> 2 <= ColumnsRead(text, b, rules) <= 4
  {
    DetectedColumnsShareLines(text, b.lines, MedianHeight(text, b.lines), rules);
  }

  lemma {:induction false} StatsFollowBlocks(blocks: seq<LayoutBlock>, refine: LayoutBlock -> LayoutBlock,
                                             columns: LayoutBlock -> nat, n: nat)
    requires n <= |blocks|
    requires forall b :: (columns(b) == 0 <==> refine(b) == b) && (columns(b) != 0 ==> 2 <= columns(b) <= 4)
    ensures var stats := StatsOf(blocks, columns, n);
            && stats.reorderedBlocks <= n
            && (stats.reorderedBlocks == 0 <==> forall k | 0 <= k < n :: refine(blocks[k]) == blocks[k])
            && (if stats.reorderedBlocks == 0 then stats.maximumColumns == 0 else 2 <= stats.maximumColumns <= 4)
  {
    if n > 0 {
      StatsFollowBlocks(blocks, refine, columns, n - 1);
    }
  }

  /** The statistics tell whether anything changed, and the columns they name are two to four. */
  lemma StatsAreHonest(text: seq<TextLine>, blocks: seq<LayoutBlock>, rules: ColumnRules, refined: seq<LayoutBlock>)
    requires EachRefined(text, blocks, rules, refined)
    ensures var stats := StatsOf(blocks, Reading(text, rules), |blocks|);
            && stats.reorderedBlocks <= |blocks|
            && (stats.reorderedBlocks == 0 <==> refined == blocks)
            && (if stats.reorderedBlocks == 0 then stats.maximumColumns == 0 else 2 <= stats.maximumColumns <= 4)
  {
    var refine, columns := Refinement(text, rules), Reading(text, rules);
    forall b
      ensures (columns(b) == 0 <==> refine(b) == b) && (columns(b) != 0 ==> 2 <= columns(b) <= 4)
    {
      ColumnsReadBounds(text, b, rules);
    }
    StatsFollowBlocks(blocks, refine, columns, |blocks|);
    UnchangedIffMappedToSame(blocks, refine, refined);
  }

  lemma UnchangedIffMappedToSame(blocks: seq<LayoutBlock>, refine: LayoutBlock -> LayoutBlock, refined: seq<LayoutBlock>)
    requires |refined| == |blocks| && MappedUpTo(blocks, refine, refined, |blocks|)
    ensures refined == blocks <==> forall k | 0 <= k < |blocks| :: refine(blocks[k]) == blocks[k]
  {
  }

  /** Every block keeps its lines; only their order may change. */
  method RefineMultiColumnTextLineOrder(text: seq<TextLine>, blocks: seq<LayoutBlock>, rules: ColumnRules)
    returns (refined: seq<LayoutBlock>, stats: RefinementStats)
    ensures EachRefined(text, blocks, rules, refined) && stats == StatsOf(blocks, Reading(text, rules), |blocks|)
    ensures SameButLines(blocks, refined) && OwnedLines(refined) == OwnedLines(blocks)
  {
    refined, stats := RefineEach(text, blocks, rules);
    EachKeepsLines(text, blocks, rules, refined);
    SameLinesOwned(blocks, refined);
  }

  method RefineEach(text: seq<TextLine>, blocks: seq<LayoutBlock>, rules: ColumnRules)
    returns (refined: seq<LayoutBlock>, stats: RefinementStats)
    ensures EachRefined(text, blocks, rules, refined) && stats == StatsOf(blocks, Reading(text, rules), |blocks|)
  {
    ghost var refine, reading := Refinement(text, rules), Reading(text, rules);
    refined, stats := [], RefinementStats(0, 0);
    for i := 0 to |blocks|
      invariant |refined| == i && MappedUpTo(blocks, refine, refined, i) && stats == StatsOf(blocks, reading, i)
    {
      var next, columns := RefineBlock(text, blocks[i], rules);
      MappedOneMore(blocks, refine, refined, next);
      refined, stats := refined + [next], WithBlock(stats, columns);
    }
  }
}
