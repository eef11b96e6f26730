/**
  The measures and thresholds of the layout code in terms of edges alone: which lines
  join, which groups are neighbours, which group a block takes, what counts as furniture.
 */
module LayoutMeasures {
  import opened Sorting
  import opened LayoutModel
  import opened TextGeometry
  import opened PageGeometry
  import opened LineGroups
  import opened GridGeometry
  import opened GridSearch
  import opened GridMerge
  import opened LineColumns
  import opened LineRecovery

  // ---- intervals ----

  /** Neither interval begins further than t behind the end of the other. */
  predicate Within(a0: real, a1: real, b0: real, b1: real, t: real) { b0 <= a1 + t && a0 <= b1 + t }

  /** Every end lies at least t behind every beginning. */
  predicate Share(a0: real, a1: real, b0: real, b1: real, t: real) {
    a0 + t <= a1 && a0 + t <= b1 && b0 + t <= a1 && b0 + t <= b1
  }

  lemma GapIsAtMost(a0: real, a1: real, b0: real, b1: real, t: real)
    requires a0 <= a1 && b0 <= b1 && t >= 0.0
    ensures IntervalGap(a0, a1, b0, b1) <= t <==> Within(a0, a1, b0, b1, t)
  {
  }

  lemma SharedIsAtLeast(a0: real, a1: real, b0: real, b1: real, t: real)
    requires t > 0.0
    ensures Shared(a0, a1, b0, b1) >= t <==> Share(a0, a1, b0, b1, t)
  {
  }

  /** Two intervals share what they do not lie apart: one of the two lengths is always nothing. */
  lemma GapOrShared(a0: real, a1: real, b0: real, b1: real)
    requires a0 <= a1 && b0 <= b1
    ensures Shared(a0, a1, b0, b1) == 0.0 || IntervalGap(a0, a1, b0, b1) == 0.0
    ensures Shared(a0, a1, b0, b1) - IntervalGap(a0, a1, b0, b1) ==
            (if a1 <= b1 then a1 else b1) - (if a0 <= b0 then b0 else a0)
  {
  }

  function Length(a: real, b: real): real { if a < b then b - a else 0.0 }

  function Smaller(a: real, b: real): real { if a < b then a else b }

  function Larger(a: real, b: real): real { if a < b then b else a }

  /** The shared width makes up the given share of the narrower one, and of a thousandth at least. */
  lemma WidthShareIsAtLeast(a: BBox, b: BBox, narrower: real, share: real)
    requires share > 0.0
    ensures OverlapOfWidth(a, b, narrower) >= share <==>
            Share(a.x0, a.x1, b.x0, b.x1, share * Larger(0.001, narrower))
  {
    var shared, width := Shared(a.x0, a.x1, b.x0, b.x1), Larger(0.001, narrower);
    RatioIsAtLeast(shared, width, share);
    PositiveProduct(share, width);
    SharedIsAtLeast(a.x0, a.x1, b.x0, b.x1, share * width);
  }

  lemma PositiveProduct(a: real, b: real)
    requires a > 0.0 && b > 0.0
    ensures a * b > 0.0
  {
  }

  lemma RatioIsAtLeast(part: real, whole: real, share: real)
    requires whole > 0.0
    ensures part / whole >= share <==> part >= share * whole
  {
    var ratio := part / whole;
    assert part == ratio * whole;
    if ratio >= share {
      assert (ratio - share) * whole >= 0.0;
    } else {
      assert (share - ratio) * whole > 0.0;
    }
  }

  // ---- lines ----

  predicate ProperBox(b: BBox) { b.x0 <= b.x1 && b.y0 <= b.y1 }

  /**
    Beside each other: half of the lower line in the other's row, and not more than three
    quarters of a height apart.
   */
  predicate Beside(p: BBox, c: BBox) {
    var shorter, reference := Smaller(p.y1 - p.y0, c.y1 - c.y0), Larger(p.y1 - p.y0, c.y1 - c.y0);
    Share(p.y0, p.y1, c.y0, c.y1, 0.5 * shorter) && Within(p.x0, p.x1, c.x0, c.x1, 0.75 * reference)
  }

  /**
    Below: from a quarter of a height into the row to 1.6 heights under it, and a quarter of
    the width above each other or not far indented.
   */
  predicate Below(p: BBox, c: BBox) {
    var shorter, reference := Smaller(p.y1 - p.y0, c.y1 - c.y0), Larger(p.y1 - p.y0, c.y1 - c.y0);
    var narrower := Smaller(p.x1 - p.x0, c.x1 - c.x0);
    && !Share(p.y0, p.y1, c.y0, c.y1, 0.5 * shorter)
    && p.y1 - 0.25 * reference <= c.y0 <= p.y1 + 1.6 * reference
    && (Share(p.x0, p.x1, c.x0, c.x1, 0.25 * Larger(0.001, narrower))
        || (c.x0 <= p.x0 + 2.5 * reference && p.x0 <= c.x0 + 2.5 * reference))
  }

  /** The source's two tests, for lines with a height. */
  lemma RowTestsSay(p: BBox, c: BBox, shorter: real, reference: real)
    requires ProperBox(p) && ProperBox(c) && shorter > 0.0 && reference > 0.0
    ensures Shared(p.y0, p.y1, c.y0, c.y1) >= 0.5 * shorter <==> Share(p.y0, p.y1, c.y0, c.y1, 0.5 * shorter)
    ensures IntervalGap(p.x0, p.x1, c.x0, c.x1) <= reference * 0.75 <==> Within(p.x0, p.x1, c.x0, c.x1, 0.75 * reference)
    ensures OverlapOfWidth(p, c, Smaller(p.x1 - p.x0, c.x1 - c.x0)) >= 0.25 <==>
            Share(p.x0, p.x1, c.x0, c.x1, 0.25 * Larger(0.001, Smaller(p.x1 - p.x0, c.x1 - c.x0)))
  {
    SharedIsAtLeast(p.y0, p.y1, c.y0, c.y1, 0.5 * shorter);
    GapIsAtMost(p.x0, p.x1, c.x0, c.x1, 0.75 * reference);
    WidthShareIsAtLeast(p, c, Smaller(p.x1 - p.x0, c.x1 - c.x0), 0.25);
  }

  /** A line joins the one before it exactly when both have a height and it lies beside or below it. */
  lemma JoinsExactlyWhen(p: BBox, c: BBox)
    requires ProperBox(p) && ProperBox(c)
    ensures CanJoin(p, c) <==> p.y0 < p.y1 && c.y0 < c.y1 && (Beside(p, c) || Below(p, c))
  {
    var shorter, reference := Smaller(p.y1 - p.y0, c.y1 - c.y0), Larger(p.y1 - p.y0, c.y1 - c.y0);
    if shorter > 0.0 {
      RowTestsSay(p, c, shorter, reference);
    }
  }

  // ---- groups of a grid ----

  /**
    In one row and at most 35 hundredths of the page's width apart, or in one column and at
    most eight lines or 18 hundredths of its height.
   */
  lemma NeighboursExactlyWhen(a: Group, b: Group, size: PageSize, medianHeight: real)
    requires Proper(a) && Proper(b)
    ensures var w, h := Larger(1.0, size.width as real), Larger(1.0, size.height as real);
            var rowReach := Larger(3.0 * medianHeight, 0.024 * h);
            var columnReach := Larger(2.5 * medianHeight, 0.025 * w);
      PageGridRules(size, medianHeight).neighbours(a, b) <==>
      || (&& Within(a.bbox.y0 + a.bbox.y1, a.bbox.y0 + a.bbox.y1, b.bbox.y0 + b.bbox.y1, b.bbox.y0 + b.bbox.y1, rowReach)
          && Within(a.bbox.x0, a.bbox.x1, b.bbox.x0, b.bbox.x1, 0.35 * w))
      || (&& Within(a.bbox.x0, a.bbox.x0, b.bbox.x0, b.bbox.x0, columnReach)
          && Within(a.bbox.y0, a.bbox.y1, b.bbox.y0, b.bbox.y1, Larger(8.0 * medianHeight, 0.18 * h)))
  {
    var w, h := Larger(1.0, size.width as real), Larger(1.0, size.height as real);
    GapIsAtMost(a.bbox.x0, a.bbox.x1, b.bbox.x0, b.bbox.x1, 0.35 * w);
    GapIsAtMost(a.bbox.y0, a.bbox.y1, b.bbox.y0, b.bbox.y1, Larger(8.0 * medianHeight, 0.18 * h));
  }

  /** A plain group of at most three lines, not too wide and not too high for a cell. */
  lemma CandidateExactlyWhen(g: Group, size: PageSize, medianHeight: real)
    ensures IsCandidate(g, PageGridRules(size, medianHeight)) <==>
            && !g.grid && |g.lines| <= 3
            && g.bbox.x1 <= g.bbox.x0 + 0.45 * Larger(1.0, size.width as real)
            && (g.bbox.y1 <= g.bbox.y0 + 3.25 * medianHeight || g.bbox.y1 <= g.bbox.y0 + 0.06 * Larger(1.0, size.height as real))
  {
  }

  /**
    A plain group of at most four lines is drawn into a grid when its centre lies within two
    line heights of the grid's box and it is not too high.
   */
  lemma AbsorbedExactlyWhen(g: Group, box: BBox, size: PageSize, medianHeight: real)
    ensures var rules := PageGridRules(size, medianHeight);
      IsAbsorbed(g, box, rules) <==>
      && !g.grid && |g.lines| <= 4
      && g.bbox.y1 <= g.bbox.y0 + 6.0 * medianHeight
      && Within(g.bbox.x0 + g.bbox.x1, g.bbox.x0 + g.bbox.x1, 2.0 * box.x0, 2.0 * box.x1, 4.0 * medianHeight)
      && Within(g.bbox.y0 + g.bbox.y1, g.bbox.y0 + g.bbox.y1, 2.0 * box.y0, 2.0 * box.y1, 4.0 * medianHeight)
  {
  }

  // ---- the block that takes a group ----

  /** At least the share of the narrower of the two lies above or below the other, and they are at most t apart. */
  predicate Stacked(a: BBox, b: BBox, share: real, t: real) {
    && Share(a.x0, a.x1, b.x0, b.x1, share * Larger(0.001, Smaller(a.x1 - a.x0, b.x1 - b.x0)))
    && Within(a.y0, a.y1, b.y0, b.y1, t)
  }

  lemma StackedExactlyWhen(a: BBox, b: BBox, share: real, t: real)
    requires ProperBox(a) && ProperBox(b) && share > 0.0 && t >= 0.0
    ensures OverlapOfWidth(a, b, Smaller(a.x1 - a.x0, b.x1 - b.x0)) >= share && IntervalGap(a.y0, a.y1, b.y0, b.y1) <= t
            <==> Stacked(a, b, share, t)
  {
    WidthShareIsAtLeast(a, b, Smaller(a.x1 - a.x0, b.x1 - b.x0), share);
    GapIsAtMost(a.y0, a.y1, b.y0, b.y1, t);
  }

  ghost predicate ProperBlocks(blocks: seq<LayoutBlock>) { forall i | 0 <= i < |blocks| :: ProperBox(blocks[i].bbox) }

  /** A group may be attached when its text allows it, it is a low and wide line, and no figure or table is near. */
  lemma AttachableExactlyWhen(blocks: seq<LayoutBlock>, g: Group, size: PageSize, medianHeight: real, patterns: TextPatterns)
    requires ProperBox(g.bbox) && ProperBlocks(blocks) && medianHeight > 0.0
    ensures PageRecoveryRules(size, medianHeight, patterns).attachable(blocks, g) <==>
      && patterns.attachable(g)
      && g.bbox.y1 <= g.bbox.y0 + 2.25 * medianHeight
      && g.bbox.x0 + 5.0 * medianHeight <= g.bbox.x1 && g.bbox.x0 + 0.06 * Larger(1.0, size.width as real) <= g.bbox.x1
      && forall b | b in blocks && (b.kind == Figure || b.kind == BlockType.Table) ::
           !Stacked(g.bbox, b.bbox, 0.25, 2.0 * medianHeight)
  {
    forall i | 0 <= i < |blocks|
      ensures OverlapOfWidth(g.bbox, blocks[i].bbox, Min(g.bbox.x1 - g.bbox.x0, blocks[i].bbox.x1 - blocks[i].bbox.x0)) >= 0.25 &&
              IntervalGap(g.bbox.y0, g.bbox.y1, blocks[i].bbox.y0, blocks[i].bbox.y1) <= medianHeight * 2.0
              <==> Stacked(g.bbox, blocks[i].bbox, 0.25, 2.0 * medianHeight)
    {
      StackedExactlyWhen(g.bbox, blocks[i].bbox, 0.25, 2.0 * medianHeight);
    }
  }

  /** A text block with lines of its own takes a group close above or below it, but a title takes no list item. */
  lemma TakesExactlyWhen(b: LayoutBlock, g: Group, size: PageSize, medianHeight: real, patterns: TextPatterns)
    requires ProperBox(g.bbox) && medianHeight > 0.0
    ensures TakesLines(b, g, PageRecoveryRules(size, medianHeight, patterns)) <==>
      && b.kind in {Unknown, Title, Text, List} && b.lines != []
      && b.bbox.x0 < b.bbox.x1 && b.bbox.y0 < b.bbox.y1
      && (b.kind == Title ==> !patterns.listItem(g))
      && Stacked(g.bbox, b.bbox, 0.6, 1.25 * medianHeight)
  {
    if ProperBox(b.bbox) {
      StackedExactlyWhen(g.bbox, b.bbox, 0.6, 1.25 * medianHeight);
    }
  }

  /** Twenty steps of indentation weigh as much as one step further away. */
  lemma ScoreWeighs(b: BBox, g: BBox)
    requires ProperBox(b) && ProperBox(g)
    ensures Within(g.y0, g.y1, b.y0, b.y1, 0.0) ==> 20.0 * AttachmentScore(b, g) == Larger(g.x0 - b.x0, b.x0 - g.x0)
    ensures g.y1 < b.y0 ==> 20.0 * AttachmentScore(b, g) == 20.0 * (b.y0 - g.y1) + Larger(g.x0 - b.x0, b.x0 - g.x0)
    ensures b.y1 < g.y0 ==> 20.0 * AttachmentScore(b, g) == 20.0 * (g.y0 - b.y1) + Larger(g.x0 - b.x0, b.x0 - g.x0)
  {
  }

  /** The block that takes the group is one of the closest by this score. */
  lemma LowestIsClosest(blocks: seq<LayoutBlock>, g: Group, size: PageSize, medianHeight: real, patterns: TextPatterns)
    ensures var rules := PageRecoveryRules(size, medianHeight, patterns);
            var best := LowestScore(blocks, g, rules, |blocks|);
      best >= 0 ==>
        TakesLines(blocks[best], g, rules) &&
        forall i | 0 <= i < |blocks| && TakesLines(blocks[i], g, rules) ::
          AttachmentScore(blocks[best].bbox, g.bbox) <= AttachmentScore(blocks[i].bbox, g.bbox)
  {
    LowestIsLowest(blocks, g, PageRecoveryRules(size, medianHeight, patterns), |blocks|);
  }

  // ---- furniture and regions ----

  /** The area two boxes have in common. */
  function CommonArea(a: BBox, b: BBox): real {
    Length(Larger(a.x0, b.x0), Smaller(a.x1, b.x1)) * Length(Larger(a.y0, b.y0), Smaller(a.y1, b.y1))
  }

  lemma CommonAreaIsShared(a: BBox, b: BBox)
    ensures CommonArea(a, b) == Shared(a.x0, a.x1, b.x0, b.x1) * Shared(a.y0, a.y1, b.y0, b.y1)
  {
  }

  /** A header or footer lies over a tenth of the line, or around its centre. */
  lemma FurnitureExactlyWhen(line: BBox, blocks: seq<LayoutBlock>, size: PageSize, medianHeight: real, patterns: TextPatterns)
    requires line.x0 < line.x1 && line.y0 < line.y1
    ensures PageRecoveryRules(size, medianHeight, patterns).furniture(line, blocks) <==>
      exists i | 0 <= i < |blocks| :: blocks[i].kind in {Header, Footer} && LiesOver(blocks[i].bbox, line)
  {
    OverFurniture(line, blocks);
  }

  lemma OverFurniture(line: BBox, blocks: seq<LayoutBlock>)
    requires line.x0 < line.x1 && line.y0 < line.y1
    ensures OverlapsFurniture(line, blocks) <==>
      exists i | 0 <= i < |blocks| :: blocks[i].kind in {Header, Footer} && LiesOver(blocks[i].bbox, line)
  {
    forall i | 0 <= i < |blocks|
      ensures OverlapOverLine(line, blocks[i].bbox) >= 0.1 || ContainsCenter(blocks[i].bbox, line) <==>
              LiesOver(blocks[i].bbox, line)
    {
      OverLine(line, blocks[i].bbox);
    }
  }

  lemma OverLine(line: BBox, b: BBox)
    requires line.x0 < line.x1 && line.y0 < line.y1
    ensures OverlapOverLine(line, b) >= 0.1 || ContainsCenter(b, line) <==> LiesOver(b, line)
  {
    CoverIsAtLeast(line, b);
  }

  predicate LiesOver(b: BBox, line: BBox) {
    || 10.0 * CommonArea(line, b) >= (line.x1 - line.x0) * (line.y1 - line.y0)
    || (2.0 * b.x0 <= line.x0 + line.x1 <= 2.0 * b.x1 && 2.0 * b.y0 <= line.y0 + line.y1 <= 2.0 * b.y1)
  }

  lemma AreaIsProduct(b: BBox)
    requires b.x0 < b.x1 && b.y0 < b.y1
    ensures Area(b) == (b.x1 - b.x0) * (b.y1 - b.y0) && Area(b) > 0.0
  {
    PositiveProduct(b.x1 - b.x0, b.y1 - b.y0);
  }

  lemma CoverIsAtLeast(line: BBox, b: BBox)
    requires line.x0 < line.x1 && line.y0 < line.y1
    ensures OverlapOverLine(line, b) >= 0.1 <==> 10.0 * CommonArea(line, b) >= (line.x1 - line.x0) * (line.y1 - line.y0)
  {
    AreaIsProduct(line);
    CommonAreaIsShared(line, b);
    RatioIsAtLeast(CommonArea(line, b), Area(line), 0.1);
  }

  /** A table and a figure show the same region when their common area is at least half of all they cover. */
  lemma SameRegionExactlyWhen(table: BBox, figure: BBox)
    ensures SameVisualRegion(table, figure) <==>
      && table.x0 < table.x1 && table.y0 < table.y1 && figure.x0 < figure.x1 && figure.y0 < figure.y1
      && 3.0 * CommonArea(table, figure) >=
         (table.x1 - table.x0) * (table.y1 - table.y0) + (figure.x1 - figure.x0) * (figure.y1 - figure.y0)
  {
    if ValidBox(table) && ValidBox(figure) {
      AreaIsProduct(table);
      AreaIsProduct(figure);
      CommonAreaIsShared(table, figure);
    }
  }

  // ---- columns of lines ----

  /**
    Two columns are apart when more than three quarters of a line lie between them and they
    stand beside each other for a quarter of the shorter one.
   */
  lemma ApartExactlyWhen(left: BBox, right: BBox, medianHeight: real)
    ensures Apart(left, right, medianHeight) <==>
      && left.x1 + 0.75 * medianHeight < right.x0
      && Share(left.y0, left.y1, right.y0, right.y1, 0.25 * Larger(0.001, Smaller(left.y1 - left.y0, right.y1 - right.y0)))
  {
    SharedIsAtLeast(left.y0, left.y1, right.y0, right.y1, 0.25 * Larger(0.001, Smaller(left.y1 - left.y0, right.y1 - right.y0)));
  }

  lemma CenterOrderIsWeak(text: seq<TextLine>, lines: seq<int>)
    ensures WeakOrderOn(lines, (a, b) => CenterLess(text, a, b))
  {
  }

  /** Lines are gathered into columns from left to right by their centres, and downwards where these agree. */
  lemma GatheredFromTheLeft(text: seq<TextLine>, lines: seq<int>, i: nat, j: nat)
    requires i < j < |lines|
    ensures |ByCenter(text, lines)| == |lines|
    ensures var a, b := BoxAt(text, ByCenter(text, lines)[i]), BoxAt(text, ByCenter(text, lines)[j]);
            a.x0 + a.x1 <= b.x0 + b.x1 && (a.x0 + a.x1 == b.x0 + b.x1 ==> a.y0 <= b.y0)
  {
    var less := (a: int, b: int) => CenterLess(text, a, b);
    CenterOrderIsWeak(text, lines);
    SortMembers(lines, less);
    SortSorted(lines, less);
    assert !less(ByCenter(text, lines)[j], ByCenter(text, lines)[i]);
  }

  /**
    The source's two measures: the share of the narrower width a line and a column have in
    common, and when a line is too wide for any column.
   */
  lemma ColumnRulesSay(line: BBox, column: BBox, medianWidth: real, share: real)
    requires line.x0 <= line.x1 && share > 0.0
    ensures LineColumnRules().overlapRatio(line, column) >= share <==>
            Share(line.x0, line.x1, column.x0, column.x1, share * Larger(0.001, Smaller(line.x1 - line.x0, column.x1 - column.x0)))
    ensures LineColumnRules().tooWide(line, medianWidth) <==> line.x0 + 1.35 * medianWidth + 0.001 < line.x1
  {
    WidthShareIsAtLeast(line, column, Smaller(line.x1 - line.x0, column.x1 - column.x0), share);
  }
}
