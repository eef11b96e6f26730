/**
  The geometric measures of the layout code on exact reals. Each follows the source's
  formula; a quotient is guarded as the source guards it.
 */
module PageGeometry {
  import opened Sorting
  import opened LayoutModel
  import opened TextGeometry

  datatype PageSize = PageSize(width: int, height: int)

  function AtLeastOne(n: int): real { if n < 1 then 1.0 else n as real }

  function CenterX(b: BBox): real { (b.x0 + b.x1) * 0.5 }

  function CenterY(b: BBox): real { (b.y0 + b.y1) * 0.5 }

  function Area(b: BBox): real { Max(0.0, b.x1 - b.x0) * Max(0.0, b.y1 - b.y0) }

  /** The length two intervals share. */
  function Shared(a0: real, a1: real, b0: real, b1: real): real { Max(0.0, Min(a1, b1) - Max(a0, b0)) }

  /** How far apart two intervals are. */
  function IntervalGap(a0: real, a1: real, b0: real, b1: real): real {
    if a1 < b0 then b0 - a1 else if b1 < a0 then a0 - b1 else 0.0
  }

  /** The part of the line's area that the block covers. */
  function OverlapOverLine(line: BBox, block: BBox): real {
    if Area(line) <= 0.0 then 0.0
    else Shared(line.x0, line.x1, block.x0, block.x1) * Shared(line.y0, line.y1, block.y0, block.y1) / Area(line)
  }

  /** The shared width as a part of the given narrower width. */
  function OverlapOfWidth(a: BBox, b: BBox, narrower: real): real {
    Shared(a.x0, a.x1, b.x0, b.x1) / Max(0.001, narrower)
  }

  predicate ContainsCenter(outer: BBox, inner: BBox) {
    outer.x0 <= CenterX(inner) <= outer.x1 && outer.y0 <= CenterY(inner) <= outer.y1
  }

  predicate OverlapsFurniture(line: BBox, blocks: seq<LayoutBlock>) {
    exists i | 0 <= i < |blocks| ::
      && (blocks[i].kind == Header || blocks[i].kind == Footer)
      && (OverlapOverLine(line, blocks[i].bbox) >= 0.1 || ContainsCenter(blocks[i].bbox, line))
  }

  /** Whether a line continues the group whose last line is `previous`: beside it in its row, or below it. */
  predicate CanJoin(previous: BBox, current: BBox) {
    var previousHeight, currentHeight := Max(0.0, previous.y1 - previous.y0), Max(0.0, current.y1 - current.y0);
    var reference, shorter := Max(previousHeight, currentHeight), Min(previousHeight, currentHeight);
    && shorter > 0.0
    && if Shared(previous.y0, previous.y1, current.y0, current.y1) >= 0.5 * shorter then
        IntervalGap(previous.x0, previous.x1, current.x0, current.x1) <= reference * 0.75
      else
        && -(reference * 0.25) <= current.y0 - previous.y1 <= reference * 1.6
        && (OverlapOfWidth(previous, current, Min(Max(0.0, previous.x1 - previous.x0), Max(0.0, current.x1 - current.x0))) >= 0.25
            || Abs(previous.x0 - current.x0) <= reference * 2.5)
  }

  predicate SameVisualRegion(table: BBox, figure: BBox) {
    && ValidBox(table) && ValidBox(figure)
    && var both := Shared(table.x0, table.x1, figure.x0, figure.x1) * Shared(table.y0, table.y1, figure.y0, figure.y1);
    both >= 0.5 * (Area(table) + Area(figure) - both)
  }

  // ---- medians ----

  function Ascending(values: seq<real>): seq<real> { StableSort(values, (a: real, b: real) => a < b) }

  /** The middle value, or the mean of the two middle ones. */
  function Median(values: seq<real>): real {
    SortMembers(values, (a: real, b: real) => a < b);
    var sorted, middle := Ascending(values), |values| / 2;
    if values == [] then 0.0
    else if |values| % 2 != 0 then sorted[middle]
    else (sorted[middle - 1] + sorted[middle]) * 0.5
  }

  lemma MedianOfPositive(values: seq<real>)
    requires values != [] && forall i | 0 <= i < |values| :: values[i] > 0.0
    ensures Median(values) > 0.0
  {
    SortMembers(values, (a: real, b: real) => a < b);
    var sorted := Ascending(values);
    forall i | 0 <= i < |sorted|
      ensures sorted[i] > 0.0
    {
      assert sorted[i] in values;
    }
  }

  /**
    At least half of the values are not above the median, at least half are not below it,
    and it lies midway between the two in the middle.
   */
  lemma MedianIsMiddle(values: seq<real>)
    requires values != []
    ensures var sorted := Ascending(values);
            && |sorted| == |values| && multiset(sorted) == multiset(values)
            && (forall i | 0 <= i < |sorted| && 2 * i < |sorted| :: sorted[i] <= Median(values))
            && (forall i | 0 <= i < |sorted| && 2 * (i + 1) > |sorted| :: Median(values) <= sorted[i])
            && (|sorted| % 2 == 1 ==> Median(values) == sorted[|sorted| / 2])
            && (|sorted| % 2 == 0 ==> Median(values) - sorted[|sorted| / 2 - 1] == sorted[|sorted| / 2] - Median(values))
  {
    var less := (a: real, b: real) => a < b;
    SortMultiset(values, less);
    SortSorted(values, less);
  }

  function VisibleHeights(text: seq<TextLine>, n: nat): seq<real>
    requires n <= |text|
  {
    if n == 0 then []
    else
      var line := text[n - 1];
      var height := line.bbox.y1 - line.bbox.y0;
      VisibleHeights(text, n - 1) + (if height > 0.0 && line.visible then [height] else [])
  }

  predicate HasHeight(line: TextLine) { line.visible && line.bbox.y1 > line.bbox.y0 }

  lemma {:induction false} VisibleHeightsArePositive(text: seq<TextLine>, n: nat)
    requires n <= |text|
    ensures forall i | 0 <= i < |VisibleHeights(text, n)| :: VisibleHeights(text, n)[i] > 0.0
    ensures VisibleHeights(text, n) != [] <==> exists l | 0 <= l < n :: HasHeight(text[l])
  {
    if n > 0 {
      VisibleHeightsArePositive(text, n - 1);
      if VisibleHeights(text, n) != [] && !HasHeight(text[n - 1]) {
        var l :| 0 <= l < n - 1 && HasHeight(text[l]);
        assert l < n;
      }
    }
  }

  function MedianTextLineHeight(text: seq<TextLine>): real { Median(VisibleHeights(text, |text|)) }

  /** The median height is positive exactly when some line shows text and has a height. */
  lemma MedianLineHeightIsPositive(text: seq<TextLine>)
    ensures MedianTextLineHeight(text) > 0.0 <==> exists l | 0 <= l < |text| :: HasHeight(text[l])
  {
    VisibleHeightsArePositive(text, |text|);
    if VisibleHeights(text, |text|) != [] {
      MedianOfPositive(VisibleHeights(text, |text|));
    }
  }

  method MedianLineHeight(text: seq<TextLine>) returns (median: real)
    ensures median == MedianTextLineHeight(text)
  {
    var heights := [];
    for i := 0 to |text|
      invariant heights == VisibleHeights(text, i)
    {
      var height := text[i].bbox.y1 - text[i].bbox.y0;
      if height > 0.0 && text[i].visible {
        heights := heights + [height];
      }
    }
    median := Median(heights);
  }
}
