/**
  What the comparisons behind the reading order mean in the coordinates of the page:
  sorted blocks read downwards, the earliest ready block is the leftmost column's
  topmost one, and the edge given up is the least confident of its cycle.
 */
module ReadingGeometry {
  import opened LayoutModel
  import opened ReadingOrderModel
  import opened CycleSearch
  import opened TopologicalOrder
  import opened ConstraintGraph
  import opened BandGraph
  import opened BandOrder
  import opened BandDivision

  // ---- columns ----

  /** The length the block's and the column's horizontal extents have in common. */
  lemma OverlapIsSharedLength(b: BBox, c: Column)
    requires b.x0 <= b.x1 && c.x0 <= c.x1
    ensures HorizontalOverlap(b, c) ==
            if b.x1 <= c.x0 || c.x1 <= b.x0 then 0.0
            else if b.x0 <= c.x0 then (if b.x1 <= c.x1 then b.x1 - c.x0 else c.x1 - c.x0)
            else if b.x1 <= c.x1 then b.x1 - b.x0 else c.x1 - b.x0
  {
  }

  /** The shares of the block and of the column that lie in each other, as the source computes them. */
  lemma MatchesByRatio(b: BBox, c: Column)
    ensures Matches(b, c) <==>
            var width := if b.x1 - b.x0 > EPSILON then b.x1 - b.x0 else EPSILON;
            var room := if c.x1 - c.x0 > EPSILON then c.x1 - c.x0 else EPSILON;
            HorizontalOverlap(b, c) / width >= 0.10 || HorizontalOverlap(b, c) / room >= 0.20
  {
    var width := if b.x1 - b.x0 > EPSILON then b.x1 - b.x0 else EPSILON;
    var room := if c.x1 - c.x0 > EPSILON then c.x1 - c.x0 else EPSILON;
    ShareAtLeast(HorizontalOverlap(b, c), width, 0.10);
    ShareAtLeast(HorizontalOverlap(b, c), room, 0.20);
  }

  lemma ShareAtLeast(part: real, whole: real, share: real)
    requires whole > 0.0
    ensures part / whole >= share <==> part >= share * whole
  {
    var ratio := part / whole;
    assert part == ratio * whole;
    if ratio >= share {
      assert (ratio - share) * whole >= 0.0;
    } else {
      assert (share - ratio) * whole > 0.0;
    }
  }

  /** Twice the distance is how far the sums of the edges lie apart. */
  lemma DistanceIsBetweenCentres(b: BBox, c: Column)
    ensures var apart := (b.x0 + b.x1) - (c.x0 + c.x1);
            2.0 * ColumnDistance(b, c) == if apart >= 0.0 then apart else -apart
  {
  }

  // ---- sorted blocks ----

  ghost predicate TopEdgesRise(elements: seq<PageElement>, s: seq<nat>)
    requires forall i | 0 <= i < |s| :: s[i] < |elements|
  {
    forall i, j | 0 <= i < j < |s| ::
      var a, b := elements[s[i]], elements[s[j]];
      && a.bbox.y0 <= b.bbox.y0 && (a.bbox.y0 == b.bbox.y0 ==> a.bbox.x0 <= b.bbox.x0)
      && (a.bbox.y0 == b.bbox.y0 && a.bbox.x0 == b.bbox.x0 ==> a.layoutBlockIndex < b.layoutBlockIndex)
  }

  /** Separators in page order go down by their top edges, then to the right. */
  lemma PageOrderReadsDown(elements: seq<PageElement>, s: seq<nat>)
    requires PositionSorted(elements, s)
    ensures TopEdgesRise(elements, s)
  {
  }

  ghost predicate CentresRise(elements: seq<PageElement>, s: seq<nat>)
    requires forall i | 0 <= i < |s| :: s[i] < |elements|
  {
    forall i, j | 0 <= i < j < |s| ::
      var a, b := elements[s[i]], elements[s[j]];
      var high, low := a.bbox.y0 + a.bbox.y1, b.bbox.y0 + b.bbox.y1;
      && high <= low && (high == low ==> a.bbox.x0 <= b.bbox.x0)
      && (high == low && a.bbox.x0 == b.bbox.x0 ==> a.layoutBlockIndex < b.layoutBlockIndex)
  }

  /** A column goes down by the centres of its blocks, then to the right. */
  lemma ColumnReadsDown(elements: seq<PageElement>, s: seq<nat>)
    requires VerticallySorted(elements, s)
    ensures CentresRise(elements, s)
  {
  }

  /** Neighbours in a column are constrained when their middles are more than a thousandth apart. */
  lemma FarApartExactlyWhen(elements: seq<PageElement>, a: nat, b: nat)
    requires a < |elements| && b < |elements|
    ensures var high, low := elements[a].bbox.y0 + elements[a].bbox.y1, elements[b].bbox.y0 + elements[b].bbox.y1;
            FarApart(elements, a, b) <==> 1000.0 * (low - high) > 2.0 || 1000.0 * (high - low) > 2.0
  {
  }

  /** Hints never fall, and equal hints keep the order of the blocks. */
  lemma HintsRise(elements: seq<PageElement>, hinted: seq<nat>, i: nat, j: nat)
    requires HintSorted(elements, hinted) && i < j < |hinted|
    ensures var first, second := elements[hinted[i]].block.readingOrderHint, elements[hinted[j]].block.readingOrderHint;
            0 <= first <= second && (first == second ==> hinted[i] < hinted[j])
  {
    assert hinted[i] in hinted && hinted[j] in hinted;
  }

  // ---- the sort ----

  /**
    What the priority among ready elements comes to: with several columns the leftmost
    first, then the topmost, then the leftmost, then the one listed first.
   */
  lemma EarliestReadyReadsFirst(elements: seq<PageElement>, ranges: seq<ColumnRange>, columnCount: nat,
                                edges: seq<WeightedEdge>, order: seq<nat>, removals: seq<Removal>, p: nat, v: nat)
    requires |elements| == |ranges| && forall i | 0 <= i < |order| :: order[i] < |elements|
    requires Greedy(elements, ranges, columnCount, edges, order, removals)
    requires p < |order| && v < |elements| && v !in order[..p] && ReadyAt(edges, order, removals, v, p)
    ensures var a, b := elements[order[p]], elements[v];
            var sameColumn := columnCount <= 1 || ranges[order[p]].first == ranges[v].first;
      && (columnCount > 1 ==> ranges[order[p]].first <= ranges[v].first)
      && (sameColumn ==> a.bbox.y0 <= b.bbox.y0)
      && (sameColumn && a.bbox.y0 == b.bbox.y0 ==> a.bbox.x0 <= b.bbox.x0)
      && (sameColumn && a.bbox.y0 == b.bbox.y0 && a.bbox.x0 == b.bbox.x0 ==> a.layoutBlockIndex <= b.layoutBlockIndex)
  {
    assert !ComesBefore(elements, ranges, columnCount, v, order[p]);
  }

  /** A text is earlier when it ends first, or has the smaller character, where the two part. */
  ghost predicate PartsBefore(a: string, b: string, k: nat) {
    && k <= |a| && k < |b| && a[..k] == b[..k]
    && (k == |a| || a[k] < b[k])
  }

  lemma PartsOneLater(a: string, b: string, k: nat)
    requires a != [] && b != [] && a[0] == b[0] && PartsBefore(a[1..], b[1..], k)
    ensures PartsBefore(a, b, k + 1)
  {
    assert a[..k + 1] == [a[0]] + a[1..][..k] && b[..k + 1] == [b[0]] + b[1..][..k];
  }

  lemma {:induction false} WhereTheyPart(a: string, b: string) returns (k: nat)
    requires StringLess(a, b)
    ensures PartsBefore(a, b, k)
  {
    if a == [] || a[0] < b[0] {
      k := 0;
    } else {
      k := WhereTheyPart(a[1..], b[1..]);
      PartsOneLater(a, b, k);
      k := k + 1;
    }
  }

  lemma PartsOneEarlier(a: string, b: string, k: nat)
    requires k > 0 && PartsBefore(a, b, k)
    ensures a[0] == b[0] && PartsBefore(a[1..], b[1..], k - 1)
  {
    assert a[..k][0] == a[0] && b[..k][0] == b[0];
    assert a[1..][..k - 1] == a[..k][1..] && b[1..][..k - 1] == b[..k][1..];
  }

  lemma {:induction false} PartingIsLess(a: string, b: string, k: nat)
    requires PartsBefore(a, b, k)
    ensures StringLess(a, b)
  {
    if k > 0 {
      PartsOneEarlier(a, b, k);
      PartingIsLess(a[1..], b[1..], k - 1);
    }
  }

  /** Reasons are compared like words in a dictionary. */
  lemma TextsCompareWhereTheyPart(a: string, b: string)
    ensures StringLess(a, b) <==> exists k: nat :: PartsBefore(a, b, k)
  {
    if StringLess(a, b) {
      var k := WhereTheyPart(a, b);
    }
    forall k: nat | PartsBefore(a, b, k)
      ensures StringLess(a, b)
    {
      PartingIsLess(a, b, k);
    }
  }

  lemma {:induction false} NotBelowItself(a: string)
    ensures !StringLess(a, a)
  {
    if a != [] {
      NotBelowItself(a[1..]);
    }
  }

  /** The edge given up has the least confidence on its cycle, then the earliest reason, then the earliest ends. */
  lemma SacrificeIsLeastConfident(n: nat, edges: seq<WeightedEdge>, c: seq<nat>, edge: nat, k: nat)
    requires WeakestOnCycle(n, edges, c, edge) && k < |c|
    ensures var given, other := edges[edge], edges[c[k]];
      && given.confidence <= other.confidence
      && (given.confidence == other.confidence ==> !StringLess(other.reason, given.reason))
      && (given.confidence == other.confidence && given.reason == other.reason ==>
            given.from < other.from || (given.from == other.from && given.to <= other.to))
  {
    assert !WeakerEdge(edges[c[k]], edges[edge]);
    NotBelowItself(edges[edge].reason);
  }

  /** The trace names the ends, the reason and the confidence of every edge given up. */
  lemma BreaksNameTheirEdges(elements: seq<PageElement>, edges: seq<WeightedEdge>, removals: seq<Removal>,
                             breaks: seq<CycleBreak>, t: nat)
    requires ValidEdges(edges, |elements|) && Recorded(elements, edges, removals, breaks) && t < |breaks|
    ensures var e := edges[removals[t].edge];
      && breaks[t].fromId == elements[e.from].block.id && breaks[t].toId == elements[e.to].block.id
      && breaks[t].reason == e.reason && breaks[t].confidence == e.confidence
  {
  }

  // ---- separators ----

  /**
    A separator reaches into the first and the last of at least two columns and covers 55
    hundredths of the width between them.
   */
  lemma SeparatorExactlyWhen(b: BBox, columns: seq<Column>)
    ensures Separator(b, columns) <==>
            && |columns| >= 2 && Matches(b, columns[0]) && Matches(b, columns[|columns| - 1])
            && 100.0 * (if b.x1 > b.x0 then b.x1 - b.x0 else 0.0) >= 55.0 * (columns[|columns| - 1].x1 - columns[0].x0)
  {
    if |columns| >= 2 && Matches(b, columns[0]) && Matches(b, columns[|columns| - 1]) {
      assert Located(b, columns, ColumnRange(0, |columns| - 1));
    }
  }
}
