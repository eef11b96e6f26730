/**
  Ordering one horizontal band: locate each block's columns, build the constraint
  graph, sort it. Column inference itself is a
  parameter; every result holds for whatever columns it proposes.
 */
module BandOrder {
  import opened LayoutModel
  import opened ReadingOrderModel
  import opened Sequences
  import opened CycleSearch
  import opened TopologicalOrder
  import opened ConstraintGraph
  import opened BandGraph

  type ColumnInference = seq<PageElement> -> seq<Column>

  function HorizontalOverlap(b: BBox, c: Column): real { Max(0.0, Min(b.x1, c.x1) - Max(b.x0, c.x0)) }

  /** The overlap is at least a tenth of the block or a fifth of the column; the ratios are multiplied out. */
  predicate Matches(b: BBox, c: Column) {
    var overlap := HorizontalOverlap(b, c);
    overlap >= 0.10 * Max(EPSILON, Width(b)) || overlap >= 0.20 * Max(EPSILON, c.x1 - c.x0)
  }

  function ColumnDistance(b: BBox, c: Column): real { Abs(CenterX(b) - (c.x0 + c.x1) * 0.5) }

  /** r spans the first to the last matching column; without a match it is the first nearest one. */
  ghost predicate Located(b: BBox, columns: seq<Column>, r: ColumnRange) {
    if |columns| <= 1 then r == ColumnRange(0, 0)
    else if exists i | 0 <= i < |columns| :: Matches(b, columns[i]) then
      && r.first <= r.last < |columns|
      && Matches(b, columns[r.first]) && Matches(b, columns[r.last])
      && forall i | 0 <= i < |columns| && Matches(b, columns[i]) :: r.first <= i <= r.last
    else
      && r.first == r.last < |columns|
      && (forall i | 0 <= i < |columns| :: ColumnDistance(b, columns[i]) >= ColumnDistance(b, columns[r.first]))
      && forall i | 0 <= i < r.first :: ColumnDistance(b, columns[i]) > ColumnDistance(b, columns[r.first])
  }

  lemma LocatedIsUnique(b: BBox, columns: seq<Column>, r: ColumnRange, s: ColumnRange)
    requires Located(b, columns, r) && Located(b, columns, s)
    ensures r == s
  {
    if |columns| > 1 && !exists i | 0 <= i < |columns| :: Matches(b, columns[i]) {
      assert ColumnDistance(b, columns[r.first]) == ColumnDistance(b, columns[s.first]);
    }
  }

  method MatchingColumns(b: BBox, columns: seq<Column>) returns (matched: seq<nat>)
    ensures forall k | 0 <= k < |matched| :: matched[k] < |columns| && Matches(b, columns[matched[k]])
    ensures forall j, k | 0 <= j < k < |matched| :: matched[j] < matched[k]
    ensures forall j: nat | j < |columns| && Matches(b, columns[j]) :: j in matched
  {
    matched := [];
    for i := 0 to |columns|
      invariant forall k | 0 <= k < |matched| :: matched[k] < i && Matches(b, columns[matched[k]])
      invariant forall j, k | 0 <= j < k < |matched| :: matched[j] < matched[k]
      invariant forall j: nat | j < i && Matches(b, columns[j]) :: j in matched
    {
      if Matches(b, columns[i]) {
        matched := matched + [i];
      }
    }
  }

  method NearestColumn(b: BBox, columns: seq<Column>) returns (nearest: nat)
    requires columns != []
    ensures nearest < |columns|
    ensures forall j | 0 <= j < |columns| :: ColumnDistance(b, columns[j]) >= ColumnDistance(b, columns[nearest])
    ensures forall j | 0 <= j < nearest :: ColumnDistance(b, columns[j]) > ColumnDistance(b, columns[nearest])
  {
    nearest := 0;
    for i := 1 to |columns|
      invariant nearest < i
      invariant forall j | 0 <= j < i :: ColumnDistance(b, columns[j]) >= ColumnDistance(b, columns[nearest])
      invariant forall j | 0 <= j < nearest :: ColumnDistance(b, columns[j]) > ColumnDistance(b, columns[nearest])
    {
      if ColumnDistance(b, columns[i]) < ColumnDistance(b, columns[nearest]) {
        nearest := i;
      }
    }
  }

  method LocateColumns(b: BBox, columns: seq<Column>) returns (r: ColumnRange)
    ensures Located(b, columns, r)
    ensures r.first <= r.last && (|columns| == 0 || r.last < |columns|)
  {
    if |columns| <= 1 {
      return ColumnRange(0, 0);
    }
    var matched := MatchingColumns(b, columns);
    if matched != [] {
      var first, last := matched[0], matched[|matched| - 1];
      assert Matches(b, columns[first]);
      forall i: nat | i < |columns| && Matches(b, columns[i])
        ensures first <= i <= last
      {
        var k :| 0 <= k < |matched| && matched[k] == i;
      }
      return ColumnRange(first, last);
    }
    var nearest := NearestColumn(b, columns);
    return ColumnRange(nearest, nearest);
  }

  /** The local band data the placements of the trace report. */
  function PlacementOf(e: PageElement, group: string, bandIndex: nat, r: ColumnRange): Placement {
    Placement(e.block.id, group, bandIndex, r.first, r.last, "")
  }

  ghost predicate BandRanges(elements: seq<PageElement>, columns: seq<Column>, ranges: seq<ColumnRange>) {
    && |ranges| == |elements|
    && forall i | 0 <= i < |elements| :: Located(elements[i].bbox, columns, ranges[i])
  }

  /** The elements of the band, in the given order of group positions. */
  ghost function Local(groupElements: seq<PageElement>, indices: seq<nat>): (elements: seq<PageElement>)
    requires forall i | 0 <= i < |indices| :: indices[i] < |groupElements|
    ensures |elements| == |indices|
    ensures forall i | 0 <= i < |indices| :: elements[i] == groupElements[indices[i]]
  {
    seq(|indices|, i requires 0 <= i < |indices| => groupElements[indices[i]])
  }

  function ColumnCount(columns: seq<Column>): nat { if |columns| > 1 then |columns| else 1 }

  /** The band's answer rearranges the given positions, and geometry decides where it speaks. */
  ghost predicate OrdersBand(groupElements: seq<PageElement>, band: seq<nat>, columns: seq<Column>, result: seq<nat>)
    requires forall i | 0 <= i < |band| :: band[i] < |groupElements|
  {
    exists ranges, order, breaks :: OrdersBandBy(Local(groupElements, band), band, columns, ranges, order, breaks, result)
  }

  ghost predicate OrdersBandBy(elements: seq<PageElement>, band: seq<nat>, columns: seq<Column>, ranges: seq<ColumnRange>,
                               order: seq<nat>, breaks: seq<CycleBreak>, result: seq<nat>)
  {
    && BandRanges(elements, columns, ranges)
    && IsPermutation(order, |band|)
    && BandOrdered(elements, ranges, order)
    && SortedByGraph(elements, ranges, ColumnCount(columns), order, breaks)
    && |result| == |order|
    && forall i | 0 <= i < |order| :: result[i] == band[order[i]]
  }

  ghost predicate OnlyWeakBreaks(before: seq<CycleBreak>, after: seq<CycleBreak>) {
    && before <= after
    && forall i | |before| <= i < |after| :: after[i].confidence <= COLUMN_FLOW_CONFIDENCE
  }

  method LocateAll(elements: seq<PageElement>, columns: seq<Column>, columnCount: nat, group: string, bandIndex: nat)
    returns (ranges: seq<ColumnRange>, placements: seq<Placement>)
    requires columnCount == ColumnCount(columns)
    ensures BandRanges(elements, columns, ranges) && RangesFit(ranges, columnCount)
    ensures |placements| == |elements|
    ensures forall k | 0 <= k < |elements| :: placements[k] == PlacementOf(elements[k], group, bandIndex, ranges[k])
  {
    ranges, placements := [], [];
    for i := 0 to |elements|
      invariant |ranges| == i && RangesFit(ranges, columnCount)
      invariant forall k | 0 <= k < i :: Located(elements[k].bbox, columns, ranges[k])
      invariant |placements| == i
      invariant forall k | 0 <= k < i :: placements[k] == PlacementOf(elements[k], group, bandIndex, ranges[k])
    {
      var range := LocateColumns(elements[i].bbox, columns);
      ranges := ranges + [range];
      placements := placements + [PlacementOf(elements[i], group, bandIndex, range)];
    }
  }

  /** The order is the sort of the band's constraint graph, and the breaks are what the sort gave up. */
  ghost predicate SortedByGraph(elements: seq<PageElement>, ranges: seq<ColumnRange>, columnCount: nat, order: seq<nat>,
                                breaks: seq<CycleBreak>)
  {
    && |elements| == |ranges| && (forall i | 0 <= i < |order| :: order[i] < |elements|)
    && exists edges, removals ::
      IsBandGraph(elements, ranges, edges) && ValidEdges(edges, |elements|) &&
      Explained(elements, ranges, columnCount, edges, order, removals, breaks)
  }

  lemma NothingToSort(columnCount: nat)
    ensures SortedByGraph([], [], columnCount, [], [])
  {
    var edges: seq<WeightedEdge>, removals: seq<Removal> := [], [];
    assert IsBandGraph([], [], edges) && ValidEdges(edges, 0);
    assert Explained([], [], columnCount, edges, [], removals, []);
  }

  ghost predicate CountsGraph(elements: seq<PageElement>, ranges: seq<ColumnRange>, before: map<string, nat>,
                              after: map<string, nat>)
  {
    exists edges ::
      && IsBandGraph(elements, ranges, edges)
      && forall reason :: CountOf(after, reason) == CountOf(before, reason) + CountReason(edges, reason)
  }

  /** Sorts the located elements: a permutation that geometry decides where it speaks. */
  method SortBand(elements: seq<PageElement>, ranges: seq<ColumnRange>, columnCount: nat, counts: map<string, nat>)
    returns (order: seq<nat>, breaks: seq<CycleBreak>, counts': map<string, nat>)
    requires |elements| == |ranges| && DistinctIndices(elements) && RangesFit(ranges, columnCount)
    ensures IsPermutation(order, |elements|) && BandOrdered(elements, ranges, order)
    ensures SortedByGraph(elements, ranges, columnCount, order, breaks)
    ensures CountsGraph(elements, ranges, counts, counts')
    ensures forall t | 0 <= t < |breaks| :: breaks[t].confidence <= COLUMN_FLOW_CONFIDENCE
  {
    var edges := BuildGraph(elements, ranges, columnCount);
    counts' := RecordEdgeCounts(edges, counts);
    ghost var removals;
    order, breaks, removals := StableTopologicalOrder(elements, ranges, columnCount, edges);
    OrderShowsGeometry(elements, ranges, columnCount, edges, order, removals, breaks);
    GraphOrdersBand(elements, ranges, edges, order);
    BreaksAreWeak(elements, ranges, edges, removals, breaks);
  }

  /** Copies the chosen group positions out in the chosen order. */
  method Rearrange(band: seq<nat>, order: seq<nat>) returns (result: seq<nat>)
    requires IsPermutation(order, |band|)
    ensures |result| == |order| && forall i | 0 <= i < |order| :: result[i] == band[order[i]]
  {
    result := [];
    for i := 0 to |order|
      invariant |result| == i && forall k | 0 <= k < i :: result[k] == band[order[k]]
    {
      result := result + [band[order[i]]];
    }
  }

  method Gather(groupElements: seq<PageElement>, band: seq<nat>) returns (elements: seq<PageElement>)
    requires forall i | 0 <= i < |band| :: band[i] < |groupElements|
    requires DistinctIndices(groupElements) && Distinct(band)
    ensures elements == Local(groupElements, band) && DistinctIndices(elements)
  {
    elements := [];
    for i := 0 to |band|
      invariant |elements| == i && forall k | 0 <= k < i :: elements[k] == groupElements[band[k]]
    {
      elements := elements + [groupElements[band[i]]];
    }
    DistinctLocal(groupElements, band);
  }

  lemma DistinctLocal(groupElements: seq<PageElement>, band: seq<nat>)
    requires forall i | 0 <= i < |band| :: band[i] < |groupElements|
    requires DistinctIndices(groupElements) && Distinct(band)
    ensures DistinctIndices(Local(groupElements, band))
  {
  }

  /** One placement for each element, in the order of the band. */
  ghost predicate PlacedInBand(elements: seq<PageElement>, columns: seq<Column>, placements: seq<Placement>,
                               group: string, bandIndex: nat)
  {
    |placements| == |elements| &&
    forall k | 0 <= k < |elements| :: IsPlacement(elements[k], columns, group, bandIndex, placements[k])
  }

  /** The element's own id, its band, and the columns it reaches across. */
  ghost predicate IsPlacement(e: PageElement, columns: seq<Column>, group: string, bandIndex: nat, p: Placement) {
    && p == Placement(e.block.id, group, bandIndex, p.columnStart, p.columnEnd, "")
    && Located(e.bbox, columns, ColumnRange(p.columnStart, p.columnEnd))
  }

  /** Orders the gathered elements and places each of them. */
  method OrderElements(elements: seq<PageElement>, band: seq<nat>, group: string, bandIndex: nat, columns: seq<Column>,
                       counts: map<string, nat>)
    returns (result: seq<nat>, placements: seq<Placement>, breaks: seq<CycleBreak>, counts': map<string, nat>)
    requires DistinctIndices(elements) && |elements| == |band|
    ensures exists ranges, order :: OrdersBandBy(elements, band, columns, ranges, order, breaks, result)
    ensures exists ranges :: BandRanges(elements, columns, ranges) && CountsGraph(elements, ranges, counts, counts')
    ensures |placements| == |band|
    ensures PlacedInBand(elements, columns, placements, group, bandIndex)
    ensures forall t | 0 <= t < |breaks| :: breaks[t].confidence <= COLUMN_FLOW_CONFIDENCE
  {
    var columnCount := ColumnCount(columns);
    var ranges, order;
    ranges, placements := LocateAll(elements, columns, columnCount, group, bandIndex);
    order, breaks, counts' := SortBand(elements, ranges, columnCount, counts);
    result := Rearrange(band, order);
    assert OrdersBandBy(elements, band, columns, ranges, order, breaks, result);
  }

  /** The trace shows the graph's edge counts and the breaks of the very sort that gave the answer. */
  ghost predicate RecordsBand(elements: seq<PageElement>, band: seq<nat>, columns: seq<Column>, result: seq<nat>,
                              trace: Trace, trace': Trace)
  {
    && trace.cycleBreaks <= trace'.cycleBreaks
    && (exists ranges, order ::
          OrdersBandBy(elements, band, columns, ranges, order, trace'.cycleBreaks[|trace.cycleBreaks|..], result))
    && exists ranges ::
      BandRanges(elements, columns, ranges) && CountsGraph(elements, ranges, trace.edgeCounts, trace'.edgeCounts)
  }

  method OrderBand(groupElements: seq<PageElement>, band: seq<nat>, group: string, bandIndex: nat,
                   infer: ColumnInference, trace: Trace) returns (result: seq<nat>, trace': Trace)
    requires DistinctIndices(groupElements) && Distinct(band)
    requires forall i | 0 <= i < |band| :: band[i] < |groupElements|
    ensures OrdersBand(groupElements, band, infer(Local(groupElements, band)), result)
    ensures trace.placements <= trace'.placements
    ensures PlacedInBand(Local(groupElements, band), infer(Local(groupElements, band)),
                         trace'.placements[|trace.placements|..], group, bandIndex)
    ensures OnlyWeakBreaks(trace.cycleBreaks, trace'.cycleBreaks)
    ensures RecordsBand(Local(groupElements, band), band, infer(Local(groupElements, band)), result, trace, trace')
  {
    var elements := Gather(groupElements, band);
    var placements, breaks, counts;
    result, placements, breaks, counts := OrderElements(elements, band, group, bandIndex, infer(elements), trace.edgeCounts);
    trace' := Trace(trace.placements + placements, counts, trace.cycleBreaks + breaks);
    assert trace'.placements[|trace.placements|..] == placements;
    assert trace'.cycleBreaks[|trace.cycleBreaks|..] == breaks;
  }

  lemma OrderShowsGeometry(elements: seq<PageElement>, ranges: seq<ColumnRange>, columnCount: nat,
                           edges: seq<WeightedEdge>, order: seq<nat>, removals: seq<Removal>, breaks: seq<CycleBreak>)
    requires WellFormed(elements, ranges, edges) && ValidEdges(edges, |elements|)
    requires IsPermutation(order, |elements|)
    requires Explained(elements, ranges, columnCount, edges, order, removals, breaks)
    ensures Shows(order, edges)
  {
    forall a: nat, b: nat | Constrains(edges, a, b, SPANNING_GEOMETRY_CONFIDENCE)
      ensures Precedes(order, a, b)
    {
      GeometricConstraintsHold(elements, ranges, columnCount, edges, order, removals, breaks, a, b);
    }
  }

  lemma BreaksAreWeak(elements: seq<PageElement>, ranges: seq<ColumnRange>, edges: seq<WeightedEdge>,
                      removals: seq<Removal>, breaks: seq<CycleBreak>)
    requires WellFormed(elements, ranges, edges) && ValidEdges(edges, |elements|)
    requires Recorded(elements, edges, removals, breaks) && Justified(|elements|, edges, removals)
    ensures forall t | 0 <= t < |breaks| :: breaks[t].confidence <= COLUMN_FLOW_CONFIDENCE
  {
    forall t | 0 <= t < |breaks|
      ensures breaks[t].confidence <= COLUMN_FLOW_CONFIDENCE
    {
      GeometricEdgesAreNeverSacrificed(elements, ranges, edges, removals[t].edge);
    }
  }
}
