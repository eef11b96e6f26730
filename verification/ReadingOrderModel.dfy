/**
  The data the reading-order engine works on: page elements, columns, the
  weighted constraint graph and the trace it leaves behind.
  Coordinates are exact reals.
 */
module ReadingOrderModel {
  import opened LayoutModel

  const EPSILON: real := 0.001
  const SAME_COLUMN_CONFIDENCE: real := 1.0
  const SPANNING_GEOMETRY_CONFIDENCE: real := 0.95
  const COLUMN_FLOW_CONFIDENCE: real := 0.80
  const MODEL_HINT_CONFIDENCE: real := 0.25

  datatype PageElement = PageElement(layoutBlockIndex: int, block: LayoutBlock, bbox: BBox)

  datatype Column = Column(x0: real, x1: real)

  datatype ColumnRange = ColumnRange(first: nat, last: nat) {
    predicate Spanning() { first != last }
  }

  datatype WeightedEdge = WeightedEdge(from: nat, to: nat, confidence: real, reason: string, active: bool)

  datatype CycleBreak = CycleBreak(fromId: string, toId: string, reason: string, confidence: real)

  datatype Placement = Placement(
    blockId: string,
    group: string,
    bandIndex: nat,
    columnStart: nat,
    columnEnd: nat,
    parentId: string)

  datatype Trace = Trace(
    placements: seq<Placement>,
    edgeCounts: map<string, nat>,
    cycleBreaks: seq<CycleBreak>)

  function CenterX(b: BBox): real { (b.x0 + b.x1) * 0.5 }

  function CenterY(b: BBox): real { (b.y0 + b.y1) * 0.5 }

  function Width(b: BBox): real { Max(0.0, b.x1 - b.x0) }

  predicate StringLess(a: string, b: string) {
    b != [] && (a == [] || a[0] < b[0] || (a[0] == b[0] && StringLess(a[1..], b[1..])))
  }

  /** The tie-breaking order on edges: confidence, then reason, then the end points. */
  predicate WeakerEdge(a: WeightedEdge, b: WeightedEdge) {
    if a.confidence != b.confidence then a.confidence < b.confidence
    else if a.reason != b.reason then StringLess(a.reason, b.reason)
    else if a.from != b.from then a.from < b.from
    else a.to < b.to
  }

  /** The priority order among ready elements: column, top edge, left edge, block index. */
  predicate ComesBefore(elements: seq<PageElement>, ranges: seq<ColumnRange>, columnCount: nat, lhs: nat, rhs: nat)
    requires lhs < |elements| == |ranges| && rhs < |elements|
  {
    var left, right := elements[lhs], elements[rhs];
    if columnCount > 1 && ranges[lhs].first != ranges[rhs].first then ranges[lhs].first < ranges[rhs].first
    else if left.bbox.y0 != right.bbox.y0 then left.bbox.y0 < right.bbox.y0
    else if left.bbox.x0 != right.bbox.x0 then left.bbox.x0 < right.bbox.x0
    else left.layoutBlockIndex < right.layoutBlockIndex
  }

  ghost predicate DistinctIndices(elements: seq<PageElement>) {
    forall i, j | 0 <= i < j < |elements| :: elements[i].layoutBlockIndex != elements[j].layoutBlockIndex
  }
}
