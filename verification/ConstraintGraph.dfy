/**
  The weighted constraint graph of one band. Geometric edges (the ones a block's
  position justifies) run strictly upwards in a key, so no cycle consists of them
  alone and the sort never gives one up.
 */
module ConstraintGraph {
  import opened ReadingOrderModel
  import opened Sequences
  import opened CycleSearch
  import opened TopologicalOrder

  /** Vertical order inside a column: centre, left edge, block index. */
  predicate VerticalLess(elements: seq<PageElement>, lhs: nat, rhs: nat)
    requires lhs < |elements| && rhs < |elements|
  {
    var left, right := elements[lhs], elements[rhs];
    if CenterY(left.bbox) != CenterY(right.bbox) then CenterY(left.bbox) < CenterY(right.bbox)
    else if left.bbox.x0 != right.bbox.x0 then left.bbox.x0 < right.bbox.x0
    else left.layoutBlockIndex < right.layoutBlockIndex
  }

  /** Like the vertical order, but at equal centres spanning elements come first. */
  ghost predicate KeyLess(elements: seq<PageElement>, ranges: seq<ColumnRange>, lhs: nat, rhs: nat)
    requires |elements| == |ranges| && lhs < |elements| && rhs < |elements|
  {
    var left, right := elements[lhs], elements[rhs];
    if CenterY(left.bbox) != CenterY(right.bbox) then CenterY(left.bbox) < CenterY(right.bbox)
    else if ranges[lhs].Spanning() != ranges[rhs].Spanning() then ranges[lhs].Spanning()
    else if left.bbox.x0 != right.bbox.x0 then left.bbox.x0 < right.bbox.x0
    else left.layoutBlockIndex < right.layoutBlockIndex
  }

  ghost predicate Geometric(e: WeightedEdge) { e.confidence >= SPANNING_GEOMETRY_CONFIDENCE }

  /** An edge may enter the graph if it is geometric and runs up in the key, or clearly weaker. */
  ghost predicate Admissible(elements: seq<PageElement>, ranges: seq<ColumnRange>, e: WeightedEdge)
    requires |elements| == |ranges|
  {
    && e.from < |elements| && e.to < |elements| && e.active
    && (Geometric(e) ==> KeyLess(elements, ranges, e.from, e.to))
    && (!Geometric(e) ==> e.confidence <= COLUMN_FLOW_CONFIDENCE)
  }

  ghost predicate WellFormed(elements: seq<PageElement>, ranges: seq<ColumnRange>, edges: seq<WeightedEdge>) {
    && |elements| == |ranges|
    && (forall k | 0 <= k < |edges| :: Admissible(elements, ranges, edges[k]))
    && forall i, k | 0 <= i < k < |edges| :: edges[i].from != edges[k].from || edges[i].to != edges[k].to
  }

  ghost predicate Constrains(edges: seq<WeightedEdge>, from: nat, to: nat, confidence: real) {
    exists k | 0 <= k < |edges| :: edges[k].from == from && edges[k].to == to && edges[k].confidence >= confidence
  }

  /** Later edges never remove or weaken an earlier constraint. */
  ghost predicate Strengthens(edges: seq<WeightedEdge>, stronger: seq<WeightedEdge>) {
    && |edges| <= |stronger|
    && forall k | 0 <= k < |edges| ::
      && stronger[k].from == edges[k].from && stronger[k].to == edges[k].to
      && stronger[k].confidence >= edges[k].confidence
  }

  lemma StrengthensKeeps(edges: seq<WeightedEdge>, stronger: seq<WeightedEdge>, from: nat, to: nat, confidence: real)
    requires Strengthens(edges, stronger) && Constrains(edges, from, to, confidence)
    ensures Constrains(stronger, from, to, confidence)
  {
    var k :| 0 <= k < |edges| && edges[k].from == from && edges[k].to == to && edges[k].confidence >= confidence;
    assert stronger[k].from == from;
  }

  /** Adds a constraint; a repeated one only raises the confidence of the edge already there. */
  method AddEdge(ghost elements: seq<PageElement>, ghost ranges: seq<ColumnRange>,
                 edges: seq<WeightedEdge>, from: nat, to: nat, confidence: real, reason: string)
    returns (more: seq<WeightedEdge>)
    requires WellFormed(elements, ranges, edges)
    requires from != to ==> Admissible(elements, ranges, WeightedEdge(from, to, confidence, reason, true))
    ensures WellFormed(elements, ranges, more) && Strengthens(edges, more)
    ensures from == to ==> more == edges
    ensures from != to ==> Constrains(more, from, to, confidence)
    ensures forall k | 0 <= k < |more| && (k >= |edges| || more[k] != edges[k]) ::
      more[k] == WeightedEdge(from, to, confidence, reason, true) && (k < |edges| ==> confidence > edges[k].confidence)
    ensures |more| <= |edges| + 1
  {
    if from == to {
      return edges;
    }
    for k := 0 to |edges|
      invariant forall i | 0 <= i < k :: edges[i].from != from || edges[i].to != to
    {
      if edges[k].from == from && edges[k].to == to {
        more := edges;
        if confidence > edges[k].confidence {
          more := edges[k := edges[k].(confidence := confidence, reason := reason)];
          assert more[k].from == from && more[k].to == to && more[k].confidence >= confidence;
        }
        return more;
      }
    }
    more := edges + [WeightedEdge(from, to, confidence, reason, true)];
    assert more[|edges|].from == from && more[|edges|].to == to;
  }

  lemma KeyLessTransitive(elements: seq<PageElement>, ranges: seq<ColumnRange>, a: nat, b: nat, c: nat)
    requires |elements| == |ranges| && a < |elements| && b < |elements| && c < |elements|
    requires KeyLess(elements, ranges, a, b) && KeyLess(elements, ranges, b, c)
    ensures KeyLess(elements, ranges, a, c)
  {
  }

  lemma {:induction false} GeometricWalkRises(elements: seq<PageElement>, ranges: seq<ColumnRange>, edges: seq<WeightedEdge>,
                                              c: seq<nat>, k: nat)
    requires WellFormed(elements, ranges, edges) && IsCycle(edges, Nothing(|elements|), c) && k < |c|
    requires forall i | 0 <= i < |c| :: Geometric(edges[c[i]])
    ensures KeyLess(elements, ranges, edges[c[k]].from, edges[c[0]].to)
  {
    if k > 0 {
      GeometricWalkRises(elements, ranges, edges, c, k - 1);
      KeyLessTransitive(elements, ranges, edges[c[k]].from, edges[c[k - 1]].from, edges[c[0]].to);
    }
  }

  /** The sort only ever gives up column-flow and model-hint edges. */
  lemma GeometricEdgesAreNeverSacrificed(elements: seq<PageElement>, ranges: seq<ColumnRange>, edges: seq<WeightedEdge>,
                                         edge: nat)
    requires WellFormed(elements, ranges, edges) && Sacrificed(|elements|, edges, edge)
    ensures edge < |edges| && !Geometric(edges[edge]) && edges[edge].confidence <= COLUMN_FLOW_CONFIDENCE
  {
    var c :| WeakestOnCycle(|elements|, edges, c, edge);
    if forall i | 0 <= i < |c| :: Geometric(edges[c[i]]) {
      GeometricWalkRises(elements, ranges, edges, c, |c| - 1);
      assert false;
    }
    var i :| 0 <= i < |c| && !Geometric(edges[c[i]]);
    assert Admissible(elements, ranges, edges[c[i]]) && !WeakerEdge(edges[c[i]], edges[edge]);
  }

  /** Hence every geometric constraint shows in the order. */
  lemma GeometricConstraintsHold(elements: seq<PageElement>, ranges: seq<ColumnRange>, columnCount: nat,
                                 edges: seq<WeightedEdge>, order: seq<nat>, removals: seq<Removal>,
                                 breaks: seq<CycleBreak>, from: nat, to: nat)
    requires WellFormed(elements, ranges, edges) && ValidEdges(edges, |elements|)
    requires IsPermutation(order, |elements|)
    requires Explained(elements, ranges, columnCount, edges, order, removals, breaks)
    requires Constrains(edges, from, to, SPANNING_GEOMETRY_CONFIDENCE)
    ensures Precedes(order, from, to)
  {
    var k :| 0 <= k < |edges| && edges[k].from == from && edges[k].to == to &&
             edges[k].confidence >= SPANNING_GEOMETRY_CONFIDENCE;
    if Removed(removals, k) {
      var t :| 0 <= t < |removals| && removals[t].edge == k;
      GeometricEdgesAreNeverSacrificed(elements, ranges, edges, k);
      assert false;
    }
    forall i, j | 0 <= i < |order| && 0 <= j < |order| && order[i] == from && order[j] == to
      ensures i < j
    {
      assert edges[k].from in order[..j];
    }
  }
}
