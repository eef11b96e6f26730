/**
  The constraint graph of one band, built from geometry and model hints. It is fixed
  exactly: an edge for every pair of blocks some rule relates, with the confidence
  and the reason of the strongest such rule, and no other edge.
 */
module BandGraph {
  import opened LayoutModel
  import opened ReadingOrderModel
  import opened Sequences
  import opened Sorting
  import opened ConstraintGraph

  // ---- which blocks the rules relate ----

  ghost predicate InColumn(ranges: seq<ColumnRange>, c: nat, i: nat) {
    i < |ranges| && !ranges[i].Spanning() && ranges[i].first == c
  }

  ghost predicate IsSpanning(ranges: seq<ColumnRange>, i: nat) {
    i < |ranges| && ranges[i].Spanning()
  }

  ghost predicate SameColumn(ranges: seq<ColumnRange>, a: nat, b: nat) {
    && a < |ranges| && b < |ranges|
    && !ranges[a].Spanning() && !ranges[b].Spanning() && ranges[a].first == ranges[b].first
  }

  ghost predicate Touches(ranges: seq<ColumnRange>, s: nat, a: nat) {
    && s < |ranges| && a < |ranges|
    && ranges[s].Spanning() && !ranges[a].Spanning() && ranges[s].first <= ranges[a].first <= ranges[s].last
  }

  ghost predicate FarApart(elements: seq<PageElement>, a: nat, b: nat)
    requires a < |elements| && b < |elements|
  {
    Abs(CenterY(elements[a].bbox) - CenterY(elements[b].bbox)) > EPSILON
  }

  /** Next to each other in their column. */
  ghost predicate Neighbours(elements: seq<PageElement>, ranges: seq<ColumnRange>, a: nat, b: nat)
    requires |elements| == |ranges|
  {
    && SameColumn(ranges, a, b) && VerticalLess(elements, a, b)
    && forall m: nat | SameColumn(ranges, a, m) :: !(VerticalLess(elements, a, m) && VerticalLess(elements, m, b))
  }

  /** Next to each other among the spanning blocks. */
  ghost predicate SpanningNeighbours(elements: seq<PageElement>, ranges: seq<ColumnRange>, a: nat, b: nat)
    requires |elements| == |ranges|
  {
    && IsSpanning(ranges, a) && IsSpanning(ranges, b) && VerticalLess(elements, a, b)
    && forall m: nat | IsSpanning(ranges, m) :: !(VerticalLess(elements, a, m) && VerticalLess(elements, m, b))
  }

  ghost predicate Above(elements: seq<PageElement>, a: nat, s: nat)
    requires a < |elements| && s < |elements|
  {
    CenterY(elements[a].bbox) < CenterY(elements[s].bbox)
  }

  /** The last block above a spanning block in a column it touches. */
  ghost predicate LastAbove(elements: seq<PageElement>, ranges: seq<ColumnRange>, a: nat, s: nat)
    requires |elements| == |ranges|
  {
    && Touches(ranges, s, a) && Above(elements, a, s)
    && forall m: nat | SameColumn(ranges, a, m) :: !(VerticalLess(elements, a, m) && Above(elements, m, s))
  }

  /** The first block not above a spanning block in a column it touches. */
  ghost predicate FirstBelow(elements: seq<PageElement>, ranges: seq<ColumnRange>, b: nat, s: nat)
    requires |elements| == |ranges|
  {
    && Touches(ranges, s, b) && !Above(elements, b, s)
    && forall m: nat | SameColumn(ranges, b, m) :: !(VerticalLess(elements, m, b) && !Above(elements, m, s))
  }

  /** The bottom of one column and the top of the next column that holds a block. */
  ghost predicate FlowsInto(elements: seq<PageElement>, ranges: seq<ColumnRange>, a: nat, b: nat)
    requires |elements| == |ranges|
  {
    && a < |ranges| && b < |ranges| && !ranges[a].Spanning() && !ranges[b].Spanning()
    && ranges[a].first < ranges[b].first
    && (forall m: nat | m < |ranges| && !ranges[m].Spanning() :: !(ranges[a].first < ranges[m].first < ranges[b].first))
    && (forall m: nat | SameColumn(ranges, a, m) :: !VerticalLess(elements, a, m))
    && forall m: nat | SameColumn(ranges, b, m) :: !VerticalLess(elements, m, b)
  }

  predicate Hinted(elements: seq<PageElement>, i: nat) { i < |elements| && elements[i].block.readingOrderHint >= 0 }

  /** By hint, and by position where hints agree. */
  predicate HintLess(elements: seq<PageElement>, a: nat, b: nat)
    requires a < |elements| && b < |elements|
  {
    var first, second := elements[a].block.readingOrderHint, elements[b].block.readingOrderHint;
    first < second || (first == second && a < b)
  }

  /** Next to each other among the hinted blocks, with different hints. */
  ghost predicate HintFollows(elements: seq<PageElement>, a: nat, b: nat) {
    && Hinted(elements, a) && Hinted(elements, b) && HintLess(elements, a, b)
    && elements[a].block.readingOrderHint != elements[b].block.readingOrderHint
    && forall m: nat | Hinted(elements, m) :: !(HintLess(elements, a, m) && HintLess(elements, m, b))
  }

  // ---- the graph ----

  /** One of the rules relates the ends of the edge, and gives it its reason and confidence. */
  ghost predicate Reasoned(elements: seq<PageElement>, ranges: seq<ColumnRange>, e: WeightedEdge)
    requires |elements| == |ranges|
  {
    || (&& e.reason == "same_column" && e.confidence == SAME_COLUMN_CONFIDENCE
        && Neighbours(elements, ranges, e.from, e.to) && FarApart(elements, e.from, e.to))
    || (&& e.reason == "spanning_geometry" && e.confidence == SPANNING_GEOMETRY_CONFIDENCE
        && (SpanningNeighbours(elements, ranges, e.from, e.to) || LastAbove(elements, ranges, e.from, e.to) ||
            FirstBelow(elements, ranges, e.to, e.from)))
    || (&& e.reason == "column_flow" && e.confidence == COLUMN_FLOW_CONFIDENCE
        && FlowsInto(elements, ranges, e.from, e.to))
    || (&& e.reason == "model_hint" && e.confidence == MODEL_HINT_CONFIDENCE
        && HintFollows(elements, e.from, e.to))
  }

  ghost predicate AllReasoned(elements: seq<PageElement>, ranges: seq<ColumnRange>, edges: seq<WeightedEdge>)
    requires |elements| == |ranges|
  {
    forall k | 0 <= k < |edges| :: Reasoned(elements, ranges, edges[k])
  }

  ghost predicate HasColumnEdges(elements: seq<PageElement>, ranges: seq<ColumnRange>, edges: seq<WeightedEdge>)
    requires |elements| == |ranges|
  {
    forall a: nat, b: nat | Neighbours(elements, ranges, a, b) && FarApart(elements, a, b) ::
      Constrains(edges, a, b, SAME_COLUMN_CONFIDENCE)
  }

  ghost predicate HasSpanningEdges(elements: seq<PageElement>, ranges: seq<ColumnRange>, edges: seq<WeightedEdge>)
    requires |elements| == |ranges|
  {
    forall a: nat, b: nat | SpanningNeighbours(elements, ranges, a, b) ::
      Constrains(edges, a, b, SPANNING_GEOMETRY_CONFIDENCE)
  }

  ghost predicate HasSplitEdges(elements: seq<PageElement>, ranges: seq<ColumnRange>, edges: seq<WeightedEdge>)
    requires |elements| == |ranges|
  {
    && (forall a: nat, s: nat | LastAbove(elements, ranges, a, s) :: Constrains(edges, a, s, SPANNING_GEOMETRY_CONFIDENCE))
    && forall b: nat, s: nat | FirstBelow(elements, ranges, b, s) :: Constrains(edges, s, b, SPANNING_GEOMETRY_CONFIDENCE)
  }

  ghost predicate HasFlowEdges(elements: seq<PageElement>, ranges: seq<ColumnRange>, edges: seq<WeightedEdge>)
    requires |elements| == |ranges|
  {
    forall a: nat, b: nat | FlowsInto(elements, ranges, a, b) :: Constrains(edges, a, b, COLUMN_FLOW_CONFIDENCE)
  }

  ghost predicate HasHintEdges(elements: seq<PageElement>, edges: seq<WeightedEdge>) {
    forall a: nat, b: nat | HintFollows(elements, a, b) :: Constrains(edges, a, b, MODEL_HINT_CONFIDENCE)
  }

  /** Every rule's pairs, nothing else, and no pair twice. */
  ghost predicate IsBandGraph(elements: seq<PageElement>, ranges: seq<ColumnRange>, edges: seq<WeightedEdge>) {
    && WellFormed(elements, ranges, edges) && AllReasoned(elements, ranges, edges)
    && HasColumnEdges(elements, ranges, edges) && HasSpanningEdges(elements, ranges, edges)
    && HasSplitEdges(elements, ranges, edges) && HasFlowEdges(elements, ranges, edges) && HasHintEdges(elements, edges)
  }

  lemma ReasonedIsConstrained(elements: seq<PageElement>, ranges: seq<ColumnRange>, edges: seq<WeightedEdge>, e: WeightedEdge)
    requires IsBandGraph(elements, ranges, edges) && Reasoned(elements, ranges, e)
    ensures Constrains(edges, e.from, e.to, e.confidence)
  {
  }

  /** The blocks and their columns leave no choice: two such graphs have the same edges. */
  lemma BandGraphIsUnique(elements: seq<PageElement>, ranges: seq<ColumnRange>, edges: seq<WeightedEdge>,
                          others: seq<WeightedEdge>, k: nat)
    requires IsBandGraph(elements, ranges, edges) && IsBandGraph(elements, ranges, others) && k < |edges|
    ensures edges[k] in others
  {
    var e := edges[k];
    assert Reasoned(elements, ranges, e) && Admissible(elements, ranges, e);
    ReasonedIsConstrained(elements, ranges, others, e);
    var j :| 0 <= j < |others| && others[j].from == e.from && others[j].to == e.to && others[j].confidence >= e.confidence;
    assert Reasoned(elements, ranges, others[j]) && Admissible(elements, ranges, others[j]);
    ReasonedIsConstrained(elements, ranges, edges, others[j]);
    var i :| 0 <= i < |edges| && edges[i].from == e.from && edges[i].to == e.to && edges[i].confidence >= others[j].confidence;
    assert i == k;
  }

  // ---- building it ----

  ghost predicate RangesFit(ranges: seq<ColumnRange>, columnCount: nat) {
    forall i | 0 <= i < |ranges| :: ranges[i].first <= ranges[i].last < columnCount
  }

  ghost predicate Columns(ranges: seq<ColumnRange>, byColumn: seq<seq<nat>>) {
    && (forall c, i: nat | 0 <= c < |byColumn| :: i in byColumn[c] <==> InColumn(ranges, c, i))
    && forall c | 0 <= c < |byColumn| :: Distinct(byColumn[c])
  }

  ghost predicate Spanners(ranges: seq<ColumnRange>, spanning: seq<nat>) {
    && (forall i: nat :: i in spanning <==> IsSpanning(ranges, i))
    && Distinct(spanning)
  }

  ghost predicate VerticallySorted(elements: seq<PageElement>, s: seq<nat>) {
    && (forall i | 0 <= i < |s| :: s[i] < |elements|)
    && forall i, j | 0 <= i < j < |s| :: VerticalLess(elements, s[i], s[j])
  }

  method SortVertically(elements: seq<PageElement>, s: seq<nat>) returns (sorted: seq<nat>)
    requires DistinctIndices(elements) && Distinct(s) && forall i | 0 <= i < |s| :: s[i] < |elements|
    ensures VerticallySorted(elements, sorted)
    ensures Distinct(sorted) && |sorted| == |s| && forall i :: i in sorted <==> i in s
  {
    var less := (a: nat, b: nat) => a < |elements| && b < |elements| && VerticalLess(elements, a, b);
    sorted := StableSort(s, less);
    SortMembers(s, less);
    SortSorted(s, less);
    assert forall i | 0 <= i < |sorted| :: sorted[i] in s;
    forall i, j | 0 <= i < j < |sorted|
      ensures VerticalLess(elements, sorted[i], sorted[j])
    {
      assert sorted[i] in s && sorted[j] in s;
      assert !less(sorted[j], sorted[i]) && sorted[i] != sorted[j];
    }
  }

  method Partition(ranges: seq<ColumnRange>, columnCount: nat) returns (byColumn: seq<seq<nat>>, spanning: seq<nat>)
    requires RangesFit(ranges, columnCount)
    ensures |byColumn| == columnCount && Columns(ranges, byColumn) && Spanners(ranges, spanning)
  {
    byColumn, spanning := seq(columnCount, _ => []), [];
    for k := 0 to |ranges|
      invariant |byColumn| == columnCount
      invariant forall c, i: nat | 0 <= c < columnCount :: i in byColumn[c] <==> i < k && InColumn(ranges, c, i)
      invariant forall c | 0 <= c < columnCount :: Distinct(byColumn[c])
      invariant forall i: nat :: i in spanning <==> i < k && IsSpanning(ranges, i)
      invariant Distinct(spanning)
    {
      assert k !in spanning && forall c | 0 <= c < columnCount :: k !in byColumn[c];
      if ranges[k].Spanning() {
        spanning := spanning + [k];
      } else {
        var c := ranges[k].first;
        byColumn := byColumn[c := byColumn[c] + [k]];
      }
    }
  }

  /** The column in vertical order, complete. */
  ghost predicate IsColumn(elements: seq<PageElement>, ranges: seq<ColumnRange>, c: nat, column: seq<nat>) {
    VerticallySorted(elements, column) && forall i: nat :: i in column <==> InColumn(ranges, c, i)
  }

  ghost predicate AllColumns(elements: seq<PageElement>, ranges: seq<ColumnRange>, sorted: seq<seq<nat>>) {
    forall c | 0 <= c < |sorted| :: IsColumn(elements, ranges, c, sorted[c])
  }

  /** The spanning blocks in vertical order, complete. */
  ghost predicate AreSpanners(elements: seq<PageElement>, ranges: seq<ColumnRange>, spanning: seq<nat>) {
    VerticallySorted(elements, spanning) && forall i: nat :: i in spanning <==> IsSpanning(ranges, i)
  }

  lemma NothingBetween(elements: seq<PageElement>, s: seq<nat>, i: nat, m: nat)
    requires VerticallySorted(elements, s) && 0 < i < |s| && m in s
    ensures !(VerticalLess(elements, s[i - 1], m) && VerticalLess(elements, m, s[i]))
  {
    var p :| 0 <= p < |s| && s[p] == m;
    if p < i - 1 {
      assert VerticalLess(elements, s[p], s[i - 1]);
    } else if p > i {
      assert VerticalLess(elements, s[i], s[p]);
    }
  }

  lemma NextInSorted(elements: seq<PageElement>, s: seq<nat>, a: nat, b: nat) returns (i: nat)
    requires VerticallySorted(elements, s) && a in s && b in s && VerticalLess(elements, a, b)
    requires forall m: nat | m in s :: !(VerticalLess(elements, a, m) && VerticalLess(elements, m, b))
    ensures 0 < i < |s| && s[i - 1] == a && s[i] == b
  {
    var p: nat :| p < |s| && s[p] == a;
    i :| i < |s| && s[i] == b;
    if p + 1 < |s| {
      assert s[p + 1] in s;
    }
    assert i == p + 1;
  }

  // -- the edges inside a column --

  lemma ColumnNeighbours(elements: seq<PageElement>, ranges: seq<ColumnRange>, c: nat, column: seq<nat>, i: nat)
    requires |elements| == |ranges| && IsColumn(elements, ranges, c, column) && 0 < i < |column|
    ensures Neighbours(elements, ranges, column[i - 1], column[i])
  {
    assert column[i - 1] in column && column[i] in column;
    forall m: nat | SameColumn(ranges, column[i - 1], m)
      ensures !(VerticalLess(elements, column[i - 1], m) && VerticalLess(elements, m, column[i]))
    {
      assert InColumn(ranges, c, m);
      NothingBetween(elements, column, i, m);
    }
  }

  /** Consecutive blocks of the column are constrained wherever their centres are apart. */
  ghost predicate ColumnLinked(elements: seq<PageElement>, column: seq<nat>, edges: seq<WeightedEdge>, upTo: nat)
    requires VerticallySorted(elements, column)
  {
    forall i | 0 < i < upTo && i < |column| && FarApart(elements, column[i - 1], column[i]) ::
      Constrains(edges, column[i - 1], column[i], SAME_COLUMN_CONFIDENCE)
  }

  lemma ColumnLinkedKept(elements: seq<PageElement>, column: seq<nat>, edges: seq<WeightedEdge>,
                         stronger: seq<WeightedEdge>, upTo: nat)
    requires VerticallySorted(elements, column) && ColumnLinked(elements, column, edges, upTo)
    requires Strengthens(edges, stronger)
    ensures ColumnLinked(elements, column, stronger, upTo)
  {
    forall i | 0 < i < upTo && i < |column| && FarApart(elements, column[i - 1], column[i]) {
      StrengthensKeeps(edges, stronger, column[i - 1], column[i], SAME_COLUMN_CONFIDENCE);
    }
  }

  ghost predicate Sound(elements: seq<PageElement>, ranges: seq<ColumnRange>, edges: seq<WeightedEdge>) {
    WellFormed(elements, ranges, edges) && AllReasoned(elements, ranges, edges)
  }

  /** What is new in the graph was added for one of these reasons. */
  ghost predicate AddsOnly(edges: seq<WeightedEdge>, more: seq<WeightedEdge>, reasons: set<string>) {
    forall e | e in more :: e in edges || e.reason in reasons
  }

  /** What is new in the graph joins neighbours among the spanning blocks. */
  ghost predicate AddsNeighbours(elements: seq<PageElement>, ranges: seq<ColumnRange>, edges: seq<WeightedEdge>,
                                 more: seq<WeightedEdge>)
    requires |elements| == |ranges|
  {
    forall e | e in more ::
      e in edges || (e.reason == "spanning_geometry" && SpanningNeighbours(elements, ranges, e.from, e.to))
  }

  /** What is new in the graph joins a spanning block to a nearest block of a column it touches. */
  ghost predicate AddsSplits(elements: seq<PageElement>, ranges: seq<ColumnRange>, edges: seq<WeightedEdge>,
                             more: seq<WeightedEdge>)
    requires |elements| == |ranges|
  {
    forall e | e in more ::
      || e in edges
      || (&& e.reason == "spanning_geometry"
          && (LastAbove(elements, ranges, e.from, e.to) || FirstBelow(elements, ranges, e.to, e.from)))
  }

  /** Adds an edge one of the rules asks for. */
  method AddReasoned(ghost elements: seq<PageElement>, ghost ranges: seq<ColumnRange>,
                     edges: seq<WeightedEdge>, from: nat, to: nat, confidence: real, reason: string)
    returns (more: seq<WeightedEdge>)
    requires Sound(elements, ranges, edges) && from != to
    requires var e := WeightedEdge(from, to, confidence, reason, true);
      Admissible(elements, ranges, e) && Reasoned(elements, ranges, e)
    ensures Sound(elements, ranges, more) && Strengthens(edges, more)
    ensures Constrains(more, from, to, confidence)
    ensures forall e | e in more :: e in edges || e == WeightedEdge(from, to, confidence, reason, true)
  {
    more := AddEdge(elements, ranges, edges, from, to, confidence, reason);
    forall k | 0 <= k < |more|
      ensures Reasoned(elements, ranges, more[k])
    {
      if k < |edges| && more[k] == edges[k] {
        assert Reasoned(elements, ranges, edges[k]);
      }
    }
  }

  method LinkColumn(elements: seq<PageElement>, ghost ranges: seq<ColumnRange>, column: seq<nat>,
                    edges: seq<WeightedEdge>, ghost c: nat) returns (more: seq<WeightedEdge>)
    requires Sound(elements, ranges, edges) && IsColumn(elements, ranges, c, column)
    ensures Sound(elements, ranges, more) && Strengthens(edges, more)
    ensures ColumnLinked(elements, column, more, |column|)
    ensures AddsOnly(edges, more, {"same_column"})
  {
    more := edges;
    var i := 1;
    while i < |column|
      invariant Sound(elements, ranges, more) && Strengthens(edges, more)
      invariant AddsOnly(edges, more, {"same_column"})
      invariant ColumnLinked(elements, column, more, i)
    {
      var before, after := column[i - 1], column[i];
      ghost var previous := more;
      ColumnNeighbours(elements, ranges, c, column, i);
      if Abs(CenterY(elements[before].bbox) - CenterY(elements[after].bbox)) > EPSILON {
        more := AddReasoned(elements, ranges, more, before, after, SAME_COLUMN_CONFIDENCE, "same_column");
      }
      ColumnLinkedKept(elements, column, previous, more, i);
      i := i + 1;
    }
  }

  lemma ColumnsAreLinked(elements: seq<PageElement>, ranges: seq<ColumnRange>, sorted: seq<seq<nat>>,
                         edges: seq<WeightedEdge>)
    requires |elements| == |ranges| && RangesFit(ranges, |sorted|) && AllColumns(elements, ranges, sorted)
    requires forall c | 0 <= c < |sorted| :: ColumnLinked(elements, sorted[c], edges, |sorted[c]|)
    ensures HasColumnEdges(elements, ranges, edges)
  {
    forall a: nat, b: nat | Neighbours(elements, ranges, a, b) && FarApart(elements, a, b)
      ensures Constrains(edges, a, b, SAME_COLUMN_CONFIDENCE)
    {
      var c := ranges[a].first;
      assert IsColumn(elements, ranges, c, sorted[c]) && InColumn(ranges, c, a) && InColumn(ranges, c, b);
      forall m: nat | m in sorted[c]
        ensures !(VerticalLess(elements, a, m) && VerticalLess(elements, m, b))
      {
        assert SameColumn(ranges, a, m);
      }
      var i := NextInSorted(elements, sorted[c], a, b);
      assert ColumnLinked(elements, sorted[c], edges, |sorted[c]|);
    }
  }

  // -- the edges from one column to the next --

  ghost predicate EmptyBetween(sorted: seq<seq<nat>>, p: nat, q: nat) {
    q < |sorted| && forall d | p < d < q :: sorted[d] == []
  }

  ghost predicate FlowLinked(sorted: seq<seq<nat>>, edges: seq<WeightedEdge>, upTo: nat)
    requires upTo <= |sorted|
  {
    forall p: nat, q: nat | p < q < upTo && sorted[p] != [] && sorted[q] != [] && EmptyBetween(sorted, p, q) ::
      Constrains(edges, sorted[p][|sorted[p]| - 1], sorted[q][0], COLUMN_FLOW_CONFIDENCE)
  }

  lemma FlowLinkedKept(sorted: seq<seq<nat>>, resorted: seq<seq<nat>>, edges: seq<WeightedEdge>,
                       stronger: seq<WeightedEdge>, upTo: nat)
    requires upTo <= |sorted| == |resorted| && sorted[..upTo] == resorted[..upTo]
    requires FlowLinked(sorted, edges, upTo) && Strengthens(edges, stronger)
    ensures FlowLinked(resorted, stronger, upTo)
  {
    assert forall d | 0 <= d < upTo :: sorted[d] == sorted[..upTo][d] == resorted[..upTo][d] == resorted[d];
    forall p: nat, q: nat | p < q < upTo && resorted[p] != [] && resorted[q] != [] && EmptyBetween(resorted, p, q)
      ensures Constrains(stronger, resorted[p][|resorted[p]| - 1], resorted[q][0], COLUMN_FLOW_CONFIDENCE)
    {
      assert EmptyBetween(sorted, p, q);
      StrengthensKeeps(edges, stronger, sorted[p][|sorted[p]| - 1], sorted[q][0], COLUMN_FLOW_CONFIDENCE);
    }
  }

  lemma LastIsLowest(elements: seq<PageElement>, column: seq<nat>, m: nat)
    requires VerticallySorted(elements, column) && m in column
    ensures !VerticalLess(elements, column[|column| - 1], m) && !VerticalLess(elements, m, column[0])
  {
    var p :| 0 <= p < |column| && column[p] == m;
    if p < |column| - 1 {
      assert VerticalLess(elements, column[p], column[|column| - 1]);
    }
    if p > 0 {
      assert VerticalLess(elements, column[0], column[p]);
    }
  }

  lemma ColumnFlows(elements: seq<PageElement>, ranges: seq<ColumnRange>, p: nat, q: nat, from: seq<nat>, to: seq<nat>)
    requires |elements| == |ranges| && p < q && from != [] && to != []
    requires IsColumn(elements, ranges, p, from) && IsColumn(elements, ranges, q, to)
    requires forall d, i: nat | p < d < q :: !InColumn(ranges, d, i)
    ensures FlowsInto(elements, ranges, from[|from| - 1], to[0])
  {
    var a, b := from[|from| - 1], to[0];
    assert a in from && b in to;
    forall m: nat | SameColumn(ranges, a, m)
      ensures !VerticalLess(elements, a, m)
    {
      assert InColumn(ranges, p, m);
      LastIsLowest(elements, from, m);
    }
    forall m: nat | SameColumn(ranges, b, m)
      ensures !VerticalLess(elements, m, b)
    {
      assert InColumn(ranges, q, m);
      LastIsLowest(elements, to, m);
    }
    forall m: nat | m < |ranges| && !ranges[m].Spanning()
      ensures !(ranges[a].first < ranges[m].first < ranges[b].first)
    {
      assert InColumn(ranges, ranges[m].first, m);
    }
  }

  /** From the bottom of one column to the top of the next one that holds a block. */
  method LinkColumns(ghost elements: seq<PageElement>, ghost ranges: seq<ColumnRange>, from: seq<nat>, to: seq<nat>,
                     edges: seq<WeightedEdge>, ghost p: nat, ghost q: nat) returns (more: seq<WeightedEdge>)
    requires Sound(elements, ranges, edges) && p < q && from != [] && to != []
    requires IsColumn(elements, ranges, p, from) && IsColumn(elements, ranges, q, to)
    requires forall d, i: nat | p < d < q :: !InColumn(ranges, d, i)
    ensures Sound(elements, ranges, more) && Strengthens(edges, more) && AddsOnly(edges, more, {"column_flow"})
    ensures Constrains(more, from[|from| - 1], to[0], COLUMN_FLOW_CONFIDENCE)
  {
    ColumnFlows(elements, ranges, p, q, from, to);
    more := AddReasoned(elements, ranges, edges, from[|from| - 1], to[0], COLUMN_FLOW_CONFIDENCE, "column_flow");
  }

  lemma FlowIsLinked(elements: seq<PageElement>, ranges: seq<ColumnRange>, sorted: seq<seq<nat>>, edges: seq<WeightedEdge>)
    requires |elements| == |ranges| && RangesFit(ranges, |sorted|) && AllColumns(elements, ranges, sorted)
    requires FlowLinked(sorted, edges, |sorted|)
    ensures HasFlowEdges(elements, ranges, edges)
  {
    forall a: nat, b: nat | FlowsInto(elements, ranges, a, b)
      ensures Constrains(edges, a, b, COLUMN_FLOW_CONFIDENCE)
    {
      var p, q := ranges[a].first, ranges[b].first;
      assert IsColumn(elements, ranges, p, sorted[p]) && InColumn(ranges, p, a);
      assert IsColumn(elements, ranges, q, sorted[q]) && InColumn(ranges, q, b);
      OuterBlocks(elements, sorted[p], a);
      OuterBlocks(elements, sorted[q], b);
      assert sorted[p][|sorted[p]| - 1] in sorted[p] && SameColumn(ranges, a, sorted[p][|sorted[p]| - 1]);
      assert sorted[q][0] in sorted[q] && SameColumn(ranges, b, sorted[q][0]);
      forall d | p < d < q
        ensures sorted[d] == []
      {
        assert IsColumn(elements, ranges, d, sorted[d]);
        HeadIsInColumn(elements, ranges, d, sorted[d]);
      }
      assert EmptyBetween(sorted, p, q);
    }
  }

  lemma HeadIsInColumn(elements: seq<PageElement>, ranges: seq<ColumnRange>, c: nat, column: seq<nat>)
    requires IsColumn(elements, ranges, c, column)
    ensures column != [] ==> InColumn(ranges, c, column[0])
  {
    if column != [] {
      assert column[0] in column;
    }
  }

  lemma OuterBlocks(elements: seq<PageElement>, column: seq<nat>, a: nat)
    requires VerticallySorted(elements, column) && a in column
    ensures a == column[|column| - 1] || VerticalLess(elements, a, column[|column| - 1])
    ensures a == column[0] || VerticalLess(elements, column[0], a)
  {
  }

  /** Sorts every column, links it, and chains each non-empty column to the next one. */
  method ColumnEdges(elements: seq<PageElement>, ghost ranges: seq<ColumnRange>, byColumn: seq<seq<nat>>)
    returns (sorted: seq<seq<nat>>, edges: seq<WeightedEdge>)
    requires |elements| == |ranges| && DistinctIndices(elements) && Columns(ranges, byColumn)
    ensures |sorted| == |byColumn| && AllColumns(elements, ranges, sorted)
    ensures Sound(elements, ranges, edges)
    ensures forall c | 0 <= c < |sorted| :: ColumnLinked(elements, sorted[c], edges, |sorted[c]|)
    ensures FlowLinked(sorted, edges, |sorted|)
    ensures AddsOnly([], edges, {"same_column", "column_flow"})
  {
    sorted, edges := byColumn, [];
    var previous: int := -1;
    for c := 0 to |byColumn|
      invariant |sorted| == |byColumn| && Columns(ranges, sorted)
      invariant forall d | 0 <= d < c :: IsColumn(elements, ranges, d, sorted[d])
      invariant Sound(elements, ranges, edges)
      invariant forall d | 0 <= d < c :: ColumnLinked(elements, sorted[d], edges, |sorted[d]|)
      invariant FlowLinked(sorted, edges, c)
      invariant AddsOnly([], edges, {"same_column", "column_flow"})
      invariant -1 <= previous < c && (previous >= 0 ==> sorted[previous] != [])
      invariant forall d | previous < d < c :: sorted[d] == []
    {
      assert forall i | 0 <= i < |sorted[c]| :: InColumn(ranges, c, sorted[c][i]);
      var column := SortVertically(elements, sorted[c]);
      ghost var before, unsorted := edges, sorted;
      sorted := sorted[c := column];
      edges := LinkColumn(elements, ranges, column, edges, c);
      ghost var linked := edges;
      if column != [] && previous >= 0 {
        BetweenIsEmpty(ranges, sorted, previous, c);
        edges := LinkColumns(elements, ranges, sorted[previous], column, edges, previous, c);
      }
      forall d | 0 <= d < c
        ensures ColumnLinked(elements, sorted[d], edges, |sorted[d]|)
      {
        ColumnLinkedKept(elements, sorted[d], before, linked, |sorted[d]|);
        ColumnLinkedKept(elements, sorted[d], linked, edges, |sorted[d]|);
      }
      ColumnLinkedKept(elements, column, linked, edges, |column|);
      FlowLinkedKept(unsorted, sorted, before, edges, c);
      FlowOneMore(sorted, edges, previous, c);
      if column != [] {
        previous := c;
      }
    }
  }

  lemma BetweenIsEmpty(ranges: seq<ColumnRange>, sorted: seq<seq<nat>>, p: nat, q: nat)
    requires Columns(ranges, sorted) && q < |sorted| && forall d | p < d < q :: sorted[d] == []
    ensures forall d, i: nat | p < d < q :: !InColumn(ranges, d, i)
  {
  }

  lemma FlowOneMore(sorted: seq<seq<nat>>, edges: seq<WeightedEdge>, previous: int, c: nat)
    requires c < |sorted| && -1 <= previous < c && (forall d | previous < d < c :: sorted[d] == [])
    requires FlowLinked(sorted, edges, c)
    requires previous >= 0 ==> sorted[previous] != []
    requires sorted[c] != [] && previous >= 0 ==>
               Constrains(edges, sorted[previous][|sorted[previous]| - 1], sorted[c][0], COLUMN_FLOW_CONFIDENCE)
    ensures FlowLinked(sorted, edges, c + 1)
  {
    forall p: nat, q: nat | p < q < c + 1 && sorted[p] != [] && sorted[q] != [] && EmptyBetween(sorted, p, q)
      ensures Constrains(edges, sorted[p][|sorted[p]| - 1], sorted[q][0], COLUMN_FLOW_CONFIDENCE)
    {
      if q == c {
        assert p == previous;
      }
    }
  }

  // -- the edges among and around the spanning blocks --

  ghost predicate SpanningLinked(spanning: seq<nat>, edges: seq<WeightedEdge>, upTo: nat) {
    forall i | 0 < i < upTo && i < |spanning| ::
      Constrains(edges, spanning[i - 1], spanning[i], SPANNING_GEOMETRY_CONFIDENCE)
  }

  lemma SpanningLinkedKept(spanning: seq<nat>, edges: seq<WeightedEdge>, stronger: seq<WeightedEdge>, upTo: nat)
    requires SpanningLinked(spanning, edges, upTo) && Strengthens(edges, stronger)
    ensures SpanningLinked(spanning, stronger, upTo)
  {
    forall i | 0 < i < upTo && i < |spanning| {
      StrengthensKeeps(edges, stronger, spanning[i - 1], spanning[i], SPANNING_GEOMETRY_CONFIDENCE);
    }
  }

  lemma SpannersAreNeighbours(elements: seq<PageElement>, ranges: seq<ColumnRange>, spanning: seq<nat>, i: nat)
    requires |elements| == |ranges| && AreSpanners(elements, ranges, spanning) && 0 < i < |spanning|
    ensures SpanningNeighbours(elements, ranges, spanning[i - 1], spanning[i])
  {
    assert spanning[i - 1] in spanning && spanning[i] in spanning;
    forall m: nat | IsSpanning(ranges, m)
      ensures !(VerticalLess(elements, spanning[i - 1], m) && VerticalLess(elements, m, spanning[i]))
    {
      NothingBetween(elements, spanning, i, m);
    }
  }

  method LinkSpanning(elements: seq<PageElement>, ghost ranges: seq<ColumnRange>, spanning: seq<nat>,
                      edges: seq<WeightedEdge>) returns (more: seq<WeightedEdge>)
    requires Sound(elements, ranges, edges) && AreSpanners(elements, ranges, spanning)
    ensures Sound(elements, ranges, more) && Strengthens(edges, more)
    ensures SpanningLinked(spanning, more, |spanning|)
    ensures AddsNeighbours(elements, ranges, edges, more)
  {
    more := edges;
    var i := 1;
    while i < |spanning|
      invariant 1 <= i
      invariant AddsNeighbours(elements, ranges, edges, more)
      invariant Sound(elements, ranges, more) && Strengthens(edges, more)
      invariant SpanningLinked(spanning, more, i)
    {
      ghost var previous := more;
      var before, after := spanning[i - 1], spanning[i];
      SpannersAreNeighbours(elements, ranges, spanning, i);
      more := AddReasoned(elements, ranges, more, before, after, SPANNING_GEOMETRY_CONFIDENCE, "spanning_geometry");
      SpanningLinkedKept(spanning, previous, more, i);
      i := i + 1;
    }
  }

  lemma SpannersAreLinked(elements: seq<PageElement>, ranges: seq<ColumnRange>, spanning: seq<nat>,
                          edges: seq<WeightedEdge>)
    requires |elements| == |ranges| && AreSpanners(elements, ranges, spanning)
    requires SpanningLinked(spanning, edges, |spanning|)
    ensures HasSpanningEdges(elements, ranges, edges)
  {
    forall a: nat, b: nat | SpanningNeighbours(elements, ranges, a, b)
      ensures Constrains(edges, a, b, SPANNING_GEOMETRY_CONFIDENCE)
    {
      var i := NextInSorted(elements, spanning, a, b);
    }
  }

  /** The column's last block above s comes before s, its first other block after s. */
  ghost predicate SplitAt(elements: seq<PageElement>, column: seq<nat>, s: nat, edges: seq<WeightedEdge>, i: nat)
    requires VerticallySorted(elements, column) && s < |elements| && i < |column|
  {
    && (Above(elements, column[i], s) && (i + 1 < |column| ==> !Above(elements, column[i + 1], s)) ==>
          Constrains(edges, column[i], s, SPANNING_GEOMETRY_CONFIDENCE))
    && (!Above(elements, column[i], s) && (i > 0 ==> Above(elements, column[i - 1], s)) ==>
          Constrains(edges, s, column[i], SPANNING_GEOMETRY_CONFIDENCE))
  }

  ghost predicate SplitBy(elements: seq<PageElement>, column: seq<nat>, s: nat, edges: seq<WeightedEdge>)
    requires VerticallySorted(elements, column) && s < |elements|
  {
    forall i | 0 <= i < |column| :: SplitAt(elements, column, s, edges, i)
  }

  lemma SplitByKept(elements: seq<PageElement>, column: seq<nat>, s: nat, edges: seq<WeightedEdge>,
                    stronger: seq<WeightedEdge>)
    requires VerticallySorted(elements, column) && s < |elements|
    requires SplitBy(elements, column, s, edges) && Strengthens(edges, stronger)
    ensures SplitBy(elements, column, s, stronger)
  {
    forall i | 0 <= i < |column|
      ensures SplitAt(elements, column, s, stronger, i)
    {
      assert SplitAt(elements, column, s, edges, i);
      if Constrains(edges, column[i], s, SPANNING_GEOMETRY_CONFIDENCE) {
        StrengthensKeeps(edges, stronger, column[i], s, SPANNING_GEOMETRY_CONFIDENCE);
      }
      if Constrains(edges, s, column[i], SPANNING_GEOMETRY_CONFIDENCE) {
        StrengthensKeeps(edges, stronger, s, column[i], SPANNING_GEOMETRY_CONFIDENCE);
      }
    }
  }

  lemma SplitPoint(elements: seq<PageElement>, ranges: seq<ColumnRange>, c: nat, column: seq<nat>, s: nat, i: nat)
    requires |elements| == |ranges| && IsColumn(elements, ranges, c, column)
    requires IsSpanning(ranges, s) && ranges[s].first <= c <= ranges[s].last && i <= |column|
    requires forall k | 0 <= k < i :: Above(elements, column[k], s)
    requires i < |column| ==> !Above(elements, column[i], s)
    ensures forall k | i <= k < |column| :: !Above(elements, column[k], s)
    ensures i > 0 ==> LastAbove(elements, ranges, column[i - 1], s)
    ensures i < |column| ==> FirstBelow(elements, ranges, column[i], s)
  {
    forall k | i < k < |column| ensures !Above(elements, column[k], s) {
      assert VerticalLess(elements, column[i], column[k]);
    }
    if i > 0 {
      assert column[i - 1] in column;
      forall m: nat | SameColumn(ranges, column[i - 1], m)
        ensures !(VerticalLess(elements, column[i - 1], m) && Above(elements, m, s))
      {
        assert InColumn(ranges, c, m);
        var p := BelowOrAbove(elements, column, i, m);
      }
    }
    if i < |column| {
      assert column[i] in column;
      forall m: nat | SameColumn(ranges, column[i], m)
        ensures !(VerticalLess(elements, m, column[i]) && !Above(elements, m, s))
      {
        assert InColumn(ranges, c, m);
        var p := BelowOrAbove(elements, column, i, m);
      }
    }
  }

  lemma BelowOrAbove(elements: seq<PageElement>, column: seq<nat>, i: nat, m: nat) returns (p: nat)
    requires VerticallySorted(elements, column) && m in column && i <= |column|
    ensures p < |column| && column[p] == m
    ensures p < i ==> !VerticalLess(elements, column[i - 1], m)
    ensures p >= i ==> !VerticalLess(elements, m, column[i])
  {
    p :| p < |column| && column[p] == m;
    if p < i - 1 {
      assert VerticalLess(elements, column[p], column[i - 1]);
    } else if p > i {
      assert VerticalLess(elements, column[i], column[p]);
    }
  }

  lemma SplitThere(elements: seq<PageElement>, column: seq<nat>, s: nat, edges: seq<WeightedEdge>, i: nat)
    requires VerticallySorted(elements, column) && s < |elements| && i <= |column|
    requires forall k | 0 <= k < i :: Above(elements, column[k], s)
    requires forall k | i <= k < |column| :: !Above(elements, column[k], s)
    requires i > 0 ==> Constrains(edges, column[i - 1], s, SPANNING_GEOMETRY_CONFIDENCE)
    requires i < |column| ==> Constrains(edges, s, column[i], SPANNING_GEOMETRY_CONFIDENCE)
    ensures SplitBy(elements, column, s, edges)
  {
  }

  /** Constrains one column around one spanning element. */
  method SplitColumn(elements: seq<PageElement>, ghost ranges: seq<ColumnRange>, column: seq<nat>, s: nat,
                     edges: seq<WeightedEdge>, ghost c: nat) returns (more: seq<WeightedEdge>)
    requires Sound(elements, ranges, edges) && IsColumn(elements, ranges, c, column)
    requires IsSpanning(ranges, s) && s < |elements| && ranges[s].first <= c <= ranges[s].last
    ensures Sound(elements, ranges, more) && Strengthens(edges, more)
    ensures SplitBy(elements, column, s, more)
    ensures AddsSplits(elements, ranges, edges, more)
  {
    var i := 0;
    while i < |column| && CenterY(elements[column[i]].bbox) < CenterY(elements[s].bbox)
      invariant 0 <= i <= |column|
      invariant forall k | 0 <= k < i :: Above(elements, column[k], s)
    {
      i := i + 1;
    }
    SplitPoint(elements, ranges, c, column, s, i);
    more := edges;
    ghost var between := edges;
    if i > 0 {
      more := AddReasoned(elements, ranges, more, column[i - 1], s, SPANNING_GEOMETRY_CONFIDENCE, "spanning_geometry");
      between := more;
    }
    if i < |column| {
      more := AddReasoned(elements, ranges, more, s, column[i], SPANNING_GEOMETRY_CONFIDENCE, "spanning_geometry");
    }
    if i > 0 {
      StrengthensKeeps(between, more, column[i - 1], s, SPANNING_GEOMETRY_CONFIDENCE);
    }
    SplitThere(elements, column, s, more, i);
  }

  ghost predicate SplitAll(elements: seq<PageElement>, ranges: seq<ColumnRange>, sorted: seq<seq<nat>>, s: nat,
                           edges: seq<WeightedEdge>, upTo: nat)
    requires AllColumns(elements, ranges, sorted)
    requires s < |elements| == |ranges| && ranges[s].last < |sorted|
  {
    forall c | ranges[s].first <= c <= ranges[s].last && c < upTo :: SplitBy(elements, sorted[c], s, edges)
  }

  method SplitColumns(elements: seq<PageElement>, ranges: seq<ColumnRange>, sorted: seq<seq<nat>>, spanning: seq<nat>,
                      edges: seq<WeightedEdge>) returns (more: seq<WeightedEdge>)
    requires Sound(elements, ranges, edges) && AllColumns(elements, ranges, sorted)
    requires RangesFit(ranges, |sorted|)
    requires forall i | 0 <= i < |spanning| :: spanning[i] < |elements| && IsSpanning(ranges, spanning[i])
    ensures Sound(elements, ranges, more) && Strengthens(edges, more)
    ensures forall i | 0 <= i < |spanning| :: SplitAll(elements, ranges, sorted, spanning[i], more, |sorted|)
    ensures AddsSplits(elements, ranges, edges, more)
  {
    more := edges;
    for i := 0 to |spanning|
      invariant AddsSplits(elements, ranges, edges, more)
      invariant Sound(elements, ranges, more) && Strengthens(edges, more)
      invariant forall k | 0 <= k < i :: SplitAll(elements, ranges, sorted, spanning[k], more, |sorted|)
    {
      var s := spanning[i];
      ghost var before := more;
      var c := ranges[s].first;
      while c <= ranges[s].last
        invariant ranges[s].first <= c <= ranges[s].last + 1
        invariant Sound(elements, ranges, more) && Strengthens(before, more)
        invariant SplitAll(elements, ranges, sorted, s, more, c)
        invariant AddsSplits(elements, ranges, edges, more)
      {
        ghost var previous := more;
        assert IsColumn(elements, ranges, c, sorted[c]);
        more := SplitColumn(elements, ranges, sorted[c], s, more, c);
        forall d | ranges[s].first <= d < c {
          SplitByKept(elements, sorted[d], s, previous, more);
        }
        c := c + 1;
      }
      forall k | 0 <= k < i
        ensures SplitAll(elements, ranges, sorted, spanning[k], more, |sorted|)
      {
        SplitAllKept(elements, ranges, sorted, spanning[k], before, more);
      }
    }
  }

  lemma SplitAllKept(elements: seq<PageElement>, ranges: seq<ColumnRange>, sorted: seq<seq<nat>>, s: nat,
                     edges: seq<WeightedEdge>, stronger: seq<WeightedEdge>)
    requires AllColumns(elements, ranges, sorted)
    requires s < |elements| == |ranges| && ranges[s].last < |sorted|
    requires SplitAll(elements, ranges, sorted, s, edges, |sorted|) && Strengthens(edges, stronger)
    ensures SplitAll(elements, ranges, sorted, s, stronger, |sorted|)
  {
    forall d | ranges[s].first <= d <= ranges[s].last {
      SplitByKept(elements, sorted[d], s, edges, stronger);
    }
  }

  lemma ColumnsAreSplit(elements: seq<PageElement>, ranges: seq<ColumnRange>, sorted: seq<seq<nat>>, spanning: seq<nat>,
                        edges: seq<WeightedEdge>)
    requires |elements| == |ranges| && RangesFit(ranges, |sorted|)
    requires AllColumns(elements, ranges, sorted) && AreSpanners(elements, ranges, spanning)
    requires forall i | 0 <= i < |spanning| :: SplitAll(elements, ranges, sorted, spanning[i], edges, |sorted|)
    ensures HasSplitEdges(elements, ranges, edges)
  {
    forall a: nat, s: nat | LastAbove(elements, ranges, a, s)
      ensures Constrains(edges, a, s, SPANNING_GEOMETRY_CONFIDENCE)
    {
      var column, i := SplitPosition(elements, ranges, sorted, spanning, edges, a, s);
      if i + 1 < |column| {
        assert column[i + 1] in column && SameColumn(ranges, a, column[i + 1]);
        assert VerticalLess(elements, a, column[i + 1]);
      }
    }
    forall b: nat, s: nat | FirstBelow(elements, ranges, b, s)
      ensures Constrains(edges, s, b, SPANNING_GEOMETRY_CONFIDENCE)
    {
      var column, i := SplitPosition(elements, ranges, sorted, spanning, edges, b, s);
      if i > 0 {
        assert column[i - 1] in column && SameColumn(ranges, b, column[i - 1]);
        assert VerticalLess(elements, column[i - 1], b);
      }
    }
  }

  lemma SplitPosition(elements: seq<PageElement>, ranges: seq<ColumnRange>, sorted: seq<seq<nat>>, spanning: seq<nat>,
                      edges: seq<WeightedEdge>, a: nat, s: nat) returns (column: seq<nat>, i: nat)
    requires |elements| == |ranges| && RangesFit(ranges, |sorted|)
    requires AllColumns(elements, ranges, sorted) && AreSpanners(elements, ranges, spanning)
    requires forall i | 0 <= i < |spanning| :: SplitAll(elements, ranges, sorted, spanning[i], edges, |sorted|)
    requires Touches(ranges, s, a)
    ensures IsColumn(elements, ranges, ranges[a].first, column) && i < |column| && column[i] == a
    ensures SplitAt(elements, column, s, edges, i)
  {
    var c := ranges[a].first;
    column := sorted[c];
    assert IsColumn(elements, ranges, c, column) && InColumn(ranges, c, a) && IsSpanning(ranges, s) && s in spanning;
    i :| i < |column| && column[i] == a;
    assert SplitBy(elements, column, s, edges);
  }

  // -- the edges the model hints ask for --

  ghost predicate HintSorted(elements: seq<PageElement>, hinted: seq<nat>) {
    && (forall i: nat :: i in hinted <==> Hinted(elements, i))
    && (forall i | 0 <= i < |hinted| :: hinted[i] < |elements|)
    && forall i, j | 0 <= i < j < |hinted| :: HintLess(elements, hinted[i], hinted[j])
  }

  /** The hinted blocks by hint; equal hints keep their order. */
  method SortHinted(elements: seq<PageElement>) returns (sorted: seq<nat>)
    ensures HintSorted(elements, sorted)
  {
    var hinted: seq<nat> := [];
    for index := 0 to |elements|
      invariant forall i: nat :: i in hinted <==> i < index && Hinted(elements, i)
      invariant forall i, j | 0 <= i < j < |hinted| :: hinted[i] < hinted[j]
    {
      if elements[index].block.readingOrderHint >= 0 {
        assert forall i | 0 <= i < |hinted| :: hinted[i] in hinted;
        hinted := hinted + [index];
      }
    }
    sorted := StableSort(hinted, HintOrder(elements));
    SortedByHint(elements, hinted);
  }

  function HintOrder(elements: seq<PageElement>): (nat, nat) -> bool {
    (a: nat, b: nat) => a < |elements| && b < |elements| &&
                        elements[a].block.readingOrderHint < elements[b].block.readingOrderHint
  }

  lemma HintOrderIsWeak(elements: seq<PageElement>, hinted: seq<nat>)
    requires forall i | i in hinted :: i < |elements|
    ensures WeakOrderOn(hinted, HintOrder(elements))
  {
  }

  lemma StableHints(elements: seq<PageElement>, sorted: seq<nat>)
    requires forall i | 0 <= i < |sorted| :: sorted[i] < |elements|
    requires StablySorted(sorted, HintOrder(elements))
    ensures forall i, j | 0 <= i < j < |sorted| :: HintLess(elements, sorted[i], sorted[j])
  {
  }

  lemma SortedByHint(elements: seq<PageElement>, hinted: seq<nat>)
    requires forall i: nat :: i in hinted <==> i < |elements| && Hinted(elements, i)
    requires forall i, j | 0 <= i < j < |hinted| :: hinted[i] < hinted[j]
    ensures HintSorted(elements, StableSort(hinted, HintOrder(elements)))
  {
    var less := HintOrder(elements);
    HintOrderIsWeak(elements, hinted);
    SortMembers(hinted, less);
    SortIsStable(hinted, less);
    var sorted := StableSort(hinted, less);
    assert forall i | 0 <= i < |sorted| :: sorted[i] in sorted;
    StableHints(elements, sorted);
  }

  ghost predicate HintsDiffer(elements: seq<PageElement>, a: nat, b: nat)
    requires a < |elements| && b < |elements|
  {
    elements[a].block.readingOrderHint != elements[b].block.readingOrderHint
  }

  ghost predicate HintLinked(elements: seq<PageElement>, hinted: seq<nat>, edges: seq<WeightedEdge>, upTo: nat)
    requires HintSorted(elements, hinted)
  {
    forall i | 0 < i < upTo && i < |hinted| && HintsDiffer(elements, hinted[i - 1], hinted[i]) ::
      Constrains(edges, hinted[i - 1], hinted[i], MODEL_HINT_CONFIDENCE)
  }

  lemma HintLinkedKept(elements: seq<PageElement>, hinted: seq<nat>, edges: seq<WeightedEdge>,
                       stronger: seq<WeightedEdge>, upTo: nat)
    requires HintSorted(elements, hinted) && HintLinked(elements, hinted, edges, upTo) && Strengthens(edges, stronger)
    ensures HintLinked(elements, hinted, stronger, upTo)
  {
    forall i | 0 < i < upTo && i < |hinted| && HintsDiffer(elements, hinted[i - 1], hinted[i]) {
      StrengthensKeeps(edges, stronger, hinted[i - 1], hinted[i], MODEL_HINT_CONFIDENCE);
    }
  }

  lemma HintedFollow(elements: seq<PageElement>, hinted: seq<nat>, i: nat)
    requires HintSorted(elements, hinted) && 0 < i < |hinted| && HintsDiffer(elements, hinted[i - 1], hinted[i])
    ensures HintFollows(elements, hinted[i - 1], hinted[i])
  {
    assert hinted[i - 1] in hinted && hinted[i] in hinted;
    forall m: nat | Hinted(elements, m)
      ensures !(HintLess(elements, hinted[i - 1], m) && HintLess(elements, m, hinted[i]))
    {
      var p :| 0 <= p < |hinted| && hinted[p] == m;
      if p < i - 1 {
        assert HintLess(elements, hinted[p], hinted[i - 1]);
      } else if p > i {
        assert HintLess(elements, hinted[i], hinted[p]);
      }
    }
  }

  lemma HintsAreLinked(elements: seq<PageElement>, hinted: seq<nat>, edges: seq<WeightedEdge>)
    requires HintSorted(elements, hinted) && HintLinked(elements, hinted, edges, |hinted|)
    ensures HasHintEdges(elements, edges)
  {
    forall a: nat, b: nat | HintFollows(elements, a, b)
      ensures Constrains(edges, a, b, MODEL_HINT_CONFIDENCE)
    {
      var p: nat :| p < |hinted| && hinted[p] == a;
      var i: nat :| i < |hinted| && hinted[i] == b;
      if p + 1 < |hinted| {
        assert hinted[p + 1] in hinted;
      }
      assert i == p + 1;
      assert HintsDiffer(elements, hinted[i - 1], hinted[i]);
    }
  }

  /** Chains the blocks that carry a model hint, in hint order. */
  method HintEdges(elements: seq<PageElement>, ghost ranges: seq<ColumnRange>, edges: seq<WeightedEdge>)
    returns (more: seq<WeightedEdge>)
    requires Sound(elements, ranges, edges)
    ensures Sound(elements, ranges, more) && Strengthens(edges, more)
    ensures HasHintEdges(elements, more)
    ensures AddsOnly(edges, more, {"model_hint"})
  {
    var hinted := SortHinted(elements);
    more := edges;
    var i := 1;
    while i < |hinted|
      invariant 1 <= i
      invariant Sound(elements, ranges, more) && Strengthens(edges, more)
      invariant HintLinked(elements, hinted, more, i)
      invariant AddsOnly(edges, more, {"model_hint"})
    {
      var before, after := hinted[i - 1], hinted[i];
      ghost var previous := more;
      if elements[before].block.readingOrderHint != elements[after].block.readingOrderHint {
        HintedFollow(elements, hinted, i);
        more := AddReasoned(elements, ranges, more, before, after, MODEL_HINT_CONFIDENCE, "model_hint");
      }
      HintLinkedKept(elements, hinted, previous, more, i);
      i := i + 1;
    }
    HintsAreLinked(elements, hinted, more);
  }

  /** Builds the constraint graph of the band. */
  method BuildGraph(elements: seq<PageElement>, ranges: seq<ColumnRange>, columnCount: nat)
    returns (edges: seq<WeightedEdge>)
    requires |elements| == |ranges| && DistinctIndices(elements) && RangesFit(ranges, columnCount)
    ensures IsBandGraph(elements, ranges, edges)
  {
    var byColumn, unsorted := Partition(ranges, columnCount);
    var sorted, columnEdges := ColumnEdges(elements, ranges, byColumn);
    assert forall i | 0 <= i < |unsorted| :: unsorted[i] in unsorted;
    var spanning := SortVertically(elements, unsorted);
    assert forall i | 0 <= i < |spanning| :: spanning[i] in spanning;
    var spanningEdges := LinkSpanning(elements, ranges, spanning, columnEdges);
    var splitEdges := SplitColumns(elements, ranges, sorted, spanning, spanningEdges);
    edges := HintEdges(elements, ranges, splitEdges);
    forall c | 0 <= c < |sorted|
      ensures ColumnLinked(elements, sorted[c], edges, |sorted[c]|)
    {
      assert IsColumn(elements, ranges, c, sorted[c]);
      ColumnLinkedKept(elements, sorted[c], columnEdges, edges, |sorted[c]|);
    }
    ColumnsAreLinked(elements, ranges, sorted, edges);
    FlowLinkedKept(sorted, sorted, columnEdges, edges, |sorted|);
    FlowIsLinked(elements, ranges, sorted, edges);
    SpanningLinkedKept(spanning, spanningEdges, edges, |spanning|);
    SpannersAreLinked(elements, ranges, spanning, edges);
    forall i | 0 <= i < |spanning|
      ensures SplitAll(elements, ranges, sorted, spanning[i], edges, |sorted|)
    {
      SplitAllKept(elements, ranges, sorted, spanning[i], splitEdges, edges);
    }
    ColumnsAreSplit(elements, ranges, sorted, spanning, edges);
  }

  ghost function CountReason(edges: seq<WeightedEdge>, reason: string): nat {
    if edges == [] then 0
    else CountReason(edges[..|edges| - 1], reason) + (if edges[|edges| - 1].reason == reason then 1 else 0)
  }

  function CountOf(counts: map<string, nat>, reason: string): nat {
    if reason in counts then counts[reason] else 0
  }

  method RecordEdgeCounts(edges: seq<WeightedEdge>, counts: map<string, nat>) returns (more: map<string, nat>)
    ensures forall reason :: CountOf(more, reason) == CountOf(counts, reason) + CountReason(edges, reason)
  {
    more := counts;
    for i := 0 to |edges|
      invariant forall reason :: CountOf(more, reason) == CountOf(counts, reason) + CountReason(edges[..i], reason)
    {
      assert edges[..i + 1][..i] == edges[..i];
      more := more[edges[i].reason := CountOf(more, edges[i].reason) + 1];
    }
    assert edges[..|edges|] == edges;
  }

  // ---- what the graph guarantees ----

  /** Spanning blocks read from top to bottom. */
  ghost predicate SpanningTopDown(elements: seq<PageElement>, ranges: seq<ColumnRange>, order: seq<nat>)
    requires |elements| == |ranges|
  {
    forall a: nat, b: nat | IsSpanning(ranges, a) && IsSpanning(ranges, b) && VerticalLess(elements, a, b) ::
      Precedes(order, a, b)
  }

  /** Consecutive blocks of a column read from top to bottom wherever their centres are apart. */
  ghost predicate ColumnsTopDown(elements: seq<PageElement>, ranges: seq<ColumnRange>, order: seq<nat>)
    requires |elements| == |ranges|
  {
    forall a: nat, b: nat | Neighbours(elements, ranges, a, b) && FarApart(elements, a, b) :: Precedes(order, a, b)
  }

  /** A spanning block reads after the last block above it in each of its columns and before the next one. */
  ghost predicate SpanningSplitsColumns(elements: seq<PageElement>, ranges: seq<ColumnRange>, order: seq<nat>)
    requires |elements| == |ranges|
  {
    && (forall a: nat, s: nat | LastAbove(elements, ranges, a, s) :: Precedes(order, a, s))
    && forall b: nat, s: nat | FirstBelow(elements, ranges, b, s) :: Precedes(order, s, b)
  }

  /** What the geometry of a band guarantees about its order. */
  ghost predicate BandOrdered(elements: seq<PageElement>, ranges: seq<ColumnRange>, order: seq<nat>)
    requires |elements| == |ranges|
  {
    && SpanningTopDown(elements, ranges, order)
    && ColumnsTopDown(elements, ranges, order)
    && SpanningSplitsColumns(elements, ranges, order)
  }

  /** The order shows every geometric constraint of the graph. */
  ghost predicate Shows(order: seq<nat>, edges: seq<WeightedEdge>) {
    forall a: nat, b: nat | Constrains(edges, a, b, SPANNING_GEOMETRY_CONFIDENCE) :: Precedes(order, a, b)
  }

  ghost function SpannersBetween(elements: seq<PageElement>, ranges: seq<ColumnRange>, a: nat, b: nat): set<nat>
    requires a < |elements| == |ranges| && b < |elements|
  {
    set m: nat | m < |ranges| && IsSpanning(ranges, m) && VerticalLess(elements, a, m) && VerticalLess(elements, m, b)
  }

  lemma {:induction false} SpannersInOrder(elements: seq<PageElement>, ranges: seq<ColumnRange>, edges: seq<WeightedEdge>,
                                           order: seq<nat>, a: nat, b: nat)
    requires |elements| == |ranges| && HasSpanningEdges(elements, ranges, edges) && Shows(order, edges)
    requires forall v: nat | v < |elements| :: v in order
    requires IsSpanning(ranges, a) && IsSpanning(ranges, b) && VerticalLess(elements, a, b)
    ensures Precedes(order, a, b)
    decreases SpannersBetween(elements, ranges, a, b)
  {
    var between := SpannersBetween(elements, ranges, a, b);
    if between == {} {
      forall m: nat | IsSpanning(ranges, m)
        ensures !(VerticalLess(elements, a, m) && VerticalLess(elements, m, b))
      {
        assert m !in between;
      }
      assert SpanningNeighbours(elements, ranges, a, b);
    } else {
      var m :| m in between;
      assert m !in SpannersBetween(elements, ranges, a, m) && m !in SpannersBetween(elements, ranges, m, b);
      assert SpannersBetween(elements, ranges, a, m) <= between && SpannersBetween(elements, ranges, m, b) <= between;
      SpannersInOrder(elements, ranges, edges, order, a, m);
      SpannersInOrder(elements, ranges, edges, order, m, b);
      assert m in order;
    }
  }

  lemma GraphOrdersBand(elements: seq<PageElement>, ranges: seq<ColumnRange>, edges: seq<WeightedEdge>, order: seq<nat>)
    requires IsBandGraph(elements, ranges, edges) && IsPermutation(order, |elements|) && Shows(order, edges)
    ensures BandOrdered(elements, ranges, order)
  {
    PermutationCovers(order, |elements|);
    forall a: nat, b: nat | IsSpanning(ranges, a) && IsSpanning(ranges, b) && VerticalLess(elements, a, b)
      ensures Precedes(order, a, b)
    {
      SpannersInOrder(elements, ranges, edges, order, a, b);
    }
    forall a: nat, b: nat | Neighbours(elements, ranges, a, b) && FarApart(elements, a, b)
      ensures Precedes(order, a, b)
    {
      assert Constrains(edges, a, b, SAME_COLUMN_CONFIDENCE);
      assert Constrains(edges, a, b, SPANNING_GEOMETRY_CONFIDENCE);
    }
  }
}
