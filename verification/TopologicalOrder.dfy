/**
  The priority topological sort. When every remaining element is blocked it
  deactivates the weakest edge of a cycle and goes on; the trace records each
  such sacrifice.
 */
module TopologicalOrder {
  import opened ReadingOrderModel
  import opened CycleSearch
  import opened Sequences

  /** The `edge` was given up when `at` elements had been emitted. */
  datatype Removal = Removal(edge: nat, at: nat)

  ghost predicate Removed(removals: seq<Removal>, edge: nat) {
    exists t | 0 <= t < |removals| :: removals[t].edge == edge
  }

  /** Before position p, every edge into v is either satisfied or already given up. */
  ghost predicate ReadyAt(edges: seq<WeightedEdge>, order: seq<nat>, removals: seq<Removal>, v: nat, p: nat)
    requires p <= |order|
  {
    forall k | 0 <= k < |edges| && edges[k].to == v && edges[k].from !in order[..p] ::
      exists t | 0 <= t < |removals| :: removals[t].edge == k && removals[t].at <= p
  }

  /** Every emitted element had all its remaining predecessors emitted before it. */
  ghost predicate Respects(edges: seq<WeightedEdge>, order: seq<nat>, removals: seq<Removal>) {
    forall j, k | 0 <= j < |order| && 0 <= k < |edges| && edges[k].to == order[j] && !Removed(removals, k) ::
      edges[k].from in order[..j]
  }

  /** Each position holds a first element, in priority order, among those ready for it. */
  ghost predicate Greedy(elements: seq<PageElement>, ranges: seq<ColumnRange>, columnCount: nat,
                         edges: seq<WeightedEdge>, order: seq<nat>, removals: seq<Removal>)
    requires |elements| == |ranges|
    requires forall i | 0 <= i < |order| :: order[i] < |elements|
  {
    forall p, v: nat | 0 <= p < |order| && v < |elements| && v !in order[..p] && ReadyAt(edges, order, removals, v, p) ::
      !ComesBefore(elements, ranges, columnCount, v, order[p])
  }

  /** At the t-th sacrifice every element not yet emitted was blocked. */
  ghost predicate StuckAt(n: nat, edges: seq<WeightedEdge>, order: seq<nat>, removals: seq<Removal>, t: nat)
    requires t < |removals|
  {
    && removals[t].at <= |order|
    && forall v: nat | v < n && v !in order[..removals[t].at] ::
      exists k | 0 <= k < |edges| ::
        edges[k].to == v && edges[k].from !in order[..removals[t].at] && !Removed(removals[..t], k)
  }

  ghost function Nothing(n: nat): seq<bool> { seq(n, _ => false) }

  /** The edge lies on a cycle of the given edges, on which no edge is weaker. */
  ghost predicate WeakestOnCycle(n: nat, edges: seq<WeightedEdge>, c: seq<nat>, edge: nat) {
    && IsCycle(edges, Nothing(n), c)
    && edge in c && edge < |edges|
    && forall k | 0 <= k < |c| :: c[k] < |edges| && !WeakerEdge(edges[c[k]], edges[edge])
  }

  ghost predicate Sacrificed(n: nat, edges: seq<WeightedEdge>, edge: nat) {
    exists c :: WeakestOnCycle(n, edges, c, edge)
  }

  ghost predicate Justified(n: nat, edges: seq<WeightedEdge>, removals: seq<Removal>) {
    forall t | 0 <= t < |removals| :: Sacrificed(n, edges, removals[t].edge)
  }

  /** The trace entry the sort records when it gives an edge up. */
  function BreakOf(elements: seq<PageElement>, e: WeightedEdge): CycleBreak
    requires e.from < |elements| && e.to < |elements|
  {
    CycleBreak(elements[e.from].block.id, elements[e.to].block.id, e.reason, e.confidence)
  }

  ghost predicate Recorded(elements: seq<PageElement>, edges: seq<WeightedEdge>, removals: seq<Removal>,
                           breaks: seq<CycleBreak>)
    requires ValidEdges(edges, |elements|)
  {
    && |breaks| == |removals|
    && (forall t | 0 <= t < |removals| ::
          removals[t].edge < |edges| && breaks[t] == BreakOf(elements, edges[removals[t].edge]))
    && forall s, t | 0 <= s < t < |removals| :: removals[s].edge != removals[t].edge
  }

  ghost predicate AllActive(edges: seq<WeightedEdge>) {
    forall k | 0 <= k < |edges| :: edges[k].active
  }

  /** How many of the first k edges are active, lead to v and start at an element not emitted. */
  ghost function Pending(edges: seq<WeightedEdge>, emitted: seq<bool>, v: nat, k: nat): nat
    requires k <= |edges| && ValidEdges(edges, |emitted|)
  {
    if k == 0 then 0
    else Pending(edges, emitted, v, k - 1) +
         (if edges[k - 1].active && edges[k - 1].to == v && !emitted[edges[k - 1].from] then 1 else 0)
  }

  lemma {:induction false} NothingPending(edges: seq<WeightedEdge>, emitted: seq<bool>, v: nat, k: nat)
    requires k <= |edges| && ValidEdges(edges, |emitted|)
    ensures Pending(edges, emitted, v, k) == 0 <==>
            forall i | 0 <= i < k :: !(edges[i].active && edges[i].to == v && !emitted[edges[i].from])
  {
    if k > 0 {
      NothingPending(edges, emitted, v, k - 1);
    }
  }

  lemma {:induction false} PendingAfterDeactivation(edges: seq<WeightedEdge>, emitted: seq<bool>, v: nat, k: nat, edge: nat)
    requires k <= |edges| && ValidEdges(edges, |emitted|) && edge < |edges|
    requires edges[edge].active && !emitted[edges[edge].from]
    ensures Pending(edges[edge := edges[edge].(active := false)], emitted, v, k) ==
            Pending(edges, emitted, v, k) - (if edge < k && edges[edge].to == v then 1 else 0)
  {
    if k > 0 {
      PendingAfterDeactivation(edges, emitted, v, k - 1, edge);
    }
  }

  lemma {:induction false} PendingAfterEmission(edges: seq<WeightedEdge>, emitted: seq<bool>, v: nat, k: nat, next: nat)
    requires k <= |edges| && ValidEdges(edges, |emitted|) && next < |emitted| && !emitted[next]
    ensures Pending(edges, emitted[next := true], v, k) == Pending(edges, emitted, v, k) - OutOf(edges, next, v, k)
  {
    if k > 0 {
      PendingAfterEmission(edges, emitted, v, k - 1, next);
    }
  }

  /** How many of the first k edges are active and lead from `next` to v. */
  ghost function OutOf(edges: seq<WeightedEdge>, next: nat, v: nat, k: nat): nat
    requires k <= |edges|
  {
    if k == 0 then 0
    else OutOf(edges, next, v, k - 1) +
         (if edges[k - 1].active && edges[k - 1].from == next && edges[k - 1].to == v then 1 else 0)
  }

  method IncomingCounts(n: nat, edges: seq<WeightedEdge>) returns (indegree: seq<int>)
    requires ValidEdges(edges, n) && AllActive(edges)
    ensures |indegree| == n
    ensures forall v: nat | v < n :: indegree[v] == Pending(edges, Nothing(n), v, |edges|)
  {
    indegree := seq(n, _ => 0);
    for k := 0 to |edges|
      invariant |indegree| == n
      invariant forall v: nat | v < n :: indegree[v] == Pending(edges, Nothing(n), v, k)
    {
      indegree := indegree[edges[k].to := indegree[edges[k].to] + 1];
    }
  }

  /** The first ready element in priority order, or -1 when every element left is blocked. */
  method SelectReady(elements: seq<PageElement>, ranges: seq<ColumnRange>, columnCount: nat,
                     emitted: seq<bool>, indegree: seq<int>) returns (next: int)
    requires |elements| == |ranges| == |emitted| == |indegree|
    ensures next < 0 ==> forall v | 0 <= v < |elements| :: emitted[v] || indegree[v] != 0
    ensures next >= 0 ==> next < |elements| && !emitted[next] && indegree[next] == 0
    ensures next >= 0 ==> forall v: nat | v < |elements| && !emitted[v] && indegree[v] == 0 ::
      !ComesBefore(elements, ranges, columnCount, v, next)
  {
    next := -1;
    for index := 0 to |elements|
      invariant next < 0 ==> forall v | 0 <= v < index :: emitted[v] || indegree[v] != 0
      invariant next >= 0 ==> next < index && !emitted[next] && indegree[next] == 0
      invariant next >= 0 ==> forall v: nat | v < index && !emitted[v] && indegree[v] == 0 ::
        !ComesBefore(elements, ranges, columnCount, v, next)
    {
      if !emitted[index] && indegree[index] == 0 {
        if next < 0 || ComesBefore(elements, ranges, columnCount, index, next) {
          next := index;
        }
      }
    }
  }

  method WeakestEdge(edges: seq<WeightedEdge>, cycle: seq<nat>) returns (weakest: nat)
    requires cycle != [] && forall k | 0 <= k < |cycle| :: cycle[k] < |edges|
    ensures weakest in cycle
    ensures forall k | 0 <= k < |cycle| :: !WeakerEdge(edges[cycle[k]], edges[weakest])
  {
    weakest := cycle[0];
    WeakerIsStrictOrder(edges);
    for k := 1 to |cycle|
      invariant weakest in cycle
      invariant forall i | 0 <= i < k :: !WeakerEdge(edges[cycle[i]], edges[weakest])
    {
      if WeakerEdge(edges[cycle[k]], edges[weakest]) {
        weakest := cycle[k];
      }
    }
  }

  lemma {:induction false} StringLessTransitive(a: string, b: string, c: string)
    requires StringLess(a, b) && StringLess(b, c)
    ensures StringLess(a, c) && !StringLess(b, a)
    decreases |b|
  {
    if a != [] {
      if a[0] == b[0] && b[0] == c[0] {
        StringLessTransitive(a[1..], b[1..], c[1..]);
      } else if a[0] == b[0] {
        StringLessAsymmetric(a[1..], b[1..]);
      }
    }
  }

  lemma {:induction false} StringLessAsymmetric(a: string, b: string)
    requires StringLess(a, b)
    ensures !StringLess(b, a)
    decreases |b|
  {
    if a != [] && a[0] == b[0] {
      StringLessAsymmetric(a[1..], b[1..]);
    }
  }

  lemma WeakerIsStrictOrder(edges: seq<WeightedEdge>)
    ensures forall i, j, k | 0 <= i < |edges| && 0 <= j < |edges| && 0 <= k < |edges| &&
              WeakerEdge(edges[i], edges[j]) && WeakerEdge(edges[j], edges[k]) :: WeakerEdge(edges[i], edges[k])
    ensures forall i | 0 <= i < |edges| :: !WeakerEdge(edges[i], edges[i])
  {
    forall i, j, k | 0 <= i < |edges| && 0 <= j < |edges| && 0 <= k < |edges| &&
                     WeakerEdge(edges[i], edges[j]) && WeakerEdge(edges[j], edges[k])
      ensures WeakerEdge(edges[i], edges[k])
    {
      var a, b, c := edges[i], edges[j], edges[k];
      if a.confidence == b.confidence == c.confidence && StringLess(a.reason, b.reason) && StringLess(b.reason, c.reason) {
        StringLessTransitive(a.reason, b.reason, c.reason);
      }
    }
  }

  /** `current` is the given graph with the removed edges deactivated. */
  ghost predicate Deactivated(edges: seq<WeightedEdge>, current: seq<WeightedEdge>, removals: seq<Removal>) {
    && |current| == |edges|
    && forall k: nat | k < |edges| :: current[k] == edges[k].(active := !Removed(removals, k))
  }

  ghost predicate Emitted(n: nat, emitted: seq<bool>, order: seq<nat>) {
    && |emitted| == n
    && Distinct(order) && (forall i | 0 <= i < |order| :: order[i] < n)
    && forall v: nat | v < n :: emitted[v] <==> v in order
  }

  ghost predicate Counted(current: seq<WeightedEdge>, emitted: seq<bool>, indegree: seq<int>) {
    && |indegree| == |emitted| && ValidEdges(current, |emitted|)
    && forall v: nat | v < |emitted| && !emitted[v] :: indegree[v] == Pending(current, emitted, v, |current|)
  }

  /** The state between two steps of the sort. */
  ghost predicate Progress(n: nat, edges: seq<WeightedEdge>, current: seq<WeightedEdge>, emitted: seq<bool>,
                           indegree: seq<int>, order: seq<nat>, removals: seq<Removal>)
  {
    && ValidEdges(edges, n)
    && Deactivated(edges, current, removals)
    && Emitted(n, emitted, order)
    && Counted(current, emitted, indegree)
    && forall t | 0 <= t < |removals| :: removals[t].edge < |edges| && removals[t].at <= |order|
  }

  lemma CurrentCycleIsOriginal(n: nat, edges: seq<WeightedEdge>, current: seq<WeightedEdge>, emitted: seq<bool>,
                               indegree: seq<int>, order: seq<nat>, removals: seq<Removal>, c: seq<nat>, weakest: nat)
    requires Progress(n, edges, current, emitted, indegree, order, removals) && AllActive(edges)
    requires IsCycle(current, emitted, c) && weakest in c
    requires forall k | 0 <= k < |c| :: !WeakerEdge(current[c[k]], current[weakest])
    ensures WeakestOnCycle(n, edges, c, weakest)
  {
    forall k | 0 <= k < |c|
      ensures c[k] < |edges| && Live(edges[c[k]], Nothing(n)) && !WeakerEdge(edges[c[k]], edges[weakest])
      ensures edges[c[k]].from == current[c[k]].from && edges[c[k]].to == current[c[k]].to
    {
      assert Live(current[c[k]], emitted);
    }
  }

  lemma StuckMeansBlocked(n: nat, edges: seq<WeightedEdge>, current: seq<WeightedEdge>, emitted: seq<bool>,
                          indegree: seq<int>, order: seq<nat>, removals: seq<Removal>)
    requires Progress(n, edges, current, emitted, indegree, order, removals)
    requires forall v | 0 <= v < n :: emitted[v] || indegree[v] != 0
    ensures forall v: nat | v < n && !emitted[v] :: Blocked(current, emitted, v)
    ensures forall v: nat | v < n && v !in order ::
      exists k | 0 <= k < |edges| :: edges[k].to == v && edges[k].from !in order && !Removed(removals, k)
  {
    forall v: nat | v < n && !emitted[v]
      ensures Blocked(current, emitted, v)
      ensures exists k | 0 <= k < |edges| :: edges[k].to == v && edges[k].from !in order && !Removed(removals, k)
    {
      NothingPending(current, emitted, v, |current|);
      var k :| 0 <= k < |current| && current[k].active && current[k].to == v && !emitted[current[k].from];
      assert Live(current[k], emitted);
      assert edges[k].to == v && edges[k].from !in order && !Removed(removals, k);
    }
  }

  ghost function ActiveCount(edges: seq<WeightedEdge>): nat {
    if edges == [] then 0 else (if edges[0].active then 1 else 0) + ActiveCount(edges[1..])
  }

  lemma {:induction false} DeactivationLowersActiveCount(edges: seq<WeightedEdge>, edge: nat)
    requires edge < |edges| && edges[edge].active
    ensures ActiveCount(edges[edge := edges[edge].(active := false)]) < ActiveCount(edges)
  {
    var lowered := edges[edge := edges[edge].(active := false)];
    if edge == 0 {
      assert lowered[1..] == edges[1..];
    } else {
      DeactivationLowersActiveCount(edges[1..], edge - 1);
      assert lowered[1..] == edges[1..][edge - 1 := edges[edge].(active := false)];
    }
  }

  lemma RemovedExtends(removals: seq<Removal>, r: Removal)
    ensures forall k: nat :: Removed(removals + [r], k) <==> Removed(removals, k) || k == r.edge
  {
    var more := removals + [r];
    assert more[|removals|] == r;
    forall k: nat | Removed(removals, k)
      ensures Removed(more, k)
    {
      var t :| 0 <= t < |removals| && removals[t].edge == k;
      assert more[t].edge == k;
    }
  }

  lemma DeactivationCounted(current: seq<WeightedEdge>, emitted: seq<bool>, indegree: seq<int>, weakest: nat)
    requires Counted(current, emitted, indegree)
    requires weakest < |current| && Live(current[weakest], emitted)
    ensures Counted(current[weakest := current[weakest].(active := false)], emitted,
                    indegree[current[weakest].to := indegree[current[weakest].to] - 1])
  {
    forall v: nat | v < |emitted| && !emitted[v] {
      PendingAfterDeactivation(current, emitted, v, |current|, weakest);
    }
  }

  lemma DeactivateKeepsProgress(n: nat, edges: seq<WeightedEdge>, current: seq<WeightedEdge>, emitted: seq<bool>,
                                indegree: seq<int>, order: seq<nat>, removals: seq<Removal>, weakest: nat)
    requires Progress(n, edges, current, emitted, indegree, order, removals)
    requires weakest < |current| && Live(current[weakest], emitted)
    ensures Progress(n, edges, current[weakest := current[weakest].(active := false)], emitted,
                     indegree[current[weakest].to := indegree[current[weakest].to] - 1], order,
                     removals + [Removal(weakest, |order|)])
  {
    DeactivationCounted(current, emitted, indegree, weakest);
    RemovedExtends(removals, Removal(weakest, |order|));
  }

  /** Later sacrifices do not change which elements were ready at earlier positions. */
  lemma ReadyAtEarlierPosition(edges: seq<WeightedEdge>, order: seq<nat>, removals: seq<Removal>, r: Removal, v: nat, p: nat)
    requires p < r.at && p <= |order| && ReadyAt(edges, order, removals + [r], v, p)
    ensures ReadyAt(edges, order, removals, v, p)
  {
    var more := removals + [r];
    forall k | 0 <= k < |edges| && edges[k].to == v && edges[k].from !in order[..p]
      ensures exists t | 0 <= t < |removals| :: removals[t].edge == k && removals[t].at <= p
    {
      var t :| 0 <= t < |more| && more[t].edge == k && more[t].at <= p;
      assert t < |removals| && removals[t].edge == k && removals[t].at <= p;
    }
  }

  lemma SacrificeKeepsGreedy(elements: seq<PageElement>, ranges: seq<ColumnRange>, columnCount: nat,
                             edges: seq<WeightedEdge>, order: seq<nat>, removals: seq<Removal>, weakest: nat)
    requires |elements| == |ranges| && forall i | 0 <= i < |order| :: order[i] < |elements|
    requires Greedy(elements, ranges, columnCount, edges, order, removals)
    ensures Greedy(elements, ranges, columnCount, edges, order, removals + [Removal(weakest, |order|)])
  {
    var r := Removal(weakest, |order|);
    forall p, v: nat | 0 <= p < |order| && v < |elements| && v !in order[..p] && ReadyAt(edges, order, removals + [r], v, p)
      ensures !ComesBefore(elements, ranges, columnCount, v, order[p])
    {
      ReadyAtEarlierPosition(edges, order, removals, r, v, p);
    }
  }

  lemma StuckAtStays(n: nat, edges: seq<WeightedEdge>, order: seq<nat>, removals: seq<Removal>,
                     order': seq<nat>, removals': seq<Removal>, t: nat)
    requires t < |removals| && order <= order' && removals <= removals'
    requires StuckAt(n, edges, order, removals, t)
    ensures StuckAt(n, edges, order', removals', t)
  {
    assert order'[..removals[t].at] == order[..removals[t].at];
    assert removals'[..t] == removals[..t];
  }

  /** A ready element has all its remaining predecessors emitted. */
  lemma ReadyMeansSatisfied(n: nat, edges: seq<WeightedEdge>, current: seq<WeightedEdge>, emitted: seq<bool>,
                            indegree: seq<int>, order: seq<nat>, removals: seq<Removal>, v: nat)
    requires Progress(n, edges, current, emitted, indegree, order, removals)
    requires v < n && !emitted[v]
    ensures indegree[v] == 0 ==>
      forall k | 0 <= k < |edges| && edges[k].to == v && !Removed(removals, k) :: edges[k].from in order
    ensures ReadyAt(edges, order, removals, v, |order|) ==> indegree[v] == 0
  {
    assert order[..|order|] == order;
    NothingPending(current, emitted, v, |current|);
    forall k | 0 <= k < |edges| && edges[k].to == v
      ensures current[k].active && current[k].to == v && !emitted[current[k].from] <==>
              !Removed(removals, k) && edges[k].from !in order
    {
    }
  }

  lemma EmissionKeepsOrder(elements: seq<PageElement>, ranges: seq<ColumnRange>, columnCount: nat,
                           edges: seq<WeightedEdge>, current: seq<WeightedEdge>, emitted: seq<bool>,
                           indegree: seq<int>, order: seq<nat>, removals: seq<Removal>, next: nat)
    requires |elements| == |ranges|
    requires Progress(|elements|, edges, current, emitted, indegree, order, removals)
    requires next < |elements| && !emitted[next] && indegree[next] == 0
    requires forall v: nat | v < |elements| && !emitted[v] && indegree[v] == 0 ::
      !ComesBefore(elements, ranges, columnCount, v, next)
    requires Respects(edges, order, removals) && Greedy(elements, ranges, columnCount, edges, order, removals)
    ensures Respects(edges, order + [next], removals)
    ensures Greedy(elements, ranges, columnCount, edges, order + [next], removals)
  {
    var longer := order + [next];
    forall j, k | 0 <= j < |longer| && 0 <= k < |edges| && edges[k].to == longer[j] && !Removed(removals, k)
      ensures edges[k].from in longer[..j]
    {
      assert longer[..j] == order[..j];
      if j == |order| {
        ReadyMeansSatisfied(|elements|, edges, current, emitted, indegree, order, removals, next);
        assert order[..j] == order;
      }
    }
    forall p, v: nat | 0 <= p < |longer| && v < |elements| && v !in longer[..p] && ReadyAt(edges, longer, removals, v, p)
      ensures !ComesBefore(elements, ranges, columnCount, v, longer[p])
    {
      assert longer[..p] == order[..p];
      assert ReadyAt(edges, order, removals, v, p);
      if p == |order| {
        assert order[..p] == order;
        ReadyMeansSatisfied(|elements|, edges, current, emitted, indegree, order, removals, v);
      }
    }
  }

  /** Releases the elements that the emitted element was blocking. */
  method Release(edges: seq<WeightedEdge>, emitted: seq<bool>, indegree: seq<int>, next: nat)
    returns (released: seq<int>)
    requires |emitted| == |indegree| && ValidEdges(edges, |emitted|)
    ensures |released| == |emitted|
    ensures forall v: nat | v < |emitted| && !emitted[v] :: released[v] == indegree[v] - OutOf(edges, next, v, |edges|)
  {
    released := indegree;
    for k := 0 to |edges|
      invariant |released| == |emitted|
      invariant forall v: nat | v < |emitted| && !emitted[v] :: released[v] == indegree[v] - OutOf(edges, next, v, k)
    {
      if edges[k].active && edges[k].from == next && !emitted[edges[k].to] {
        released := released[edges[k].to := released[edges[k].to] - 1];
      }
    }
  }

  lemma EmissionCounted(current: seq<WeightedEdge>, emitted: seq<bool>, indegree: seq<int>, next: nat, released: seq<int>)
    requires Counted(current, emitted, indegree)
    requires next < |emitted| && !emitted[next] && |released| == |emitted|
    requires forall v: nat | v < |emitted| && !emitted[next := true][v] ::
      released[v] == indegree[v] - OutOf(current, next, v, |current|)
    ensures Counted(current, emitted[next := true], released)
  {
    forall v: nat | v < |emitted| && !emitted[next := true][v]
      ensures released[v] == Pending(current, emitted[next := true], v, |current|)
    {
      PendingAfterEmission(current, emitted, v, |current|, next);
    }
  }

  lemma EmissionKeepsProgress(n: nat, edges: seq<WeightedEdge>, current: seq<WeightedEdge>, emitted: seq<bool>,
                              indegree: seq<int>, order: seq<nat>, removals: seq<Removal>, next: nat, released: seq<int>)
    requires Progress(n, edges, current, emitted, indegree, order, removals)
    requires next < n && !emitted[next] && |released| == n
    requires forall v: nat | v < n && !emitted[next := true][v] ::
      released[v] == indegree[v] - OutOf(current, next, v, |current|)
    ensures Progress(n, edges, current, emitted[next := true], released, order + [next], removals)
  {
    EmissionCounted(current, emitted, indegree, next, released);
    assert Emitted(n, emitted[next := true], order + [next]);
  }

  /** Everything the caller may rely on, true of the order built so far. */
  ghost predicate Explained(elements: seq<PageElement>, ranges: seq<ColumnRange>, columnCount: nat,
                            edges: seq<WeightedEdge>, order: seq<nat>, removals: seq<Removal>, breaks: seq<CycleBreak>)
    requires |elements| == |ranges| && ValidEdges(edges, |elements|)
    requires forall i | 0 <= i < |order| :: order[i] < |elements|
  {
    && Respects(edges, order, removals)
    && Greedy(elements, ranges, columnCount, edges, order, removals)
    && Recorded(elements, edges, removals, breaks)
    && Justified(|elements|, edges, removals)
    && forall t | 0 <= t < |removals| :: StuckAt(|elements|, edges, order, removals, t)
  }

  lemma SacrificeKeepsExplained(elements: seq<PageElement>, ranges: seq<ColumnRange>, columnCount: nat,
                                edges: seq<WeightedEdge>, current: seq<WeightedEdge>, emitted: seq<bool>,
                                indegree: seq<int>, order: seq<nat>, removals: seq<Removal>, breaks: seq<CycleBreak>,
                                c: seq<nat>, weakest: nat)
    requires |elements| == |ranges| && AllActive(edges)
    requires Progress(|elements|, edges, current, emitted, indegree, order, removals)
    requires Explained(elements, ranges, columnCount, edges, order, removals, breaks)
    requires forall v | 0 <= v < |elements| :: emitted[v] || indegree[v] != 0
    requires IsCycle(current, emitted, c) && weakest in c
    requires forall k | 0 <= k < |c| :: !WeakerEdge(current[c[k]], current[weakest])
    ensures Explained(elements, ranges, columnCount, edges, order, removals + [Removal(weakest, |order|)],
                      breaks + [BreakOf(elements, current[weakest])])
  {
    var n, r := |elements|, Removal(weakest, |order|);
    assert Live(current[weakest], emitted) && !Removed(removals, weakest);
    assert current[weakest] == edges[weakest];
    RemovedExtends(removals, r);
    SacrificeKeepsGreedy(elements, ranges, columnCount, edges, order, removals, weakest);
    CurrentCycleIsOriginal(n, edges, current, emitted, indegree, order, removals, c, weakest);
    assert Sacrificed(n, edges, weakest);
    SacrificeKeepsRecord(elements, edges, removals, breaks, r);
    SacrificeKeepsStuck(n, edges, current, emitted, indegree, order, removals, r);
  }

  lemma SacrificeKeepsStuck(n: nat, edges: seq<WeightedEdge>, current: seq<WeightedEdge>, emitted: seq<bool>,
                            indegree: seq<int>, order: seq<nat>, removals: seq<Removal>, r: Removal)
    requires Progress(n, edges, current, emitted, indegree, order, removals) && r.at == |order|
    requires forall v | 0 <= v < n :: emitted[v] || indegree[v] != 0
    requires forall t | 0 <= t < |removals| :: StuckAt(n, edges, order, removals, t)
    ensures forall t | 0 <= t < |removals + [r]| :: StuckAt(n, edges, order, removals + [r], t)
  {
    forall t | 0 <= t < |removals + [r]|
      ensures StuckAt(n, edges, order, removals + [r], t)
    {
      if t < |removals| {
        StuckAtStays(n, edges, order, removals, order, removals + [r], t);
      } else {
        StuckNow(n, edges, current, emitted, indegree, order, removals, r);
      }
    }
  }

  lemma SacrificeKeepsRecord(elements: seq<PageElement>, edges: seq<WeightedEdge>, removals: seq<Removal>,
                             breaks: seq<CycleBreak>, r: Removal)
    requires ValidEdges(edges, |elements|) && Recorded(elements, edges, removals, breaks)
    requires r.edge < |edges| && !Removed(removals, r.edge)
    ensures Recorded(elements, edges, removals + [r], breaks + [BreakOf(elements, edges[r.edge])])
  {
    forall t | 0 <= t < |removals| ensures removals[t].edge != r.edge {}
  }

  lemma StuckNow(n: nat, edges: seq<WeightedEdge>, current: seq<WeightedEdge>, emitted: seq<bool>,
                 indegree: seq<int>, order: seq<nat>, removals: seq<Removal>, r: Removal)
    requires Progress(n, edges, current, emitted, indegree, order, removals) && r.at == |order|
    requires forall v | 0 <= v < n :: emitted[v] || indegree[v] != 0
    ensures StuckAt(n, edges, order, removals + [r], |removals|)
  {
    StuckMeansBlocked(n, edges, current, emitted, indegree, order, removals);
    assert order[..|order|] == order && (removals + [r])[..|removals|] == removals;
  }

  lemma EmissionKeepsExplained(elements: seq<PageElement>, ranges: seq<ColumnRange>, columnCount: nat,
                               edges: seq<WeightedEdge>, current: seq<WeightedEdge>, emitted: seq<bool>,
                               indegree: seq<int>, order: seq<nat>, removals: seq<Removal>, breaks: seq<CycleBreak>,
                               next: nat)
    requires |elements| == |ranges|
    requires Progress(|elements|, edges, current, emitted, indegree, order, removals)
    requires next < |elements| && !emitted[next] && indegree[next] == 0
    requires forall v: nat | v < |elements| && !emitted[v] && indegree[v] == 0 ::
      !ComesBefore(elements, ranges, columnCount, v, next)
    requires Explained(elements, ranges, columnCount, edges, order, removals, breaks)
    ensures Explained(elements, ranges, columnCount, edges, order + [next], removals, breaks)
  {
    EmissionKeepsOrder(elements, ranges, columnCount, edges, current, emitted, indegree, order, removals, next);
    forall t | 0 <= t < |removals| {
      StuckAtStays(|elements|, edges, order, removals, order + [next], removals, t);
    }
  }

  /** With every remaining element blocked there is a cycle, hence an edge to give up. */
  method WeakestCycleEdge(edges: seq<WeightedEdge>, emitted: seq<bool>) returns (weakest: nat, ghost cycle: seq<nat>)
    requires ValidEdges(edges, |emitted|)
    requires exists v: nat :: v < |emitted| && !emitted[v]
    requires forall v: nat | v < |emitted| && !emitted[v] :: Blocked(edges, emitted, v)
    ensures weakest < |edges| && Live(edges[weakest], emitted)
    ensures IsCycle(edges, emitted, cycle) && weakest in cycle
    ensures forall k | 0 <= k < |cycle| :: !WeakerEdge(edges[cycle[k]], edges[weakest])
  {
    var found := FindCycleEdges(edges, emitted);
    if found == [] {
      assert false;  // the "emit anything" fallback: a blocked graph always has a cycle
    }
    cycle := found;
    weakest := WeakestEdge(edges, found);
  }

  lemma StuckIsBlocked(n: nat, edges: seq<WeightedEdge>, current: seq<WeightedEdge>, emitted: seq<bool>,
                       indegree: seq<int>, order: seq<nat>, removals: seq<Removal>)
    requires Progress(n, edges, current, emitted, indegree, order, removals) && |order| < n
    requires forall v | 0 <= v < n :: emitted[v] || indegree[v] != 0
    ensures ValidEdges(current, |emitted|)
    ensures exists v: nat :: v < |emitted| && !emitted[v]
    ensures forall v: nat | v < |emitted| && !emitted[v] :: Blocked(current, emitted, v)
  {
    StuckMeansBlocked(n, edges, current, emitted, indegree, order, removals);
    IndexLeft(n, order);
  }

  /** Deactivates the weakest edge of a cycle; the ghost results say which edge and which cycle. */
  method BreakCycle(n: nat, ghost edges: seq<WeightedEdge>, current: seq<WeightedEdge>, emitted: seq<bool>,
                    indegree: seq<int>, ghost order: seq<nat>, ghost removals: seq<Removal>)
    returns (weakest: nat, current': seq<WeightedEdge>, indegree': seq<int>, ghost cycle: seq<nat>)
    requires Progress(n, edges, current, emitted, indegree, order, removals) && |order| < n
    requires forall v | 0 <= v < n :: emitted[v] || indegree[v] != 0
    ensures weakest < |current| && IsCycle(current, emitted, cycle) && weakest in cycle
    ensures forall k | 0 <= k < |cycle| :: !WeakerEdge(current[cycle[k]], current[weakest])
    ensures Progress(n, edges, current', emitted, indegree', order, removals + [Removal(weakest, |order|)])
    ensures ActiveCount(current') < ActiveCount(current)
  {
    StuckIsBlocked(n, edges, current, emitted, indegree, order, removals);
    weakest, cycle := WeakestCycleEdge(current, emitted);
    DeactivateKeepsProgress(n, edges, current, emitted, indegree, order, removals, weakest);
    DeactivationLowersActiveCount(current, weakest);
    var edge := current[weakest];
    current' := current[weakest := edge.(active := false)];
    indegree' := indegree[edge.to := indegree[edge.to] - 1];
  }

  method StableTopologicalOrder(elements: seq<PageElement>, ranges: seq<ColumnRange>, columnCount: nat,
                                edges: seq<WeightedEdge>)
    returns (order: seq<nat>, breaks: seq<CycleBreak>, ghost removals: seq<Removal>)
    requires |elements| == |ranges| && ValidEdges(edges, |elements|) && AllActive(edges)
    ensures IsPermutation(order, |elements|)
    ensures Explained(elements, ranges, columnCount, edges, order, removals, breaks)
  {
    var n := |elements|;
    var current := edges;
    var indegree := IncomingCounts(n, edges);
    var emitted := seq(n, _ => false);
    order, breaks, removals := [], [], [];
    while |order| < n
      invariant Progress(n, edges, current, emitted, indegree, order, removals)
      invariant |order| <= n
      invariant Explained(elements, ranges, columnCount, edges, order, removals, breaks)
      decreases n - |order|, ActiveCount(current)
    {
      var next := SelectReady(elements, ranges, columnCount, emitted, indegree);
      if next < 0 {
        ghost var cycle;
        var weakest, current', indegree';
        weakest, current', indegree', cycle := BreakCycle(n, edges, current, emitted, indegree, order, removals);
        SacrificeKeepsExplained(elements, ranges, columnCount, edges, current, emitted, indegree, order, removals,
                                breaks, cycle, weakest);
        breaks := breaks + [BreakOf(elements, current[weakest])];
        current, indegree := current', indegree';
        removals := removals + [Removal(weakest, |order|)];
      } else {
        EmissionKeepsExplained(elements, ranges, columnCount, edges, current, emitted, indegree, order, removals, breaks, next);
        var released := Release(current, emitted[next := true], indegree, next);
        EmissionKeepsProgress(n, edges, current, emitted, indegree, order, removals, next, released);
        emitted := emitted[next := true];
        indegree := released;
        order := order + [next];
        DistinctFits(order, n);
      }
    }
  }
}
