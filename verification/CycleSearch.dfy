/**
  The depth-first search for a cycle among the elements not yet emitted.
  A search that fails leaves a finishing order, which exhibits an element
  without incoming live edges; hence a search over elements that are all
  blocked always succeeds.
 */
module CycleSearch {
  import opened ReadingOrderModel
  import opened Sequences

  ghost predicate ValidEdges(edges: seq<WeightedEdge>, n: nat) {
    forall i | 0 <= i < |edges| :: edges[i].from < n && edges[i].to < n
  }

  /** An edge that still constrains the order: active, with neither end emitted. */
  ghost predicate Live(e: WeightedEdge, emitted: seq<bool>) {
    e.from < |emitted| && e.to < |emitted| && e.active && !emitted[e.from] && !emitted[e.to]
  }

  /** Edge indices listed backwards along a closed walk of live edges. */
  ghost predicate IsCycle(edges: seq<WeightedEdge>, emitted: seq<bool>, c: seq<nat>) {
    && c != []
    && (forall k | 0 <= k < |c| :: c[k] < |edges| && Live(edges[c[k]], emitted))
    && (forall k | 0 <= k < |c| - 1 :: edges[c[k]].from == edges[c[k + 1]].to)
    && edges[c[|c| - 1]].from == edges[c[0]].to
  }

  /** Every live edge out of a finished element leads to one finished earlier. */
  ghost predicate FinishedInOrder(edges: seq<WeightedEdge>, emitted: seq<bool>, done: seq<nat>) {
    forall i, k | 0 <= i < |done| && 0 <= k < |edges| && Live(edges[k], emitted) && edges[k].from == done[i] ::
      edges[k].to in done[..i]
  }

  ghost predicate Blocked(edges: seq<WeightedEdge>, emitted: seq<bool>, v: nat) {
    exists k | 0 <= k < |edges| :: Live(edges[k], emitted) && edges[k].to == v
  }

  lemma LastFinishedIsUnblocked(edges: seq<WeightedEdge>, emitted: seq<bool>, done: seq<nat>)
    requires done != [] && FinishedInOrder(edges, emitted, done)
    requires forall i, j | 0 <= i < j < |done| :: done[i] != done[j]
    requires forall v | 0 <= v < |emitted| && !emitted[v] :: v in done
    ensures !Blocked(edges, emitted, done[|done| - 1])
  {
    var last := done[|done| - 1];
    forall k | 0 <= k < |edges| && Live(edges[k], emitted)
      ensures edges[k].to != last
    {
      var i :| 0 <= i < |done| && done[i] == edges[k].from;
      assert edges[k].to in done[..i];
    }
  }

  /** The element at position i of the path was entered through its parent edge. */
  ghost predicate Linked(edges: seq<WeightedEdge>, emitted: seq<bool>, parentEdge: seq<int>, from: nat, to: nat) {
    && to < |parentEdge|
    && var e := parentEdge[to];
    0 <= e < |edges| && Live(edges[e], emitted) && edges[e].from == from && edges[e].to == to
  }

  ghost predicate PathLinked(edges: seq<WeightedEdge>, emitted: seq<bool>, parentEdge: seq<int>, stack: seq<nat>) {
    forall i | 0 < i < |stack| :: Linked(edges, emitted, parentEdge, stack[i - 1], stack[i])
  }

  /** The elements of `s` are exactly the ones marked `mark`, none of them emitted. */
  ghost predicate Marks(state: seq<int>, emitted: seq<bool>, mark: int, s: seq<nat>)
    requires |state| == |emitted|
  {
    && Distinct(s)
    && (forall i | 0 <= i < |s| :: s[i] < |state| && state[s[i]] == mark && !emitted[s[i]])
    && (forall v | 0 <= v < |state| && state[v] == mark :: v in s)
  }

  ghost predicate Invariant(edges: seq<WeightedEdge>, emitted: seq<bool>, state: seq<int>, parentEdge: seq<int>,
                            stack: seq<nat>, done: seq<nat>)
  {
    && |state| == |parentEdge| == |emitted|
    && (forall v | 0 <= v < |state| :: 0 <= state[v] <= 2)
    && Marks(state, emitted, 1, stack)
    && Marks(state, emitted, 2, done)
    && PathLinked(edges, emitted, parentEdge, stack)
    && FinishedInOrder(edges, emitted, done)
  }

  ghost function Unvisited(state: seq<int>): set<nat> {
    set v: nat | v < |state| && state[v] == 0
  }

  lemma EnterKeepsInvariant(edges: seq<WeightedEdge>, emitted: seq<bool>, state: seq<int>, parentEdge: seq<int>,
                            stack: seq<nat>, done: seq<nat>, node: nat)
    requires Invariant(edges, emitted, state, parentEdge, stack, done)
    requires node < |state| && state[node] == 0 && !emitted[node]
    requires stack != [] ==> Linked(edges, emitted, parentEdge, stack[|stack| - 1], node)
    ensures Invariant(edges, emitted, state[node := 1], parentEdge, stack + [node], done)
    ensures Unvisited(state[node := 1]) < Unvisited(state)
  {
    assert node in Unvisited(state) && node !in Unvisited(state[node := 1]);
  }

  lemma FinishKeepsInvariant(edges: seq<WeightedEdge>, emitted: seq<bool>, state: seq<int>, parentEdge: seq<int>,
                             stack: seq<nat>, done: seq<nat>, node: nat)
    requires Invariant(edges, emitted, state, parentEdge, stack + [node], done)
    requires forall k | 0 <= k < |edges| && Live(edges[k], emitted) && edges[k].from == node :: edges[k].to in done
    ensures node < |state| && state[node] == 1
    ensures Invariant(edges, emitted, state[node := 2], parentEdge, stack, done + [node])
  {
    var path, extended := stack + [node], done + [node];
    assert path[|stack|] == node && path[..|stack|] == stack;
    forall i | 0 < i < |stack|
      ensures Linked(edges, emitted, parentEdge, stack[i - 1], stack[i])
    {
      assert path[i - 1] == stack[i - 1] && path[i] == stack[i];
    }
    assert Distinct(stack) by {
      forall i, j | 0 <= i < j < |stack| ensures stack[i] != stack[j] { assert path[i] != path[j]; }
    }
    forall v | 0 <= v < |state| && state[node := 2][v] == 1 ensures v in stack { assert v in path; }
    forall i | 0 <= i < |stack| ensures stack[i] != node { assert path[i] != path[|stack|]; }
    forall i, k | 0 <= i < |extended| && 0 <= k < |edges| && Live(edges[k], emitted) && edges[k].from == extended[i]
      ensures edges[k].to in extended[..i]
    {
      if i < |done| {
        assert extended[..i] == done[..i];
      } else {
        assert extended[..i] == done;
      }
    }
  }

  class Search {
    const edges: seq<WeightedEdge>
    const emitted: seq<bool>
    var state: seq<int>        // 0 unvisited, 1 on the current path, 2 finished
    var parentEdge: seq<int>
    var cycle: seq<nat>
    ghost var stack: seq<nat>  // the current path
    ghost var done: seq<nat>   // finished elements in finishing order

    ghost predicate Valid()
      reads this
    {
      ValidEdges(edges, |emitted|) && Invariant(edges, emitted, state, parentEdge, stack, done)
    }

    constructor (edges: seq<WeightedEdge>, emitted: seq<bool>)
      requires ValidEdges(edges, |emitted|)
      ensures this.edges == edges && this.emitted == emitted
      ensures Valid() && stack == [] && cycle == []
    {
      this.edges, this.emitted := edges, emitted;
      state := seq(|emitted|, _ => 0);
      parentEdge := seq(|emitted|, _ => -1);
      cycle, stack, done := [], [], [];
    }

    /** Walks the current path down from its top to the target of the closing edge. */
    method CloseCycle(node: nat, closing: nat)
      requires Valid() && stack != [] && stack[|stack| - 1] == node
      requires closing < |edges| && Live(edges[closing], emitted) && edges[closing].from == node
      requires edges[closing].to in stack
      requires cycle == []
      modifies this`cycle
      ensures IsCycle(edges, emitted, cycle)
    {
      var target := edges[closing].to;
      cycle := [closing];
      var current := node;
      ghost var depth := |stack| - 1;
      ghost var p :| 0 <= p < |stack| && stack[p] == target;
      while current != target
        invariant p <= depth < |stack| && stack[depth] == current
        invariant cycle != [] && cycle[0] == closing
        invariant forall k | 0 <= k < |cycle| :: cycle[k] < |edges| && Live(edges[cycle[k]], emitted)
        invariant forall k | 0 <= k < |cycle| - 1 :: edges[cycle[k]].from == edges[cycle[k + 1]].to
        invariant edges[cycle[|cycle| - 1]].from == current
        decreases depth
      {
        assert Linked(edges, emitted, parentEdge, stack[depth - 1], stack[depth]);
        var incoming := parentEdge[current];
        if incoming < 0 {
          assert false;  // the give-up branch: the path never runs out before the target
        }
        cycle := cycle + [incoming];
        current := edges[incoming].from;
        depth := depth - 1;
      }
    }

    method Visit(node: nat) returns (found: bool)
      requires Valid() && node < |state| && state[node] == 0 && !emitted[node] && cycle == []
      requires stack != [] ==> Linked(edges, emitted, parentEdge, stack[|stack| - 1], node)
      modifies this
      ensures found ==> IsCycle(edges, emitted, cycle)
      ensures !found ==> Valid() && cycle == [] && stack == old(stack) && node in done
      ensures !found ==> forall v | v in old(done) :: v in done
      ensures !found ==> Unvisited(state) < old(Unvisited(state))
      decreases Unvisited(state)
    {
      EnterKeepsInvariant(edges, emitted, state, parentEdge, stack, done, node);
      state := state[node := 1];
      stack := stack + [node];
      var edgeIndex := 0;
      while edgeIndex < |edges|
        invariant 0 <= edgeIndex <= |edges|
        invariant Valid() && cycle == [] && stack == old(stack) + [node]
        invariant forall v | v in old(done) :: v in done
        invariant Unvisited(state) < old(Unvisited(state))
        invariant forall k | 0 <= k < edgeIndex && Live(edges[k], emitted) && edges[k].from == node :: edges[k].to in done
      {
        var edge := edges[edgeIndex];
        assert stack[|stack| - 1] == node;
        if edge.active && edge.from == node && !emitted[edge.to] {
          assert Live(edge, emitted);
          if state[edge.to] == 0 {
            SetParentKeepsPath(edge.to, edgeIndex);
            parentEdge := parentEdge[edge.to := edgeIndex];
            var inner := Visit(edge.to);
            if inner {
              return true;
            }
          } else if state[edge.to] == 1 {
            CloseCycle(node, edgeIndex);
            return true;
          }
        }
        edgeIndex := edgeIndex + 1;
      }
      FinishKeepsInvariant(edges, emitted, state, parentEdge, old(stack), done, node);
      state := state[node := 2];
      stack := old(stack);
      done := done + [node];
      return false;
    }

    lemma SetParentKeepsPath(v: nat, edge: nat)
      requires Valid() && v < |state| && state[v] == 0
      ensures PathLinked(edges, emitted, parentEdge[v := edge], stack)
    {
      forall i | 0 < i < |stack|
        ensures Linked(edges, emitted, parentEdge[v := edge], stack[i - 1], stack[i])
      {
        assert Linked(edges, emitted, parentEdge, stack[i - 1], stack[i]);
      }
    }
  }

  /**
    Every element is blocked, so the search returns a genuine cycle; it is empty
    only when there is nothing left to emit.
   */
  method FindCycleEdges(edges: seq<WeightedEdge>, emitted: seq<bool>) returns (cycle: seq<nat>)
    requires ValidEdges(edges, |emitted|)
    ensures cycle != [] ==> IsCycle(edges, emitted, cycle)
    ensures cycle == [] ==> (forall v | 0 <= v < |emitted| :: emitted[v]) ||
                            exists v: nat | v < |emitted| && !emitted[v] :: !Blocked(edges, emitted, v)
  {
    var search := new Search(edges, emitted);
    var node := 0;
    while node < |emitted|
      invariant 0 <= node <= |emitted|
      invariant search.Valid() && search.stack == [] && search.cycle == []
      invariant search.edges == edges && search.emitted == emitted && fresh(search)
      invariant forall v: nat | v < node && !emitted[v] :: v in search.done
    {
      if !emitted[node] && search.state[node] == 0 {
        var found := search.Visit(node);
        if found {
          return search.cycle;
        }
      }
      node := node + 1;
    }
    if exists v: nat :: v < |emitted| && !emitted[v] {
      ghost var v: nat :| v < |emitted| && !emitted[v];
      LastFinishedIsUnblocked(edges, emitted, search.done);
    }
    return [];
  }
}
