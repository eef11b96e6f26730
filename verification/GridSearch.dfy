/**
  The search for small groups that form a grid: connected components of neighbouring
  groups, and the first of them that is large and aligned enough.
 */
module GridSearch {
  import opened Sequences
  import opened Sorting
  import opened LineGroups
  import opened GridGeometry

  // ---- what is looked for ----

  predicate IsCandidate(g: Group, rules: GridRules) { !g.grid && |g.lines| <= 3 && rules.compact(g) }

  /** Two candidates, one a neighbour of the other. */
  predicate Touch(groups: seq<Group>, rules: GridRules, i: nat, j: nat) {
    && i < |groups| && j < |groups| && IsCandidate(groups[i], rules) && IsCandidate(groups[j], rules)
    && rules.neighbours(groups[i], groups[j])
  }

  /** Candidates, with all that touch them. */
  ghost predicate Closed(groups: seq<Group>, rules: GridRules, members: set<nat>) {
    && (forall i | i in members :: i < |groups| && IsCandidate(groups[i], rules))
    && forall i: nat, j: nat | i in members && Touch(groups, rules, i, j) :: j in members
  }

  ghost predicate Connected(groups: seq<Group>, rules: GridRules, members: set<nat>) {
    forall part: set<nat> | part != {} && part <= members && Closed(groups, rules, part) :: part == members
  }

  /** A connected component of the candidates, in any order. */
  ghost predicate IsComponent(groups: seq<Group>, rules: GridRules, component: seq<nat>) {
    && component != [] && Distinct(component) && InRange(component, |groups|)
    && Closed(groups, rules, Elements(component)) && Connected(groups, rules, Elements(component))
  }

  ghost predicate IsGrid(groups: seq<Group>, rules: GridRules, selected: seq<nat>) {
    IsComponent(groups, rules, selected) && |selected| >= 6 && Aligned(groups, selected, rules)
  }

  ghost predicate NoGrid(groups: seq<Group>, rules: GridRules) {
    forall component: seq<nat> :: !IsGrid(groups, rules, component)
  }

  /** No grid has a group before the first of this one. */
  ghost predicate IsEarliest(groups: seq<Group>, rules: GridRules, selected: seq<nat>)
    requires selected != []
  {
    forall component: seq<nat>, i | IsGrid(groups, rules, component) && i in component :: selected[0] <= i
  }

  ghost predicate InNoGrid(groups: seq<Group>, rules: GridRules, i: nat) {
    forall component: seq<nat> | IsGrid(groups, rules, component) :: i !in component
  }

  // ---- components ----

  lemma TouchIsSymmetric(groups: seq<Group>, rules: GridRules, i: nat, j: nat)
    requires AllProper(groups) && Symmetric(rules) && Touch(groups, rules, i, j)
    ensures Touch(groups, rules, j, i)
  {
  }

  lemma SharedPartIsClosed(groups: seq<Group>, rules: GridRules, a: set<nat>, b: set<nat>)
    requires Closed(groups, rules, a) && Closed(groups, rules, b)
    ensures Closed(groups, rules, a * b)
  {
  }

  /** Two components that share a group are the same. */
  lemma ComponentsMeet(groups: seq<Group>, rules: GridRules, a: seq<nat>, b: seq<nat>, i: nat)
    requires IsComponent(groups, rules, a) && IsComponent(groups, rules, b) && i in a && i in b
    ensures multiset(a) == multiset(b)
  {
    SharedPartIsClosed(groups, rules, Elements(a), Elements(b));
    var both := Elements(a) * Elements(b);
    assert i in both && both <= Elements(a) && both <= Elements(b);
    assert both == Elements(a) && both == Elements(b);
    assert forall x :: x in a <==> x in Elements(a);
    assert forall x :: x in b <==> x in Elements(b);
    SameMembersSameMultiset(a, b);
  }

  /** A component that is no grid keeps its groups out of every grid. */
  lemma NotInAnotherGrid(groups: seq<Group>, rules: GridRules, component: seq<nat>, i: nat)
    requires IsComponent(groups, rules, component) && !(|component| >= 6 && Aligned(groups, component, rules))
    requires i in component
    ensures InNoGrid(groups, rules, i)
  {
    forall other: seq<nat> | IsGrid(groups, rules, other)
      ensures i !in other
    {
      if i in other {
        ComponentsMeet(groups, rules, component, other, i);
        SameMultisetSameMembers(component, other);
        AlignedInAnyOrder(groups, component, other, rules);
        assert false;
      }
    }
  }

  // ---- the candidates ----

  /** The candidates in index order. */
  ghost predicate AreCandidates(groups: seq<Group>, rules: GridRules, candidates: seq<nat>) {
    && InRange(candidates, |groups|) && (forall i, j | 0 <= i < j < |candidates| :: candidates[i] < candidates[j])
    && forall i: nat | i < |groups| :: i in candidates <==> IsCandidate(groups[i], rules)
  }

  method Candidates(groups: seq<Group>, rules: GridRules) returns (found: seq<nat>)
    ensures AreCandidates(groups, rules, found)
  {
    found := [];
    for i := 0 to |groups|
      invariant InRange(found, i) && forall j, k | 0 <= j < k < |found| :: found[j] < found[k]
      invariant forall k: nat | k < i :: k in found <==> IsCandidate(groups[k], rules)
    {
      if IsCandidate(groups[i], rules) {
        found := found + [i];
      }
    }
  }

  lemma ComponentFits(groups: seq<Group>, rules: GridRules, candidates: seq<nat>, component: seq<nat>)
    requires AreCandidates(groups, rules, candidates) && IsComponent(groups, rules, component)
    ensures |component| <= |candidates|
  {
    var members := Elements(component);
    forall i | i in members
      ensures i in Elements(candidates)
    {
      assert i < |groups| && IsCandidate(groups[i], rules);
    }
    DistinctSize(component);
    DistinctSize(candidates);
    CardinalityOfSubset(members, Elements(candidates));
  }

  /** A grid needs six candidates. */
  lemma TooFewCandidates(groups: seq<Group>, rules: GridRules, candidates: seq<nat>)
    requires AreCandidates(groups, rules, candidates) && |candidates| < 6
    ensures NoGrid(groups, rules)
  {
    forall component: seq<nat>
      ensures !IsGrid(groups, rules, component)
    {
      if IsComponent(groups, rules, component) {
        ComponentFits(groups, rules, candidates, component);
      }
    }
  }

  // ---- exploring from one candidate ----

  /** The source works on positions in the list of candidates. */
  predicate Linked(groups: seq<Group>, candidates: seq<nat>, rules: GridRules, p: nat, q: nat) {
    p < |candidates| && q < |candidates| && Touch(groups, rules, candidates[p], candidates[q])
  }

  /** Every position reached so far has been marked, and nothing else was since the start. */
  ghost predicate Tracks(component: seq<nat>, before: seq<bool>, visited: seq<bool>) {
    && |visited| == |before| && Distinct(component) && InRange(component, |visited|)
    && (forall p: nat | p < |visited| :: visited[p] <==> before[p] || p in component)
    && (forall i | 0 <= i < |component| :: !before[component[i]])
  }

  ghost predicate Explored(groups: seq<Group>, candidates: seq<nat>, rules: GridRules, visited: seq<bool>, p: nat) {
    forall q: nat | q < |visited| && Linked(groups, candidates, rules, p, q) :: visited[q]
  }

  /** Each position after the first was reached from an earlier one. */
  ghost predicate Reaches(groups: seq<Group>, candidates: seq<nat>, rules: GridRules, component: seq<nat>) {
    forall i | 0 < i < |component| :: ReachedFrom(groups, candidates, rules, component[..i], component[i])
  }

  ghost predicate ReachedFrom(groups: seq<Group>, candidates: seq<nat>, rules: GridRules, earlier: seq<nat>, q: nat) {
    exists p | p in earlier :: Linked(groups, candidates, rules, p, q)
  }

  /** The visited positions form whole components. */
  ghost predicate VisitedIsClosed(groups: seq<Group>, candidates: seq<nat>, rules: GridRules, visited: seq<bool>) {
    |visited| == |candidates| &&
    forall p: nat | p < |visited| && visited[p] :: Explored(groups, candidates, rules, visited, p)
  }

  /** What can be reached from one unvisited position, nothing more, past the positions visited before. */
  ghost predicate IsPart(groups: seq<Group>, candidates: seq<nat>, rules: GridRules, before: seq<bool>, part: seq<nat>,
                         after: seq<bool>)
  {
    && Tracks(part, before, after) && part != []
    && Reaches(groups, candidates, rules, part)
    && forall i | 0 <= i < |part| :: Explored(groups, candidates, rules, after, part[i])
  }

  lemma ReachesOneMore(groups: seq<Group>, candidates: seq<nat>, rules: GridRules, component: seq<nat>, p: nat, q: nat)
    requires Reaches(groups, candidates, rules, component) && p in component && Linked(groups, candidates, rules, p, q)
    ensures Reaches(groups, candidates, rules, component + [q])
  {
    var longer := component + [q];
    forall i | 0 < i < |longer|
      ensures ReachedFrom(groups, candidates, rules, longer[..i], longer[i])
    {
      if i < |component| {
        assert longer[..i] == component[..i];
        assert ReachedFrom(groups, candidates, rules, component[..i], component[i]);
      } else {
        assert longer[..i] == component;
      }
    }
  }

  /** One neighbour more: marked, and behind the others. */
  lemma GrowsByOne(groups: seq<Group>, candidates: seq<nat>, rules: GridRules, component: seq<nat>, before: seq<bool>,
                   visited: seq<bool>, p: nat, q: nat)
    requires Tracks(component, before, visited) && q < |visited| && !visited[q]
    requires Reaches(groups, candidates, rules, component) && p in component && Linked(groups, candidates, rules, p, q)
    ensures Tracks(component + [q], before, visited[q := true]) && Reaches(groups, candidates, rules, component + [q])
    ensures StillMarked(visited, visited[q := true])
  {
    TracksOneMore(component, before, visited, q);
    ReachesOneMore(groups, candidates, rules, component, p, q);
  }

  lemma TracksOneMore(component: seq<nat>, before: seq<bool>, visited: seq<bool>, q: nat)
    requires Tracks(component, before, visited) && q < |visited| && !visited[q]
    ensures Tracks(component + [q], before, visited[q := true])
  {
    var longer := component + [q];
    assert forall i | 0 <= i < |component| :: component[i] in component;
    assert Distinct(longer);
    assert forall p :: p in longer <==> p in component || p == q;
  }

  ghost predicate ExploredUpTo(groups: seq<Group>, candidates: seq<nat>, rules: GridRules, visited: seq<bool>, p: nat, n: nat) {
    forall q: nat | q < n && q < |visited| && Linked(groups, candidates, rules, p, q) :: visited[q]
  }

  lemma ExploredFurther(groups: seq<Group>, candidates: seq<nat>, rules: GridRules, before: seq<bool>, after: seq<bool>,
                        p: nat, n: nat)
    requires ExploredUpTo(groups, candidates, rules, before, p, n) && StillMarked(before, after)
    requires n < |after| && (Linked(groups, candidates, rules, p, n) ==> after[n])
    ensures ExploredUpTo(groups, candidates, rules, after, p, n + 1)
  {
  }

  lemma MarkedTransitive(a: seq<bool>, b: seq<bool>, c: seq<bool>)
    requires StillMarked(a, b) && StillMarked(b, c)
    ensures StillMarked(a, c)
  {
  }

  /** Marks and appends every unvisited neighbour of one position. */
  method Extend(groups: seq<Group>, candidates: seq<nat>, rules: GridRules, ghost before: seq<bool>,
                visited: seq<bool>, component: seq<nat>, p: nat)
    returns (marked: seq<bool>, extended: seq<nat>)
    requires |visited| == |candidates| && AreCandidates(groups, rules, candidates) && p < |candidates| && p in component
    requires Tracks(component, before, visited) && Reaches(groups, candidates, rules, component)
    ensures Tracks(extended, before, marked) && component <= extended
    ensures Explored(groups, candidates, rules, marked, p) && Reaches(groups, candidates, rules, extended)
    ensures StillMarked(visited, marked)
  {
    marked, extended := visited, component;
    for q := 0 to |candidates|
      invariant Tracks(extended, before, marked) && component <= extended
      invariant Reaches(groups, candidates, rules, extended)
      invariant ExploredUpTo(groups, candidates, rules, marked, p, q)
      invariant StillMarked(visited, marked)
    {
      ghost var was := marked;
      LinkedIff(groups, candidates, rules, p, q);
      if !marked[q] && rules.neighbours(groups[candidates[p]], groups[candidates[q]]) {
        GrowsByOne(groups, candidates, rules, extended, before, marked, p, q);
        marked, extended := marked[q := true], extended + [q];
        MarkedTransitive(visited, was, marked);
      }
      ExploredFurther(groups, candidates, rules, was, marked, p, q);
    }
  }

  lemma LinkedIff(groups: seq<Group>, candidates: seq<nat>, rules: GridRules, p: nat, q: nat)
    requires AreCandidates(groups, rules, candidates) && p < |candidates| && q < |candidates|
    ensures candidates[p] < |groups| && candidates[q] < |groups|
    ensures Linked(groups, candidates, rules, p, q) <==> rules.neighbours(groups[candidates[p]], groups[candidates[q]])
  {
    assert candidates[p] in candidates && candidates[q] in candidates;
  }

  ghost predicate StillMarked(before: seq<bool>, after: seq<bool>) {
    |before| == |after| && forall q: nat | q < |before| && before[q] :: after[q]
  }

  lemma ExploredStays(groups: seq<Group>, candidates: seq<nat>, rules: GridRules, before: seq<bool>, after: seq<bool>,
                      component: seq<nat>, longer: seq<nat>, n: nat)
    requires n <= |component| && component <= longer && StillMarked(before, after)
    requires forall i | 0 <= i < n :: Explored(groups, candidates, rules, before, component[i])
    ensures forall i | 0 <= i < n :: Explored(groups, candidates, rules, after, longer[i])
  {
    forall i | 0 <= i < n
      ensures Explored(groups, candidates, rules, after, longer[i])
    {
      assert Explored(groups, candidates, rules, before, component[i]);
    }
  }

  /** Breadth-first: the component of one unvisited position, closed under the neighbour relation. */
  method Component(groups: seq<Group>, candidates: seq<nat>, rules: GridRules, visited: seq<bool>, start: nat)
    returns (marked: seq<bool>, component: seq<nat>)
    requires |visited| == |candidates| && AreCandidates(groups, rules, candidates)
    requires start < |visited| && !visited[start]
    ensures IsPart(groups, candidates, rules, visited, component, marked) && component[0] == start
  {
    marked, component := visited[start := true], [start];
    var cursor: nat := 0;
    while cursor < |component|
      invariant cursor <= |component| <= |candidates| && component != [] && component[0] == start
      invariant Tracks(component, visited, marked) && Reaches(groups, candidates, rules, component)
      invariant forall i | 0 <= i < cursor :: Explored(groups, candidates, rules, marked, component[i])
      decreases |candidates| - cursor
    {
      var more, longer := Extend(groups, candidates, rules, visited, marked, component, component[cursor]);
      ExploredStays(groups, candidates, rules, marked, more, component, longer, cursor);
      DistinctFits(longer, |candidates|);
      marked, component, cursor := more, longer, cursor + 1;
    }
  }

  // ---- a part is a component ----

  function IndicesAt(candidates: seq<nat>, positions: seq<nat>): seq<nat>
    requires InRange(positions, |candidates|)
  {
    seq(|positions|, i requires 0 <= i < |positions| => candidates[positions[i]])
  }

  /** Along links, back to the first position. */
  lemma {:induction false} ClosedReachesFirst(groups: seq<Group>, candidates: seq<nat>, rules: GridRules, part: seq<nat>,
                                              members: set<nat>, k: nat)
    requires AllProper(groups) && Symmetric(rules) && Closed(groups, rules, members)
    requires InRange(part, |candidates|) && Reaches(groups, candidates, rules, part)
    requires k < |part| && candidates[part[k]] in members
    ensures candidates[part[0]] in members
    decreases k
  {
    if k > 0 {
      assert ReachedFrom(groups, candidates, rules, part[..k], part[k]);
      var p :| p in part[..k] && Linked(groups, candidates, rules, p, part[k]);
      var j: nat :| j < k && part[..k][j] == p;
      TouchIsSymmetric(groups, rules, candidates[p], candidates[part[k]]);
      ClosedReachesFirst(groups, candidates, rules, part, members, j);
    }
  }

  /** And from there to all others. */
  lemma {:induction false} ClosedReachesAll(groups: seq<Group>, candidates: seq<nat>, rules: GridRules, part: seq<nat>,
                                            members: set<nat>, n: nat)
    requires Closed(groups, rules, members)
    requires InRange(part, |candidates|) && Reaches(groups, candidates, rules, part)
    requires 0 < n <= |part| && candidates[part[0]] in members
    ensures forall i | 0 <= i < n :: candidates[part[i]] in members
  {
    if n > 1 {
      ClosedReachesAll(groups, candidates, rules, part, members, n - 1);
      assert ReachedFrom(groups, candidates, rules, part[..n - 1], part[n - 1]);
      var p :| p in part[..n - 1] && Linked(groups, candidates, rules, p, part[n - 1]);
      var j: nat :| j < n - 1 && part[..n - 1][j] == p;
      assert candidates[part[j]] in members;
    }
  }

  lemma PartIsConnected(groups: seq<Group>, candidates: seq<nat>, rules: GridRules, part: seq<nat>)
    requires AllProper(groups) && Symmetric(rules)
    requires InRange(part, |candidates|) && Reaches(groups, candidates, rules, part) && part != []
    ensures Connected(groups, rules, Elements(IndicesAt(candidates, part)))
  {
    var all := Elements(IndicesAt(candidates, part));
    forall members: set<nat> | members != {} && members <= all && Closed(groups, rules, members)
      ensures members == all
    {
      var i :| i in members;
      var k: nat :| k < |part| && IndicesAt(candidates, part)[k] == i;
      ClosedReachesFirst(groups, candidates, rules, part, members, k);
      ClosedReachesAll(groups, candidates, rules, part, members, |part|);
      assert all <= members;
    }
  }

  lemma PartIsClosed(groups: seq<Group>, candidates: seq<nat>, rules: GridRules, before: seq<bool>, part: seq<nat>,
                     after: seq<bool>)
    requires AllProper(groups) && Symmetric(rules) && AreCandidates(groups, rules, candidates)
    requires VisitedIsClosed(groups, candidates, rules, before)
    requires IsPart(groups, candidates, rules, before, part, after)
    ensures Closed(groups, rules, Elements(IndicesAt(candidates, part)))
  {
    var all := Elements(IndicesAt(candidates, part));
    forall i | i in all
      ensures i < |groups| && IsCandidate(groups[i], rules)
    {
      var k: nat :| k < |part| && IndicesAt(candidates, part)[k] == i;
      assert candidates[part[k]] in candidates;
    }
    forall i: nat, j: nat | i in all && Touch(groups, rules, i, j)
      ensures j in all
    {
      var k: nat :| k < |part| && IndicesAt(candidates, part)[k] == i;
      assert j in candidates;
      var q: nat :| q < |candidates| && candidates[q] == j;
      assert Linked(groups, candidates, rules, part[k], q) && Explored(groups, candidates, rules, after, part[k]);
      LinkStaysInPart(groups, candidates, rules, before, part, k, q);
      var m: nat :| m < |part| && part[m] == q;
      assert IndicesAt(candidates, part)[m] == j;
    }
  }

  /** A link cannot lead back to a position visited before. */
  lemma LinkStaysInPart(groups: seq<Group>, candidates: seq<nat>, rules: GridRules, before: seq<bool>, part: seq<nat>,
                        k: nat, q: nat)
    requires AllProper(groups) && Symmetric(rules) && VisitedIsClosed(groups, candidates, rules, before)
    requires k < |part| && part[k] < |before| && !before[part[k]] && q < |before| && (before[q] || q in part)
    requires Linked(groups, candidates, rules, part[k], q)
    ensures q in part
  {
    TouchIsSymmetric(groups, rules, candidates[part[k]], candidates[q]);
    if before[q] {
      assert Explored(groups, candidates, rules, before, q) && Linked(groups, candidates, rules, q, part[k]);
    }
  }

  /** What the search collects from an unvisited position is that position's connected component. */
  lemma PartIsComponent(groups: seq<Group>, candidates: seq<nat>, rules: GridRules, before: seq<bool>, part: seq<nat>,
                        after: seq<bool>)
    requires AllProper(groups) && Symmetric(rules) && AreCandidates(groups, rules, candidates)
    requires VisitedIsClosed(groups, candidates, rules, before)
    requires IsPart(groups, candidates, rules, before, part, after)
    ensures IsComponent(groups, rules, IndicesAt(candidates, part))
    ensures VisitedIsClosed(groups, candidates, rules, after)
  {
    PartIsConnected(groups, candidates, rules, part);
    PartIsClosed(groups, candidates, rules, before, part, after);
    StillClosed(groups, candidates, rules, before, part, after);
    IndicesDiffer(candidates, part);
  }

  lemma IndicesDiffer(candidates: seq<nat>, part: seq<nat>)
    requires Distinct(part) && InRange(part, |candidates|)
    requires forall i, j | 0 <= i < j < |candidates| :: candidates[i] < candidates[j]
    ensures Distinct(IndicesAt(candidates, part))
  {
    forall i, j | 0 <= i < j < |part|
      ensures candidates[part[i]] != candidates[part[j]]
    {
      assert part[i] != part[j];
    }
  }

  lemma StillClosed(groups: seq<Group>, candidates: seq<nat>, rules: GridRules, before: seq<bool>, part: seq<nat>,
                    after: seq<bool>)
    requires VisitedIsClosed(groups, candidates, rules, before)
    requires IsPart(groups, candidates, rules, before, part, after)
    ensures VisitedIsClosed(groups, candidates, rules, after)
  {
    forall p: nat | p < |after| && after[p]
      ensures Explored(groups, candidates, rules, after, p)
    {
      if before[p] {
        assert Explored(groups, candidates, rules, before, p);
      } else {
        var k: nat :| k < |part| && part[k] == p;
      }
    }
  }

  // ---- the search ----

  /** No group visited so far belongs to a grid. */
  ghost predicate NoneInGrid(groups: seq<Group>, candidates: seq<nat>, rules: GridRules, visited: seq<bool>) {
    forall p: nat | p < |visited| && p < |candidates| && visited[p] :: InNoGrid(groups, rules, candidates[p])
  }

  lemma NoneInGridEither(groups: seq<Group>, candidates: seq<nat>, rules: GridRules, before: seq<bool>, part: seq<nat>,
                         after: seq<bool>)
    requires |before| == |candidates| && Tracks(part, before, after) && NoneInGrid(groups, candidates, rules, before)
    requires var component := IndicesAt(candidates, part);
             IsComponent(groups, rules, component) && !(|component| >= 6 && Aligned(groups, component, rules))
    ensures NoneInGrid(groups, candidates, rules, after)
  {
    var component := IndicesAt(candidates, part);
    forall p: nat | p < |after| && after[p]
      ensures InNoGrid(groups, rules, candidates[p])
    {
      if !before[p] {
        var k: nat :| k < |part| && part[k] == p;
        assert component[k] == candidates[p];
        NotInAnotherGrid(groups, rules, component, candidates[p]);
      }
    }
  }

  lemma InGridIsUnvisited(groups: seq<Group>, candidates: seq<nat>, rules: GridRules, visited: seq<bool>,
                          component: seq<nat>, p: nat)
    requires NoneInGrid(groups, candidates, rules, visited) && p < |visited| && p < |candidates|
    requires IsGrid(groups, rules, component) && candidates[p] in component
    ensures !visited[p]
  {
  }

  lemma EarlierIsInNoGrid(groups: seq<Group>, candidates: seq<nat>, rules: GridRules, visited: seq<bool>, start: nat)
    requires AreCandidates(groups, rules, candidates) && |visited| == |candidates|
    requires NoneInGrid(groups, candidates, rules, visited)
    requires start <= |visited| && forall p: nat | p < start :: visited[p]
    ensures forall component: seq<nat>, i | IsGrid(groups, rules, component) && i in component ::
              exists p | start <= p < |candidates| :: candidates[p] == i
  {
    forall component: seq<nat>, i | IsGrid(groups, rules, component) && i in component
      ensures exists p | start <= p < |candidates| :: candidates[p] == i
    {
      assert i in Elements(component);
      assert i in candidates;
      var p: nat :| p < |candidates| && candidates[p] == i;
      InGridIsUnvisited(groups, candidates, rules, visited, component, p);
    }
  }

  lemma NothingLeft(groups: seq<Group>, candidates: seq<nat>, rules: GridRules, visited: seq<bool>)
    requires AreCandidates(groups, rules, candidates) && |visited| == |candidates|
    requires NoneInGrid(groups, candidates, rules, visited) && forall p: nat | p < |visited| :: visited[p]
    ensures NoGrid(groups, rules)
  {
    EarlierIsInNoGrid(groups, candidates, rules, visited, |visited|);
    forall component: seq<nat>
      ensures !IsGrid(groups, rules, component)
    {
      assert component != [] ==> component[0] in component;
    }
  }

  lemma FoundIsEarliest(groups: seq<Group>, candidates: seq<nat>, rules: GridRules, visited: seq<bool>, part: seq<nat>)
    requires AreCandidates(groups, rules, candidates) && |visited| == |candidates|
    requires NoneInGrid(groups, candidates, rules, visited) && InRange(part, |candidates|) && part != []
    requires forall p: nat | p < part[0] :: visited[p]
    ensures IsEarliest(groups, rules, IndicesAt(candidates, part))
  {
    EarlierIsInNoGrid(groups, candidates, rules, visited, part[0]);
    forall component: seq<nat>, i | IsGrid(groups, rules, component) && i in component
      ensures candidates[part[0]] <= i
    {
      var p :| part[0] <= p < |candidates| && candidates[p] == i;
    }
  }

  ghost predicate SearchedSoFar(groups: seq<Group>, candidates: seq<nat>, rules: GridRules, visited: seq<bool>, start: nat) {
    && VisitedIsClosed(groups, candidates, rules, visited) && NoneInGrid(groups, candidates, rules, visited)
    && start <= |visited| && forall p: nat | p < start :: visited[p]
  }

  /** Large and aligned enough. */
  ghost predicate Qualifies(groups: seq<Group>, rules: GridRules, component: seq<nat>) {
    InRange(component, |groups|) && |component| >= 6 && Aligned(groups, component, rules)
  }

  lemma PartAccepted(groups: seq<Group>, candidates: seq<nat>, rules: GridRules, visited: seq<bool>, part: seq<nat>,
                     marked: seq<bool>)
    requires AllProper(groups) && Symmetric(rules) && AreCandidates(groups, rules, candidates)
    requires IsPart(groups, candidates, rules, visited, part, marked)
    requires SearchedSoFar(groups, candidates, rules, visited, part[0])
    requires Qualifies(groups, rules, IndicesAt(candidates, part))
    ensures var component := IndicesAt(candidates, part);
            component != [] && IsGrid(groups, rules, component) && IsEarliest(groups, rules, component) && !NoGrid(groups, rules)
  {
    PartIsComponent(groups, candidates, rules, visited, part, marked);
    FoundIsEarliest(groups, candidates, rules, visited, part);
    assert IsGrid(groups, rules, IndicesAt(candidates, part));
  }

  lemma PartRejected(groups: seq<Group>, candidates: seq<nat>, rules: GridRules, visited: seq<bool>, part: seq<nat>,
                     marked: seq<bool>)
    requires AllProper(groups) && Symmetric(rules) && AreCandidates(groups, rules, candidates)
    requires IsPart(groups, candidates, rules, visited, part, marked)
    requires SearchedSoFar(groups, candidates, rules, visited, part[0])
    requires !Qualifies(groups, rules, IndicesAt(candidates, part))
    ensures SearchedSoFar(groups, candidates, rules, marked, part[0] + 1)
  {
    PartIsComponent(groups, candidates, rules, visited, part, marked);
    NoneInGridEither(groups, candidates, rules, visited, part, marked);
    assert part[0] in part;
  }

  lemma IndicesInRange(groups: seq<Group>, candidates: seq<nat>, part: seq<nat>)
    requires InRange(candidates, |groups|) && InRange(part, |candidates|)
    ensures InRange(IndicesAt(candidates, part), |groups|)
  {
  }

  /** Whether what was collected is large and aligned enough. */
  method Test(groups: seq<Group>, rules: GridRules, component: seq<nat>) returns (qualifies: bool)
    requires InRange(component, |groups|)
    ensures qualifies <==> Qualifies(groups, rules, component)
  {
    if |component| < 6 { return false; }
    var rows := AlignedClusterCount(groups, component, MiddleY, rules.rowTolerance);
    if rows < 2 { return false; }
    var columns := AlignedClusterCount(groups, component, Left, rules.columnTolerance);
    qualifies := columns >= 2;
  }

  /** The components are tested in the order of their first groups. */
  method SelectGrid(groups: seq<Group>, rules: GridRules) returns (selected: seq<nat>)
    requires AllProper(groups) && Symmetric(rules)
    ensures selected == [] <==> NoGrid(groups, rules)
    ensures selected != [] ==> IsGrid(groups, rules, selected) && IsEarliest(groups, rules, selected)
  {
    var candidates := Candidates(groups, rules);
    if |candidates| < 6 {
      TooFewCandidates(groups, rules, candidates);
      return [];
    }
    var visited := seq(|candidates|, i => false);
    for start := 0 to |candidates|
      invariant |visited| == |candidates| && SearchedSoFar(groups, candidates, rules, visited, start)
    {
      if !visited[start] {
        var marked, positions := Component(groups, candidates, rules, visited, start);
        var component := IndicesAt(candidates, positions);
        IndicesInRange(groups, candidates, positions);
        var qualifies := Test(groups, rules, component);
        if qualifies {
          PartAccepted(groups, candidates, rules, visited, positions, marked);
          return component;
        }
        PartRejected(groups, candidates, rules, visited, positions, marked);
        visited := marked;
      }
    }
    NothingLeft(groups, candidates, rules, visited);
    selected := [];
  }

  /** The description of the selection leaves only the order of its members open. */
  lemma EarliestIsUnique(groups: seq<Group>, rules: GridRules, a: seq<nat>, b: seq<nat>)
    requires IsGrid(groups, rules, a) && IsEarliest(groups, rules, a)
    requires IsGrid(groups, rules, b) && IsEarliest(groups, rules, b)
    ensures multiset(a) == multiset(b) && a[0] == b[0]
  {
    assert a[0] in a && b[0] in b;
    ComponentsMeet(groups, rules, a, b, a[0]);
  }
}
