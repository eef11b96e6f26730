/**
  Merging a grid of small groups into one group, until no grid is left. Lines are
  conserved, and every other group stays as it is and where it is.
 */
module GridMerge {
  import opened Sequences
  import opened LayoutModel
  import opened TextGeometry
  import opened LineGroups
  import opened GridGeometry
  import opened GridSearch

  function Count(chosen: seq<bool>): nat {
    if chosen == [] then 0 else Count(chosen[..|chosen| - 1]) + (if chosen[|chosen| - 1] then 1 else 0)
  }

  lemma {:induction false} CountUpdate(chosen: seq<bool>, i: nat)
    requires i < |chosen| && !chosen[i]
    ensures Count(chosen[i := true]) == Count(chosen) + 1
  {
    var last := |chosen| - 1;
    if i == last {
      assert chosen[i := true][..last] == chosen[..last];
    } else {
      CountUpdate(chosen[..last], i);
      assert chosen[i := true][..last] == chosen[..last][i := true];
    }
  }

  lemma {:induction false} CountBound(chosen: seq<bool>)
    ensures Count(chosen) <= |chosen|
    ensures Count(chosen) > 0 ==> exists i: nat :: i < |chosen| && chosen[i]
  {
    if chosen != [] {
      CountBound(chosen[..|chosen| - 1]);
      if Count(chosen) > 0 && !chosen[|chosen| - 1] {
        var i: nat :| i < |chosen| - 1 && chosen[..|chosen| - 1][i];
        assert chosen[i];
      }
    }
  }

  /** The lines of the chosen, or of the other, among the first n groups. */
  ghost function Share(groups: seq<Group>, chosen: seq<bool>, want: bool, n: nat): multiset<int>
    requires n <= |groups| == |chosen|
  {
    if n == 0 then multiset{}
    else Share(groups, chosen, want, n - 1) + (if chosen[n - 1] == want then multiset(groups[n - 1].lines) else multiset{})
  }

  lemma {:induction false} SharesAddUp(groups: seq<Group>, chosen: seq<bool>, n: nat)
    requires n <= |groups| == |chosen|
    ensures Share(groups, chosen, true, n) + Share(groups, chosen, false, n) == LinesOf(groups[..n])
  {
    if n > 0 {
      SharesAddUp(groups, chosen, n - 1);
      assert groups[..n][..n - 1] == groups[..n - 1];
    }
  }

  function GridCount(groups: seq<Group>): nat {
    if groups == [] then 0 else GridCount(groups[..|groups| - 1]) + (if groups[|groups| - 1].grid then 1 else 0)
  }

  lemma GridCountAppend(groups: seq<Group>, g: Group)
    ensures GridCount(groups + [g]) == GridCount(groups) + (if g.grid then 1 else 0)
  {
    assert (groups + [g])[..|groups|] == groups;
  }

  method SelectedFlags(n: nat, selected: seq<nat>) returns (chosen: seq<bool>)
    requires InRange(selected, n) && Distinct(selected)
    ensures |chosen| == n && Count(chosen) == |selected|
    ensures forall i: nat | i < n :: chosen[i] <==> i in selected
  {
    chosen := seq(n, i => false);
    NothingCounted(chosen);
    for k := 0 to |selected|
      invariant |chosen| == n && Count(chosen) == k
      invariant forall i: nat | i < n :: chosen[i] <==> i in selected[..k]
    {
      assert !chosen[selected[k]];
      CountUpdate(chosen, selected[k]);
      chosen := chosen[selected[k] := true];
    }
  }

  lemma {:induction false} NothingCounted(chosen: seq<bool>)
    requires forall i | 0 <= i < |chosen| :: !chosen[i]
    ensures Count(chosen) == 0
  {
    if chosen != [] {
      NothingCounted(chosen[..|chosen| - 1]);
    }
  }

  function GridBoxOf(groups: seq<Group>, selected: seq<nat>, n: nat): BBox
    requires InRange(selected, |groups|) && selected != [] && n <= |selected|
  {
    if n == 0 then groups[selected[0]].bbox else Expand(GridBoxOf(groups, selected, n - 1), groups[selected[n - 1]].bbox)
  }

  method GridBox(groups: seq<Group>, selected: seq<nat>) returns (box: BBox)
    requires InRange(selected, |groups|) && selected != []
    ensures box == GridBoxOf(groups, selected, |selected|)
  {
    box := groups[selected[0]].bbox;
    for k := 0 to |selected|
      invariant box == GridBoxOf(groups, selected, k)
    {
      box := Expand(box, groups[selected[k]].bbox);
    }
  }

  lemma SelectedAreCandidates(groups: seq<Group>, rules: GridRules, selected: seq<nat>)
    requires IsComponent(groups, rules, selected)
    ensures forall i | i in selected :: i < |groups| && !groups[i].grid
  {
    forall i | i in selected
      ensures i < |groups| && !groups[i].grid
    {
      assert i in Elements(selected);
      assert IsCandidate(groups[i], rules);
    }
  }

  predicate IsAbsorbed(g: Group, box: BBox, rules: GridRules) { !g.grid && |g.lines| <= 4 && rules.inside(g, box) }

  /** The selected groups, and every small plain group whose centre lies in their box. */
  method MergeFlags(groups: seq<Group>, selected: seq<nat>, rules: GridRules) returns (chosen: seq<bool>)
    requires selected != [] && InRange(selected, |groups|) && Distinct(selected)
    requires forall i | i in selected :: !groups[i].grid
    ensures |chosen| == |groups| && Count(chosen) >= |selected|
    ensures forall i: nat | i < |groups| && chosen[i] :: !groups[i].grid
    ensures forall i: nat | i < |groups| ::
      chosen[i] <==> i in selected || IsAbsorbed(groups[i], GridBoxOf(groups, selected, |selected|), rules)
  {
    var box := GridBox(groups, selected);
    chosen := SelectedFlags(|groups|, selected);
    for i := 0 to |groups|
      invariant |chosen| == |groups| && Count(chosen) >= |selected|
      invariant forall k: nat | k < |groups| && chosen[k] :: !groups[k].grid
      invariant forall k: nat | k < |groups| ::
        chosen[k] <==> k in selected || (k < i && IsAbsorbed(groups[k], box, rules))
    {
      if !chosen[i] && IsAbsorbed(groups[i], box, rules) {
        CountUpdate(chosen, i);
        chosen := chosen[i := true];
      }
    }
  }

  /** The lines of the chosen groups, one group after another. */
  function ChosenLines(groups: seq<Group>, chosen: seq<bool>, n: nat): seq<int>
    requires n <= |groups| == |chosen|
  {
    if n == 0 then [] else ChosenLines(groups, chosen, n - 1) + (if chosen[n - 1] then groups[n - 1].lines else [])
  }

  lemma {:induction false} ChosenLinesAreShare(groups: seq<Group>, chosen: seq<bool>, n: nat)
    requires n <= |groups| == |chosen|
    ensures multiset(ChosenLines(groups, chosen, n)) == Share(groups, chosen, true, n)
  {
    if n > 0 {
      ChosenLinesAreShare(groups, chosen, n - 1);
    }
  }

  lemma {:induction false} ChosenLinesContain(groups: seq<Group>, chosen: seq<bool>, i: nat, n: nat)
    requires i < n <= |groups| == |chosen| && chosen[i]
    ensures forall l | l in groups[i].lines :: l in ChosenLines(groups, chosen, n)
  {
    if i < n - 1 {
      ChosenLinesContain(groups, chosen, i, n - 1);
    }
  }

  /** The hull of the lines gathered so far together with those it started from. */
  ghost predicate SeededHull(text: seq<TextLine>, box: BBox, seed: seq<int>, lines: seq<int>) {
    IsHull(text, box, seed + lines)
  }

  lemma HullGrows(text: seq<TextLine>, box: BBox, seed: seq<int>, lines: seq<int>, g: Group)
    requires SeededHull(text, box, seed, lines) && WellFormed(text, g)
    ensures SeededHull(text, Expand(box, g.bbox), seed, lines + g.lines)
  {
    HullOfBoth(text, box, seed + lines, g.bbox, g.lines);
    assert seed + lines + g.lines == seed + (lines + g.lines);
  }

  lemma HullWithoutSeed(text: seq<TextLine>, box: BBox, seed: seq<int>, lines: seq<int>)
    requires SeededHull(text, box, seed, lines) && seed != [] && forall l | l in seed :: l in lines
    ensures lines != [] && IsHull(text, box, lines)
  {
    assert seed[0] in seed;
    HullOfSameLines(text, box, seed + lines, lines);
  }

  lemma SeedAlone(text: seq<TextLine>, g: Group)
    requires WellFormed(text, g)
    ensures SeededHull(text, g.bbox, g.lines, [])
  {
    assert g.lines + [] == g.lines;
  }

  /** The box of the first chosen group, grown by the chosen ones among the first n. */
  function ChosenBox(groups: seq<Group>, chosen: seq<bool>, first: nat, n: nat): BBox
    requires n <= |groups| == |chosen| && first < |groups|
  {
    if n == 0 then groups[first].bbox
    else if chosen[n - 1] then Expand(ChosenBox(groups, chosen, first, n - 1), groups[n - 1].bbox)
    else ChosenBox(groups, chosen, first, n - 1)
  }

  /** What one chosen group more keeps holds of all. */
  lemma {:induction false} ChosenInduction(groups: seq<Group>, chosen: seq<bool>, first: nat, n: nat,
                                           holds: (BBox, seq<int>) -> bool)
    requires n <= |groups| == |chosen| && first < |groups| && holds(groups[first].bbox, [])
    requires forall k: nat, box, lines | k < |groups| && holds(box, lines) ::
               holds(Expand(box, groups[k].bbox), lines + groups[k].lines)
    ensures holds(ChosenBox(groups, chosen, first, n), ChosenLines(groups, chosen, n))
  {
    if n > 0 {
      ChosenInduction(groups, chosen, first, n - 1, holds);
      var k: nat := n - 1;
      var box, lines := ChosenBox(groups, chosen, first, k), ChosenLines(groups, chosen, k);
      assert holds(Expand(box, groups[k].bbox), lines + groups[k].lines);
      assert !chosen[k] ==> ChosenLines(groups, chosen, n) == lines;
    }
  }

  lemma ChosenBoxIsHull(text: seq<TextLine>, groups: seq<Group>, chosen: seq<bool>, first: nat)
    requires AllWellFormed(text, groups) && |groups| == |chosen| && first < |groups|
    ensures SeededHull(text, ChosenBox(groups, chosen, first, |groups|), groups[first].lines,
                       ChosenLines(groups, chosen, |groups|))
  {
    var seed := groups[first].lines;
    var holds := (box: BBox, lines: seq<int>) => SeededHull(text, box, seed, lines);
    forall k: nat, box, lines | k < |groups| && holds(box, lines)
      ensures holds(Expand(box, groups[k].bbox), lines + groups[k].lines)
    {
      HullGrows(text, box, seed, lines, groups[k]);
    }
    SeedAlone(text, groups[first]);
    ChosenInduction(groups, chosen, first, |groups|, holds);
  }

  /** The hull of the chosen groups' lines. */
  method ChosenHull(text: seq<TextLine>, groups: seq<Group>, chosen: seq<bool>, first: nat)
    returns (box: BBox, lines: seq<int>)
    requires AllWellFormed(text, groups) && |chosen| == |groups| && first < |groups| && chosen[first]
    ensures lines == ChosenLines(groups, chosen, |groups|) && lines != [] && IsHull(text, box, lines)
  {
    box, lines := groups[first].bbox, [];
    for i := 0 to |groups|
      invariant lines == ChosenLines(groups, chosen, i) && box == ChosenBox(groups, chosen, first, i)
    {
      if chosen[i] {
        box, lines := Expand(box, groups[i].bbox), lines + groups[i].lines;
      }
    }
    ChosenBoxIsHull(text, groups, chosen, first);
    ChosenLinesContain(groups, chosen, first, |groups|);
    HullWithoutSeed(text, box, groups[first].lines, lines);
  }

  /** One group in place of the chosen ones: their lines in row order, and the hull around them. */
  method MergeChosen(text: seq<TextLine>, groups: seq<Group>, chosen: seq<bool>, first: nat, medianHeight: real)
    returns (merged: Group)
    requires AllWellFormed(text, groups) && |chosen| == |groups| && first < |groups| && chosen[first]
    ensures WellFormed(text, merged) && merged.grid
    ensures multiset(merged.lines) == Share(groups, chosen, true, |groups|)
    ensures InRows(text, merged.lines, RowTolerance(medianHeight))
    ensures merged.lastBox == BoxAt(text, merged.lines[|merged.lines| - 1])
  {
    var box, lines := ChosenHull(text, groups, chosen, first);
    ChosenLinesAreShare(groups, chosen, |groups|);
    OrderedKeeps(text, Group(box, box, lines, true), medianHeight);
    RowWiseIsInRows(text, lines, medianHeight);
    var sorted := SortRowWise(text, lines, medianHeight);
    merged := Group(box, BoxAt(text, sorted[|sorted| - 1]), sorted, true);
  }

  ghost predicate IsFirst(chosen: seq<bool>, first: nat) {
    first < |chosen| && chosen[first] && forall i | 0 <= i < first :: !chosen[i]
  }

  method FirstChosen(chosen: seq<bool>) returns (first: nat)
    requires Count(chosen) > 0
    ensures IsFirst(chosen, first)
  {
    CountBound(chosen);
    first := 0;
    while !chosen[first]
      invariant first < |chosen| && forall i | 0 <= i < first :: !chosen[i]
      decreases |chosen| - first
    {
      first := first + 1;
    }
  }

  /** The merged group takes the place of the first chosen one; the others close up. */
  function Reduced(groups: seq<Group>, chosen: seq<bool>, merged: Group, first: nat, n: nat): seq<Group>
    requires n <= |groups| == |chosen|
  {
    if n == 0 then []
    else
      Reduced(groups, chosen, merged, first, n - 1)
      + (if n - 1 == first then [merged] else [])
      + (if chosen[n - 1] then [] else [groups[n - 1]])
  }

  ghost function ReducedShare(groups: seq<Group>, chosen: seq<bool>, merged: Group, first: nat, n: nat): multiset<int>
    requires n <= |groups| == |chosen|
  {
    Share(groups, chosen, false, n) + (if n > first then multiset(merged.lines) else multiset{})
  }

  lemma ReducedStep(groups: seq<Group>, chosen: seq<bool>, merged: Group, first: nat, n: nat)
    requires 0 < n <= |groups| == |chosen| && IsFirst(chosen, first)
    ensures Reduced(groups, chosen, merged, first, n) ==
            if n - 1 == first then Reduced(groups, chosen, merged, first, n - 1) + [merged]
            else if chosen[n - 1] then Reduced(groups, chosen, merged, first, n - 1)
            else Reduced(groups, chosen, merged, first, n - 1) + [groups[n - 1]]
  {
  }

  lemma ReducedShareStep(groups: seq<Group>, chosen: seq<bool>, merged: Group, first: nat, n: nat)
    requires 0 < n <= |groups| == |chosen| && IsFirst(chosen, first)
    ensures ReducedShare(groups, chosen, merged, first, n) ==
            if n - 1 == first then ReducedShare(groups, chosen, merged, first, n - 1) + multiset(merged.lines)
            else if chosen[n - 1] then ReducedShare(groups, chosen, merged, first, n - 1)
            else ReducedShare(groups, chosen, merged, first, n - 1) + multiset(groups[n - 1].lines)
  {
    SwapLast(Share(groups, chosen, false, n - 1), if n > first then multiset(merged.lines) else multiset{},
             multiset(groups[n - 1].lines));
  }

  lemma SwapLast(a: multiset<int>, b: multiset<int>, c: multiset<int>)
    ensures a + b + c == a + c + b
  {
  }

  /** The origins of the reduced list. */
  ghost function ReducedFrom(chosen: seq<bool>, first: nat, n: nat): seq<int>
    requires n <= |chosen|
  {
    if n == 0 then [] else NextFrom(chosen, first, n - 1, ReducedFrom(chosen, first, n - 1))
  }

  ghost function NextFrom(chosen: seq<bool>, first: nat, k: nat, from: seq<int>): seq<int>
    requires k < |chosen|
  {
    if k == first then from + [-1] else if chosen[k] then from else from + [k]
  }

  ghost function NextReduced(groups: seq<Group>, chosen: seq<bool>, merged: Group, first: nat, k: nat, reduced: seq<Group>)
    : seq<Group>
    requires k < |groups| == |chosen|
  {
    if k == first then reduced + [merged] else if chosen[k] then reduced else reduced + [groups[k]]
  }

  /** What one step keeps holds of the whole reduced list. */
  lemma {:induction false} ReducedInduction(groups: seq<Group>, chosen: seq<bool>, merged: Group, first: nat, n: nat,
                                            holds: (nat, seq<Group>, seq<int>) -> bool)
    requires n <= |groups| == |chosen| && IsFirst(chosen, first) && holds(0, [], [])
    requires forall k: nat, reduced, from | k < |groups| && holds(k, reduced, from) ::
               holds(k + 1, NextReduced(groups, chosen, merged, first, k, reduced), NextFrom(chosen, first, k, from))
    ensures holds(n, Reduced(groups, chosen, merged, first, n), ReducedFrom(chosen, first, n))
  {
    if n > 0 {
      var k: nat := n - 1;
      ReducedInduction(groups, chosen, merged, first, k, holds);
      ReducedStep(groups, chosen, merged, first, n);
      var reduced, from := Reduced(groups, chosen, merged, first, k), ReducedFrom(chosen, first, k);
      assert holds(k + 1, NextReduced(groups, chosen, merged, first, k, reduced), NextFrom(chosen, first, k, from));
      assert Reduced(groups, chosen, merged, first, n) == NextReduced(groups, chosen, merged, first, k, reduced);
    }
  }

  lemma LinesStep(groups: seq<Group>, chosen: seq<bool>, merged: Group, first: nat, k: nat, reduced: seq<Group>)
    requires k < |groups| == |chosen| && IsFirst(chosen, first)
    requires LinesOf(reduced) == ReducedShare(groups, chosen, merged, first, k)
    ensures LinesOf(NextReduced(groups, chosen, merged, first, k, reduced)) == ReducedShare(groups, chosen, merged, first, k + 1)
  {
    ReducedShareStep(groups, chosen, merged, first, k + 1);
    if k == first {
      LinesOfAppend(reduced, merged);
    } else if !chosen[k] {
      LinesOfAppend(reduced, groups[k]);
    }
  }

  lemma ReducedHasShare(groups: seq<Group>, chosen: seq<bool>, merged: Group, first: nat)
    requires |groups| == |chosen| && IsFirst(chosen, first)
    ensures LinesOf(Reduced(groups, chosen, merged, first, |groups|)) == ReducedShare(groups, chosen, merged, first, |groups|)
  {
    var holds := (k: nat, reduced: seq<Group>, from: seq<int>) =>
      k <= |groups| && LinesOf(reduced) == ReducedShare(groups, chosen, merged, first, k);
    forall k: nat, reduced, from: seq<int> | k < |groups| && holds(k, reduced, from)
      ensures holds(k + 1, NextReduced(groups, chosen, merged, first, k, reduced), NextFrom(chosen, first, k, from))
    {
      LinesStep(groups, chosen, merged, first, k, reduced);
    }
    NothingShared(groups, chosen, merged, first);
    ReducedInduction(groups, chosen, merged, first, |groups|, holds);
  }

  /** Merging loses no line and doubles none. */
  lemma ReducedLines(groups: seq<Group>, chosen: seq<bool>, merged: Group, first: nat)
    requires |groups| == |chosen| && IsFirst(chosen, first)
    requires multiset(merged.lines) == Share(groups, chosen, true, |groups|)
    ensures LinesOf(Reduced(groups, chosen, merged, first, |groups|)) == LinesOf(groups)
  {
    ReducedHasShare(groups, chosen, merged, first);
    EverythingShared(groups, chosen, merged, first);
  }

  lemma NothingShared(groups: seq<Group>, chosen: seq<bool>, merged: Group, first: nat)
    requires |groups| == |chosen|
    ensures LinesOf([]) == ReducedShare(groups, chosen, merged, first, 0)
  {
  }

  lemma EverythingShared(groups: seq<Group>, chosen: seq<bool>, merged: Group, first: nat)
    requires |groups| == |chosen| && first < |groups| && multiset(merged.lines) == Share(groups, chosen, true, |groups|)
    ensures ReducedShare(groups, chosen, merged, first, |groups|) == LinesOf(groups)
  {
    SharesAddUp(groups, chosen, |groups|);
    assert groups[..|groups|] == groups;
  }

  ghost function GridsBefore(groups: seq<Group>, first: nat, k: nat): nat
    requires k <= |groups|
  {
    GridCount(groups[..k]) + (if k > first then 1 else 0)
  }

  lemma GridsStep(groups: seq<Group>, chosen: seq<bool>, merged: Group, first: nat, k: nat, reduced: seq<Group>)
    requires k < |groups| == |chosen| && IsFirst(chosen, first) && merged.grid && (chosen[k] ==> !groups[k].grid)
    requires GridCount(reduced) == GridsBefore(groups, first, k)
    ensures GridCount(NextReduced(groups, chosen, merged, first, k, reduced)) == GridsBefore(groups, first, k + 1)
  {
    assert groups[..k + 1] == groups[..k] + [groups[k]];
    GridCountAppend(groups[..k], groups[k]);
    if k == first {
      GridCountAppend(reduced, merged);
    } else if !chosen[k] {
      GridCountAppend(reduced, groups[k]);
    }
  }

  lemma ReducedGridCount(groups: seq<Group>, chosen: seq<bool>, merged: Group, first: nat)
    requires |groups| == |chosen| && IsFirst(chosen, first) && merged.grid
    requires forall i: nat | i < |groups| && chosen[i] :: !groups[i].grid
    ensures GridCount(Reduced(groups, chosen, merged, first, |groups|)) == GridCount(groups) + 1
  {
    var holds := (k: nat, reduced: seq<Group>, from: seq<int>) =>
      k <= |groups| && GridCount(reduced) == GridsBefore(groups, first, k);
    forall k: nat, reduced, from: seq<int> | k < |groups| && holds(k, reduced, from)
      ensures holds(k + 1, NextReduced(groups, chosen, merged, first, k, reduced), NextFrom(chosen, first, k, from))
    {
      GridsStep(groups, chosen, merged, first, k, reduced);
    }
    assert holds(0, [], []);
    ReducedInduction(groups, chosen, merged, first, |groups|, holds);
    assert groups[..|groups|] == groups;
  }

  lemma {:induction false} ReducedLength(groups: seq<Group>, chosen: seq<bool>, merged: Group, first: nat, n: nat)
    requires n <= |groups| == |chosen| && IsFirst(chosen, first)
    ensures |Reduced(groups, chosen, merged, first, n)| + Count(chosen[..n]) == n + (if n > first then 1 else 0)
  {
    if n > 0 {
      ReducedLength(groups, chosen, merged, first, n - 1);
      assert chosen[..n][..n - 1] == chosen[..n - 1];
    }
  }

  lemma ReducedCount(groups: seq<Group>, chosen: seq<bool>, merged: Group, first: nat)
    requires |groups| == |chosen| && IsFirst(chosen, first)
    ensures |Reduced(groups, chosen, merged, first, |groups|)| + Count(chosen) == |groups| + 1
  {
    ReducedLength(groups, chosen, merged, first, |groups|);
    assert chosen[..|chosen|] == chosen;
  }

  // ---- what becomes of each group ----

  /** Where each group of the result comes from: an index, or -1 for a merged one. */
  ghost predicate Origins(groups: seq<Group>, result: seq<Group>, from: seq<int>) {
    && |from| == |result|
    && (forall k | 0 <= k < |from| :: Origin(groups, result[k], from[k]))
    && (forall j, k | 0 <= j < k < |from| && 0 <= from[j] && 0 <= from[k] :: from[j] < from[k])
  }

  ghost predicate Origin(groups: seq<Group>, g: Group, i: int) {
    -1 <= i < |groups| && if i < 0 then g.grid else g == groups[i]
  }

  /** The lines have gone into a merged group. */
  ghost predicate Swallowed(lines: multiset<int>, result: seq<Group>, from: seq<int>) {
    exists k | 0 <= k < |result| && k < |from| :: from[k] < 0 && lines <= multiset(result[k].lines)
  }

  /** Every group either stays as it is, in its order, or goes whole into one merged group. */
  ghost predicate Survives(groups: seq<Group>, result: seq<Group>, from: seq<int>) {
    && Origins(groups, result, from)
    && forall i | 0 <= i < |groups| && i !in from :: !groups[i].grid && Swallowed(multiset(groups[i].lines), result, from)
  }

  ghost predicate Descends(groups: seq<Group>, result: seq<Group>) { exists from :: Survives(groups, result, from) }

  lemma DescendsFromItself(groups: seq<Group>)
    ensures Descends(groups, groups)
  {
    var from := seq(|groups|, i => i);
    assert forall i | 0 <= i < |groups| :: from[i] == i;
    assert Survives(groups, groups, from);
  }

  lemma OriginsCompose(a: seq<Group>, b: seq<Group>, c: seq<Group>, f: seq<int>, g: seq<int>, h: seq<int>)
    requires Origins(a, b, f) && Origins(b, c, g) && |h| == |g|
    requires forall k | 0 <= k < |g| :: h[k] == if g[k] < 0 then -1 else f[g[k]]
    ensures Origins(a, c, h)
  {
    forall k | 0 <= k < |h|
      ensures Origin(a, c[k], h[k])
    {
      assert Origin(b, c[k], g[k]);
      assert g[k] >= 0 ==> Origin(a, b[g[k]], f[g[k]]);
    }
  }

  lemma SwallowedStays(b: seq<Group>, c: seq<Group>, f: seq<int>, g: seq<int>, h: seq<int>, lines: multiset<int>)
    requires Survives(b, c, g) && Swallowed(lines, b, f) && |f| == |b| && |h| == |g|
    requires forall k | 0 <= k < |f| && f[k] < 0 :: b[k].grid
    requires forall k | 0 <= k < |g| && 0 <= g[k] < |f| :: h[k] == f[g[k]]
    ensures Swallowed(lines, c, h)
  {
    var k :| 0 <= k < |b| && k < |f| && f[k] < 0 && lines <= multiset(b[k].lines);
    assert k in g;
    var m :| 0 <= m < |g| && g[m] == k;
    assert Origin(b, c[m], g[m]);
    assert h[m] < 0 && lines <= multiset(c[m].lines);
  }

  lemma DescendsTransitive(a: seq<Group>, b: seq<Group>, c: seq<Group>)
    requires Descends(a, b) && Descends(b, c)
    ensures Descends(a, c)
  {
    var f :| Survives(a, b, f);
    var g :| Survives(b, c, g);
    assert forall k | 0 <= k < |g| :: Origin(b, c[k], g[k]);
    assert forall k | 0 <= k < |f| :: Origin(a, b[k], f[k]);
    var h := seq(|g|, k requires 0 <= k < |g| => if g[k] < 0 then -1 else f[g[k]]);
    OriginsCompose(a, b, c, f, g, h);
    forall i | 0 <= i < |a| && i !in h
      ensures !a[i].grid && Swallowed(multiset(a[i].lines), c, h)
    {
      GroupStaysOrGoes(a, b, c, f, g, h, i);
    }
    assert Survives(a, c, h);
  }

  lemma GroupStaysOrGoes(a: seq<Group>, b: seq<Group>, c: seq<Group>, f: seq<int>, g: seq<int>, h: seq<int>, i: nat)
    requires Survives(a, b, f) && Survives(b, c, g) && |h| == |g| && i < |a| && i !in h
    requires forall k | 0 <= k < |g| :: g[k] < |f| && h[k] == if g[k] < 0 then -1 else f[g[k]]
    ensures !a[i].grid && Swallowed(multiset(a[i].lines), c, h)
  {
    assert forall k | 0 <= k < |f| :: Origin(a, b[k], f[k]);
    if i in f {
      var k: nat :| k < |f| && f[k] == i;
      assert forall m | 0 <= m < |g| && g[m] == k :: h[m] == i;
      var m :| 0 <= m < |c| && m < |g| && g[m] < 0 && multiset(b[k].lines) <= multiset(c[m].lines);
      assert h[m] < 0 && multiset(a[i].lines) <= multiset(c[m].lines);
    } else {
      SwallowedStays(b, c, f, g, h, multiset(a[i].lines));
    }
  }

  /** The origins of the first n groups: merged ones only behind the first, the unchosen ones all. */
  ghost predicate FromFirst(groups: seq<Group>, chosen: seq<bool>, merged: Group, first: nat, n: nat, reduced: seq<Group>,
                            from: seq<int>)
  {
    && n <= |groups| && n <= |chosen| && Origins(groups[..n], reduced, from)
    && (forall k | 0 <= k < |from| && from[k] < 0 :: reduced[k] == merged)
    && (forall i | 0 <= i < n :: i in from <==> !chosen[i])
    && (n > first ==> -1 in from)
  }

  lemma FromMerged(groups: seq<Group>, chosen: seq<bool>, merged: Group, first: nat, n: nat, reduced: seq<Group>, from: seq<int>)
    requires n < |groups| == |chosen| && IsFirst(chosen, first) && merged.grid && n == first
    requires FromFirst(groups, chosen, merged, first, n, reduced, from)
    ensures FromFirst(groups, chosen, merged, first, n + 1, reduced + [merged], from + [-1])
  {
    assert forall k | 0 <= k < |from| :: Origin(groups[..n], reduced[k], from[k]);
    assert forall k | 0 <= k < |from| :: Origin(groups[..n + 1], reduced[k], from[k]);
    assert n !in from;
  }

  lemma FromChosen(groups: seq<Group>, chosen: seq<bool>, merged: Group, first: nat, n: nat, reduced: seq<Group>, from: seq<int>)
    requires n < |groups| == |chosen| && IsFirst(chosen, first) && n != first && chosen[n]
    requires FromFirst(groups, chosen, merged, first, n, reduced, from)
    ensures FromFirst(groups, chosen, merged, first, n + 1, reduced, from)
  {
    assert forall k | 0 <= k < |from| :: Origin(groups[..n], reduced[k], from[k]);
    assert forall k | 0 <= k < |from| :: Origin(groups[..n + 1], reduced[k], from[k]);
    assert n !in from;
  }

  lemma FromOther(groups: seq<Group>, chosen: seq<bool>, merged: Group, first: nat, n: nat, reduced: seq<Group>, from: seq<int>)
    requires n < |groups| == |chosen| && IsFirst(chosen, first) && !chosen[n]
    requires FromFirst(groups, chosen, merged, first, n, reduced, from)
    ensures FromFirst(groups, chosen, merged, first, n + 1, reduced + [groups[n]], from + [n])
  {
    assert forall k | 0 <= k < |from| :: Origin(groups[..n], reduced[k], from[k]);
    assert forall k | 0 <= k < |from| :: Origin(groups[..n + 1], reduced[k], from[k]);
    assert n !in from;
  }

  lemma FromFirstStep(groups: seq<Group>, chosen: seq<bool>, merged: Group, first: nat, n: nat, reduced: seq<Group>,
                      from: seq<int>)
    requires n < |groups| == |chosen| && merged.grid && IsFirst(chosen, first)
    requires FromFirst(groups, chosen, merged, first, n, reduced, from)
    ensures FromFirst(groups, chosen, merged, first, n + 1, NextReduced(groups, chosen, merged, first, n, reduced),
                      NextFrom(chosen, first, n, from))
  {
    if n == first {
      FromMerged(groups, chosen, merged, first, n, reduced, from);
    } else if chosen[n] {
      FromChosen(groups, chosen, merged, first, n, reduced, from);
    } else {
      FromOther(groups, chosen, merged, first, n, reduced, from);
    }
  }

  lemma ReducedIsFrom(groups: seq<Group>, chosen: seq<bool>, merged: Group, first: nat)
    requires |groups| == |chosen| && merged.grid && IsFirst(chosen, first)
    ensures FromFirst(groups, chosen, merged, first, |groups|, Reduced(groups, chosen, merged, first, |groups|),
                      ReducedFrom(chosen, first, |groups|))
  {
    var holds := (k: nat, reduced: seq<Group>, from: seq<int>) => FromFirst(groups, chosen, merged, first, k, reduced, from);
    forall k: nat, reduced, from | k < |groups| && holds(k, reduced, from)
      ensures holds(k + 1, NextReduced(groups, chosen, merged, first, k, reduced), NextFrom(chosen, first, k, from))
    {
      FromFirstStep(groups, chosen, merged, first, k, reduced, from);
    }
    assert holds(0, [], []);
    ReducedInduction(groups, chosen, merged, first, |groups|, holds);
  }

  lemma {:induction false} ShareContains(groups: seq<Group>, chosen: seq<bool>, i: nat, n: nat)
    requires i < n <= |groups| == |chosen| && chosen[i]
    ensures multiset(groups[i].lines) <= Share(groups, chosen, true, n)
  {
    if i < n - 1 {
      ShareContains(groups, chosen, i, n - 1);
    }
  }

  /** The chosen groups go into the merged one, the others stay. */
  lemma ReducedDescends(groups: seq<Group>, chosen: seq<bool>, merged: Group, first: nat)
    requires |groups| == |chosen| && merged.grid && IsFirst(chosen, first)
    requires forall i: nat | i < |groups| && chosen[i] :: !groups[i].grid
    requires multiset(merged.lines) == Share(groups, chosen, true, |groups|)
    ensures Descends(groups, Reduced(groups, chosen, merged, first, |groups|))
  {
    var reduced, from := Reduced(groups, chosen, merged, first, |groups|), ReducedFrom(chosen, first, |groups|);
    ReducedIsFrom(groups, chosen, merged, first);
    assert groups[..|groups|] == groups;
    var k: nat :| k < |from| && from[k] == -1;
    forall i | 0 <= i < |groups| && i !in from
      ensures !groups[i].grid && Swallowed(multiset(groups[i].lines), reduced, from)
    {
      ShareContains(groups, chosen, i, |groups|);
      assert from[k] < 0 && multiset(groups[i].lines) <= multiset(reduced[k].lines);
    }
    assert Survives(groups, reduced, from);
  }

  // ---- the whole merge ----

  lemma {:induction false} ReducedMembers(groups: seq<Group>, chosen: seq<bool>, merged: Group, first: nat, n: nat)
    requires n <= |groups| == |chosen|
    ensures forall g | g in Reduced(groups, chosen, merged, first, n) :: g == merged || g in groups
  {
    if n > 0 {
      ReducedMembers(groups, chosen, merged, first, n - 1);
    }
  }

  ghost predicate AllInRows(text: seq<TextLine>, groups: seq<Group>, medianHeight: real) {
    InRowsUpTo(text, groups, |groups|, medianHeight)
  }

  lemma ReducedKeepsShape(text: seq<TextLine>, groups: seq<Group>, chosen: seq<bool>, merged: Group, first: nat,
                          medianHeight: real)
    requires |groups| == |chosen| && AllWellFormed(text, groups) && WellFormed(text, merged)
    requires InRows(text, merged.lines, RowTolerance(medianHeight))
    ensures var reduced := Reduced(groups, chosen, merged, first, |groups|);
            AllWellFormed(text, reduced) && (AllInRows(text, groups, medianHeight) ==> AllInRows(text, reduced, medianHeight))
  {
    var reduced := Reduced(groups, chosen, merged, first, |groups|);
    ReducedMembers(groups, chosen, merged, first, |groups|);
    forall i | 0 <= i < |reduced|
      ensures WellFormed(text, reduced[i])
      ensures AllInRows(text, groups, medianHeight) ==> InRows(text, reduced[i].lines, RowTolerance(medianHeight))
    {
      assert reduced[i] in reduced;
      if reduced[i] != merged {
        var k :| 0 <= k < |groups| && groups[k] == reduced[i];
        assert WellFormed(text, groups[k]);
      }
    }
  }

  /** The merged group stands where the first chosen one was; the others close up. */
  method Reduce(groups: seq<Group>, chosen: seq<bool>, merged: Group, first: nat) returns (reduced: seq<Group>)
    requires |chosen| == |groups| && IsFirst(chosen, first)
    ensures reduced == Reduced(groups, chosen, merged, first, |groups|)
  {
    reduced := [];
    for i := 0 to |groups|
      invariant reduced == Reduced(groups, chosen, merged, first, i)
    {
      if i == first {
        reduced := reduced + [merged];
      }
      if !chosen[i] {
        reduced := reduced + [groups[i]];
      }
    }
  }

  /** What one round of merging, or several, does to the groups; `count` groups went into merged ones. */
  ghost predicate Merges(text: seq<TextLine>, groups: seq<Group>, medianHeight: real, result: seq<Group>, count: nat) {
    && AllWellFormed(text, result) && LinesOf(result) == LinesOf(groups) && Descends(groups, result)
    && |groups| - |result| == count - (GridCount(result) - GridCount(groups))
    && (AllInRows(text, groups, medianHeight) ==> AllInRows(text, result, medianHeight))
  }

  lemma MergesTransitive(text: seq<TextLine>, a: seq<Group>, medianHeight: real, b: seq<Group>, m: nat, c: seq<Group>, n: nat)
    requires Merges(text, a, medianHeight, b, m) && Merges(text, b, medianHeight, c, n)
    ensures Merges(text, a, medianHeight, c, m + n)
  {
    DescendsTransitive(a, b, c);
  }

  lemma ReducedMerges(text: seq<TextLine>, groups: seq<Group>, chosen: seq<bool>, merged: Group, first: nat, medianHeight: real)
    requires AllWellFormed(text, groups) && WellFormed(text, merged) && merged.grid
    requires |chosen| == |groups| && IsFirst(chosen, first)
    requires forall i: nat | i < |groups| && chosen[i] :: !groups[i].grid
    requires multiset(merged.lines) == Share(groups, chosen, true, |groups|)
    requires InRows(text, merged.lines, RowTolerance(medianHeight))
    ensures var reduced := Reduced(groups, chosen, merged, first, |groups|);
            Merges(text, groups, medianHeight, reduced, Count(chosen)) && |reduced| + Count(chosen) == |groups| + 1
  {
    ReducedLines(groups, chosen, merged, first);
    ReducedCount(groups, chosen, merged, first);
    ReducedGridCount(groups, chosen, merged, first);
    ReducedDescends(groups, chosen, merged, first);
    ReducedKeepsShape(text, groups, chosen, merged, first, medianHeight);
  }

  ghost predicate ProperLines(text: seq<TextLine>, lines: multiset<int>) {
    forall l | l in lines :: ValidBox(BoxAt(text, l))
  }

  lemma HullsAreProper(text: seq<TextLine>, groups: seq<Group>)
    requires AllWellFormed(text, groups) && ProperLines(text, LinesOf(groups))
    ensures AllProper(groups)
  {
    forall i | 0 <= i < |groups|
      ensures Proper(groups[i])
    {
      LinesOfContains(groups, i);
      var line := groups[i].lines[0];
      assert WellFormed(text, groups[i]) && line in groups[i].lines && line in multiset(groups[i].lines);
      assert Covers(groups[i].bbox, BoxAt(text, line));
    }
  }

  /** One round: the selected grid and what lies inside it become one group. */
  method MergeGrid(text: seq<TextLine>, groups: seq<Group>, medianHeight: real, rules: GridRules, selected: seq<nat>)
    returns (result: seq<Group>, count: nat)
    requires AllWellFormed(text, groups) && IsGrid(groups, rules, selected)
    ensures Merges(text, groups, medianHeight, result, count) && |result| + count == |groups| + 1 && count >= 6
  {
    SelectedAreCandidates(groups, rules, selected);
    var chosen := MergeFlags(groups, selected, rules);
    var first := FirstChosen(chosen);
    var merged := MergeChosen(text, groups, chosen, first, medianHeight);
    ReducedMerges(text, groups, chosen, merged, first, medianHeight);
    result := Reduce(groups, chosen, merged, first);
    count := Count(chosen);
  }

  /**
    Merges grids until none is left, which ends because each round takes at least five
    groups away. No line is lost or repeated, rows stay rows, every group that is not
    merged stays as it is, and the count adds up. A list without a grid is left alone,
    so doing it twice is doing it once.
   */
  method CoalesceDenseGridGroups(text: seq<TextLine>, groups: seq<Group>, medianHeight: real, rules: GridRules)
    returns (result: seq<Group>, coalesced: nat)
    requires AllWellFormed(text, groups) && ProperLines(text, LinesOf(groups)) && Symmetric(rules)
    ensures Merges(text, groups, medianHeight, result, coalesced)
    ensures medianHeight > 0.0 ==> NoGrid(result, rules)
    ensures medianHeight <= 0.0 || NoGrid(groups, rules) ==> result == groups && coalesced == 0
  {
    result, coalesced := groups, 0;
    DescendsFromItself(groups);
    if |groups| < 6 {
      FewGroupsNoGrid(groups, rules);
      return;
    }
    if medianHeight <= 0.0 { return; }
    while true
      invariant Merges(text, groups, medianHeight, result, coalesced)
      invariant NoGrid(groups, rules) ==> result == groups && coalesced == 0
      decreases |result|
    {
      HullsAreProper(text, result);
      var selected := SelectGrid(result, rules);
      if selected == [] { break; }
      var reduced, count := MergeGrid(text, result, medianHeight, rules, selected);
      MergesTransitive(text, groups, medianHeight, result, coalesced, reduced, count);
      result, coalesced := reduced, coalesced + count;
    }
  }

  lemma FewGroupsNoGrid(groups: seq<Group>, rules: GridRules)
    requires |groups| < 6
    ensures NoGrid(groups, rules)
  {
    forall component: seq<nat>
      ensures !IsGrid(groups, rules, component)
    {
      if IsComponent(groups, rules, component) {
        DistinctFits(component, |groups|);
      }
    }
  }
}
