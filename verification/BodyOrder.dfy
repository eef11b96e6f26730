/**
  Ordering the body of a page: captions are set aside, the rest is ordered as a group,
  and each caption is put behind the figure or table it belongs to.
 */
module BodyOrder {
  import opened Wrappers
  import opened LayoutModel
  import opened ReadingOrderModel
  import opened Sequences
  import opened Sorting
  import opened BandGraph
  import opened BandOrder
  import opened BandDivision
  import opened GroupTrace
  import opened GroupOrder

  predicate IsCaption(b: LayoutBlock) {
    b.kind == Text && (b.sourceLabel == "Caption" || b.sourceLabel == "caption" || b.sourceLabel == "figure_title")
  }

  predicate IsVisual(b: LayoutBlock) { b.kind == Figure || b.kind == Table }

  /** t is the first element carrying the id that caption i names, and it is a figure or table. */
  ghost predicate CaptionOf(elements: seq<PageElement>, i: nat, t: nat) {
    && i < |elements| && t < |elements| && t != i
    && elements[i].block.kind == Text && elements[i].block.sourceLabel in {"Caption", "caption", "figure_title"}
    && (elements[t].block.kind == Figure || elements[t].block.kind == Table)
    && elements[t].block.id == elements[i].block.relatedBlockId
    && forall j | 0 <= j < t :: elements[j].block.id != elements[i].block.relatedBlockId
  }

  ghost predicate IsRoot(elements: seq<PageElement>, i: nat) {
    i < |elements| && forall t: nat :: !CaptionOf(elements, i, t)
  }

  /** The index of the first element with each id. */
  method IndexById(elements: seq<PageElement>) returns (byId: map<string, nat>)
    ensures IndexesFirst(elements, byId)
  {
    byId := map[];
    for i := 0 to |elements|
      invariant IndexesFirst(elements[..i], byId)
    {
      IndexedOneMore(elements, i, byId);
      if elements[i].block.id !in byId {
        byId := byId[elements[i].block.id := i];
      }
    }
    assert elements[..|elements|] == elements;
  }

  lemma IndexedOneMore(elements: seq<PageElement>, i: nat, byId: map<string, nat>)
    requires i < |elements| && IndexesFirst(elements[..i], byId)
    ensures var id := elements[i].block.id;
            IndexesFirst(elements[..i + 1], if id in byId then byId else byId[id := i])
  {
    assert elements[..i + 1][i].block.id == elements[i].block.id;
    assert forall j | 0 <= j < i :: elements[..i + 1][j] == elements[..i][j];
  }

  /** captions[t] lists the captions of t in index order. */
  ghost predicate CaptionLists(elements: seq<PageElement>, captions: seq<seq<nat>>, upTo: nat) {
    && |captions| == |elements|
    && (forall t, i: nat | 0 <= t < |captions| :: i in captions[t] <==> i < upTo && CaptionOf(elements, i, t))
    && forall t | 0 <= t < |captions| :: Ascending(captions[t])
  }

  lemma CaptionTargetIsUnique(elements: seq<PageElement>, i: nat, t: nat, u: nat)
    requires CaptionOf(elements, i, t) && CaptionOf(elements, i, u)
    ensures t == u
  {
  }

  ghost predicate IndexesFirst(elements: seq<PageElement>, byId: map<string, nat>) {
    && (forall id :: id in byId <==> exists j | 0 <= j < |elements| :: elements[j].block.id == id)
    && forall id | id in byId ::
      && byId[id] < |elements| && elements[byId[id]].block.id == id
      && forall j | 0 <= j < byId[id] :: elements[j].block.id != id
  }

  /** The figure or table that element i is a caption of, if any. */
  method FindTarget(elements: seq<PageElement>, byId: map<string, nat>, i: nat) returns (target: Option<nat>)
    requires i < |elements| && IndexesFirst(elements, byId)
    ensures target.Some? ==> CaptionOf(elements, i, target.value)
    ensures target.None? ==> IsRoot(elements, i)
  {
    var block := elements[i].block;
    if IsCaption(block) && block.relatedBlockId in byId && byId[block.relatedBlockId] != i
       && IsVisual(elements[byId[block.relatedBlockId]].block) {
      return Some(byId[block.relatedBlockId]);
    }
    return None;
  }

  method CollectCaptions(elements: seq<PageElement>) returns (captions: seq<seq<nat>>, roots: seq<nat>)
    ensures CaptionLists(elements, captions, |elements|)
    ensures RootsListed(elements, roots)
  {
    var byId := IndexById(elements);
    captions, roots := seq(|elements|, _ => []), [];
    for i := 0 to |elements|
      invariant CaptionLists(elements, captions, i)
      invariant Ascending(roots) && forall r: nat :: r in roots <==> r < i && IsRoot(elements, r)
    {
      var target := FindTarget(elements, byId, i);
      if target.Some? {
        AppendCaption(elements, captions, i, target.value);
        captions := captions[target.value := captions[target.value] + [i]];
      } else {
        assert forall k | 0 <= k < |roots| :: roots[k] in roots;
        roots := roots + [i];
        SkipCaption(elements, captions, i);
      }
    }
  }

  lemma AppendCaption(elements: seq<PageElement>, captions: seq<seq<nat>>, i: nat, t: nat)
    requires CaptionLists(elements, captions, i) && CaptionOf(elements, i, t)
    ensures CaptionLists(elements, captions[t := captions[t] + [i]], i + 1)
  {
    var more := captions[t := captions[t] + [i]];
    forall u, c: nat | 0 <= u < |more|
      ensures c in more[u] <==> c < i + 1 && CaptionOf(elements, c, u)
    {
      if c == i && CaptionOf(elements, i, u) {
        CaptionTargetIsUnique(elements, i, t, u);
      }
    }
    assert forall k | 0 <= k < |captions[t]| :: captions[t][k] in captions[t];
  }

  lemma SkipCaption(elements: seq<PageElement>, captions: seq<seq<nat>>, i: nat)
    requires CaptionLists(elements, captions, i) && IsRoot(elements, i)
    ensures CaptionLists(elements, captions, i + 1)
  {
  }

  /** The captions of t, in page position. */
  ghost predicate SortedCaptions(elements: seq<PageElement>, t: nat, children: seq<nat>) {
    && PositionSorted(elements, children) && Distinct(children)
    && forall i: nat :: i in children <==> CaptionOf(elements, i, t)
  }

  /** Each root followed by its captions. */
  ghost function Expanded(roots: seq<nat>, children: seq<seq<nat>>, k: nat): seq<nat>
    requires k <= |roots| && k <= |children|
  {
    if k == 0 then [] else Expanded(roots, children, k - 1) + [roots[k - 1]] + children[k - 1]
  }

  ghost predicate ChildrenOf(elements: seq<PageElement>, roots: seq<nat>, children: seq<seq<nat>>) {
    && |children| <= |roots|
    && forall k | 0 <= k < |children| :: SortedCaptions(elements, roots[k], children[k])
  }

  ghost predicate RootsListed(elements: seq<PageElement>, roots: seq<nat>) {
    Ascending(roots) && forall i: nat :: i in roots <==> IsRoot(elements, i)
  }

  /** The roots, ordered as a group of their own. */
  ghost predicate RootsOrdered(elements: seq<PageElement>, infer: ColumnInference, roots: seq<nat>,
                               rootOrder: seq<nat>, ordered: seq<nat>)
  {
    && RootsListed(elements, roots) && (forall i | 0 <= i < |roots| :: roots[i] < |elements|)
    && GroupOrdered(Local(elements, roots), infer, rootOrder)
    && |ordered| == |rootOrder|
    && forall k | 0 <= k < |rootOrder| :: rootOrder[k] < |roots| && ordered[k] == roots[rootOrder[k]]
  }

  lemma OrderedRoots(elements: seq<PageElement>, infer: ColumnInference, roots: seq<nat>, rootOrder: seq<nat>,
                     ordered: seq<nat>)
    requires RootsOrdered(elements, infer, roots, rootOrder, ordered)
    ensures Distinct(ordered) && forall i: nat :: i in ordered <==> IsRoot(elements, i)
  {
    GroupIsPermutation(Local(elements, roots), infer, rootOrder);
    RearrangedMembers(roots, rootOrder, ordered);
  }

  /** The ordered roots, each followed directly by its captions. */
  ghost predicate BodyLayout(elements: seq<PageElement>, infer: ColumnInference, roots: seq<nat>, rootOrder: seq<nat>,
                             ordered: seq<nat>, children: seq<seq<nat>>, order: seq<nat>)
  {
    && RootsOrdered(elements, infer, roots, rootOrder, ordered)
    && |ordered| == |children| && ChildrenOf(elements, ordered, children)
    && order == Expanded(ordered, children, |ordered|)
  }

  ghost predicate BodyOrdered(elements: seq<PageElement>, infer: ColumnInference, order: seq<nat>) {
    exists roots, rootOrder, ordered, children ::
      BodyLayout(elements, infer, roots, rootOrder, ordered, children, order)
  }

  lemma GroupIsPermutation(elements: seq<PageElement>, infer: ColumnInference, order: seq<nat>)
    requires GroupOrdered(elements, infer, order)
    ensures IsPermutation(order, |elements|)
  {
    if elements != [] {
      var separators, results :| GroupLayout(elements, infer, separators, results, order);
      GroupIsPermuted(elements, infer, separators, results, order);
    }
  }

  ghost predicate Belongs(elements: seq<PageElement>, root: nat, i: nat) {
    i == root || CaptionOf(elements, i, root)
  }

  ghost predicate ExpandedMembers(elements: seq<PageElement>, roots: seq<nat>, k: nat, expanded: seq<nat>)
    requires k <= |roots|
  {
    Distinct(expanded) && forall i: nat :: i in expanded <==> exists r | 0 <= r < k :: Belongs(elements, roots[r], i)
  }

  lemma {:induction false} ExpandedContains(elements: seq<PageElement>, roots: seq<nat>, children: seq<seq<nat>>, k: nat)
    requires ChildrenOf(elements, roots, children) && k <= |children|
    requires Distinct(roots) && forall r | 0 <= r < |roots| :: IsRoot(elements, roots[r])
    ensures ExpandedMembers(elements, roots, k, Expanded(roots, children, k))
  {
    if k > 0 {
      ExpandedContains(elements, roots, children, k - 1);
      AppendFamily(elements, roots, k - 1, Expanded(roots, children, k - 1), children[k - 1]);
    }
  }

  lemma FamiliesAreDisjoint(elements: seq<PageElement>, a: nat, b: nat, i: nat)
    requires IsRoot(elements, a) && IsRoot(elements, b) && Belongs(elements, a, i) && Belongs(elements, b, i)
    ensures a == b
  {
    if CaptionOf(elements, i, a) && CaptionOf(elements, i, b) {
      CaptionTargetIsUnique(elements, i, a, b);
    }
  }

  lemma AppendFamily(elements: seq<PageElement>, roots: seq<nat>, k: nat, before: seq<nat>, children: seq<nat>)
    requires k < |roots| && Distinct(roots) && forall r | 0 <= r < |roots| :: IsRoot(elements, roots[r])
    requires ExpandedMembers(elements, roots, k, before) && SortedCaptions(elements, roots[k], children)
    ensures ExpandedMembers(elements, roots, k + 1, before + [roots[k]] + children)
  {
    var family := [roots[k]] + children;
    assert before + [roots[k]] + children == before + family;
    assert !CaptionOf(elements, roots[k], roots[k]);
    forall i: nat
      ensures i in family <==> Belongs(elements, roots[k], i)
    {
    }
    DistinctConcat([roots[k]], children);
    forall i | i in family
      ensures i !in before
    {
      if i in before {
        var r :| 0 <= r < k && Belongs(elements, roots[r], i);
        FamiliesAreDisjoint(elements, roots[r], roots[k], i);
      }
    }
    DistinctConcat(before, family);
    forall i: nat
      ensures i in before + family <==> exists r | 0 <= r < k + 1 :: Belongs(elements, roots[r], i)
    {
      assert i in before + family <==> i in before || i in family;
      if i in before {
        var r :| 0 <= r < k && Belongs(elements, roots[r], i);
      } else if i in family {
        assert Belongs(elements, roots[k], i);
      }
    }
  }

  /** A body's order contains each element exactly once. */
  lemma BodyIsPermutation(elements: seq<PageElement>, infer: ColumnInference, order: seq<nat>)
    requires BodyOrdered(elements, infer, order)
    ensures IsPermutation(order, |elements|)
  {
    var roots, rootOrder, ordered, children :| BodyLayout(elements, infer, roots, rootOrder, ordered, children, order);
    OrderedRoots(elements, infer, roots, rootOrder, ordered);
    ExpandedIsPermutation(elements, ordered, children, order);
  }

  lemma ExpandedIsPermutation(elements: seq<PageElement>, roots: seq<nat>, children: seq<seq<nat>>, order: seq<nat>)
    requires Distinct(roots) && forall i: nat :: i in roots <==> IsRoot(elements, i)
    requires |roots| == |children| && ChildrenOf(elements, roots, children)
    requires order == Expanded(roots, children, |roots|)
    ensures IsPermutation(order, |elements|)
  {
    assert forall r | 0 <= r < |roots| :: roots[r] in roots;
    ExpandedContains(elements, roots, children, |roots|);
    MembersMakeThePage(elements, roots, order);
  }

  lemma MembersMakeThePage(elements: seq<PageElement>, roots: seq<nat>, order: seq<nat>)
    requires forall i: nat :: i in roots <==> IsRoot(elements, i)
    requires ExpandedMembers(elements, roots, |roots|, order)
    ensures IsPermutation(order, |elements|)
  {
    forall i: nat
      ensures i in order <==> i < |elements|
    {
      if i < |elements| {
        EveryElementHasARoot(elements, roots, i);
      }
      if r :| 0 <= r < |roots| && Belongs(elements, roots[r], i) {
        assert roots[r] in roots;
      }
    }
    assert forall k | 0 <= k < |order| :: order[k] in order;
    DistinctSize(order);
    assert Elements(order) == Range(|elements|);
  }

  lemma EveryElementHasARoot(elements: seq<PageElement>, roots: seq<nat>, i: nat)
    requires i < |elements| && forall r: nat :: r in roots <==> IsRoot(elements, r)
    ensures exists r | 0 <= r < |roots| :: Belongs(elements, roots[r], i)
  {
    if IsRoot(elements, i) {
      assert i in roots;
      var r :| 0 <= r < |roots| && roots[r] == i;
      assert Belongs(elements, roots[r], i);
    } else {
      var t: nat :| CaptionOf(elements, i, t);
      assert IsRoot(elements, t);
      assert t in roots;
      var r :| 0 <= r < |roots| && roots[r] == t;
      assert Belongs(elements, roots[r], i);
    }
  }

  /** From position p on, the order reads t and then its captions. */
  ghost predicate FollowsAt(order: seq<nat>, p: nat, t: nat, children: seq<nat>) {
    && p + 1 + |children| <= |order| && order[p] == t
    && order[p + 1..p + 1 + |children|] == children
  }

  /** The captions of t stand, in page position, directly behind t. */
  ghost predicate CaptionsFollow(elements: seq<PageElement>, order: seq<nat>, t: nat) {
    exists p: nat, children :: SortedCaptions(elements, t, children) && FollowsAt(order, p, t, children)
  }

  lemma FollowsInExtension(before: seq<nat>, tail: seq<nat>, p: nat, t: nat, children: seq<nat>)
    requires FollowsAt(before, p, t, children)
    ensures FollowsAt(before + tail, p, t, children)
  {
    assert (before + tail)[..|before|] == before;
    assert (before + tail)[p + 1..p + 1 + |children|] == (before + tail)[..|before|][p + 1..p + 1 + |children|];
  }

  lemma {:induction false} ExpandedFamilyPosition(elements: seq<PageElement>, roots: seq<nat>, children: seq<seq<nat>>,
                                                  k: nat, r: nat) returns (p: nat)
    requires r < k <= |children| && |children| <= |roots|
    ensures FollowsAt(Expanded(roots, children, k), p, roots[r], children[r])
  {
    var before := Expanded(roots, children, k - 1);
    var family := [roots[k - 1]] + children[k - 1];
    assert Expanded(roots, children, k) == before + family;
    if r == k - 1 {
      p := |before|;
    } else {
      p := ExpandedFamilyPosition(elements, roots, children, k - 1, r);
      FollowsInExtension(before, family, p, roots[r], children[r]);
    }
  }

  lemma CaptionsFollowTheirTargets(elements: seq<PageElement>, infer: ColumnInference, order: seq<nat>, t: nat)
    requires BodyOrdered(elements, infer, order) && IsRoot(elements, t)
    ensures CaptionsFollow(elements, order, t)
  {
    var roots, rootOrder, ordered, children :| BodyLayout(elements, infer, roots, rootOrder, ordered, children, order);
    OrderedRoots(elements, infer, roots, rootOrder, ordered);
    assert t in ordered;
    var r :| 0 <= r < |ordered| && ordered[r] == t;
    var p := ExpandedFamilyPosition(elements, ordered, children, |ordered|, r);
  }

  // ---- the trace ----

  ghost predicate HasPlacement(placements: seq<Placement>, id: string) {
    exists p | 0 <= p < |placements| :: placements[p].blockId == id
  }

  /** The first placement with the id. */
  function LookedUp(placements: seq<Placement>, id: string): Placement {
    if placements == [] then Placement("", "", 0, 0, 0, "")
    else if placements[0].blockId == id then placements[0]
    else LookedUp(placements[1..], id)
  }

  lemma {:induction false} LookedUpBehind(placements: seq<Placement>, p: Placement, id: string)
    ensures LookedUp(placements + [p], id) ==
            if HasPlacement(placements, id) then LookedUp(placements, id)
            else if p.blockId == id then p else LookedUp([], id)
  {
    if placements == [] {
      assert placements + [p] == [p];
    } else {
      assert (placements + [p])[1..] == placements[1..] + [p];
      LookedUpBehind(placements[1..], p, id);
      HasPlacementAhead(placements, id);
    }
  }

  lemma HasPlacementAhead(placements: seq<Placement>, id: string)
    requires placements != []
    ensures HasPlacement(placements, id) <==> placements[0].blockId == id || HasPlacement(placements[1..], id)
  {
    if HasPlacement(placements[1..], id) {
      var p :| 0 <= p < |placements| - 1 && placements[1..][p].blockId == id;
      assert placements[p + 1].blockId == id;
    }
    if HasPlacement(placements, id) && placements[0].blockId != id {
      var p :| 0 <= p < |placements| && placements[p].blockId == id;
      assert placements[1..][p - 1].blockId == id;
    }
  }

  lemma PlacementAppended(placements: seq<Placement>, p: Placement, id: string)
    ensures HasPlacement(placements + [p], id) <==> HasPlacement(placements, id) || p.blockId == id
  {
    var more := placements + [p];
    assert more[|placements|] == p;
    if HasPlacement(placements, id) {
      var k :| 0 <= k < |placements| && placements[k].blockId == id;
      assert more[k].blockId == id;
    }
  }

  ghost predicate FirstOfEach(placements: seq<Placement>, byId: map<string, Placement>) {
    && (forall id :: id in byId <==> HasPlacement(placements, id))
    && forall id | id in byId :: byId[id] == LookedUp(placements, id)
  }

  lemma OnePlacementMore(placements: seq<Placement>, p: Placement, byId: map<string, Placement>)
    requires FirstOfEach(placements, byId)
    ensures FirstOfEach(placements + [p], if p.blockId in byId then byId else byId[p.blockId := p])
  {
    forall id
      ensures HasPlacement(placements + [p], id) <==> HasPlacement(placements, id) || p.blockId == id
      ensures LookedUp(placements + [p], id) ==
              if HasPlacement(placements, id) then LookedUp(placements, id)
              else if p.blockId == id then p else LookedUp([], id)
    {
      PlacementAppended(placements, p, id);
      LookedUpBehind(placements, p, id);
    }
  }

  /** The first placement recorded for each block id. */
  method PlacementsById(placements: seq<Placement>) returns (byId: map<string, Placement>)
    ensures FirstOfEach(placements, byId)
  {
    byId := map[];
    for i := 0 to |placements|
      invariant FirstOfEach(placements[..i], byId)
    {
      assert placements[..i + 1] == placements[..i] + [placements[i]];
      OnePlacementMore(placements[..i], placements[i], byId);
      if placements[i].blockId !in byId {
        byId := byId[placements[i].blockId := placements[i]];
      }
    }
    assert placements[..|placements|] == placements;
  }

  /** A caption stands where its target stands, under its own id. */
  function CopyFor(elements: seq<PageElement>, root: nat, p: Placement, caption: nat): Placement {
    p.(blockId := IdAt(elements)(caption), parentId := IdAt(elements)(root))
  }

  function CaptionPlacement(elements: seq<PageElement>, root: nat, p: Placement): nat -> Placement {
    (caption: nat) => CopyFor(elements, root, p, caption)
  }

  /** Nothing but the count of captions changes beside the placements. */
  ghost predicate OnlyCaptions(before: Trace, after: Trace, captions: nat) {
    && after.cycleBreaks == before.cycleBreaks
    && forall reason :: CountOf(after.edgeCounts, reason) ==
         CountOf(before.edgeCounts, reason) + (if reason == "caption_target" then captions else 0)
  }

  /** Appends a root's captions, each with a copy of the root's placement. */
  method AppendCaptions(elements: seq<PageElement>, root: nat, children: seq<nat>, placement: Placement, trace: Trace)
    returns (trace': Trace)
    requires root < |elements| && forall i | 0 <= i < |children| :: children[i] < |elements|
    ensures trace'.placements == trace.placements + Map(children, CaptionPlacement(elements, root, placement))
    ensures OnlyCaptions(trace, trace', |children|)
  {
    trace' := trace;
    for i := 0 to |children|
      invariant |trace'.placements| == |trace.placements| + i && trace.placements <= trace'.placements
      invariant forall k | 0 <= k < i ::
        trace'.placements[|trace.placements| + k] == CaptionPlacement(elements, root, placement)(children[k])
      invariant OnlyCaptions(trace, trace', i)
    {
      var copy := placement.(blockId := elements[children[i]].block.id, parentId := elements[root].block.id);
      assert copy == CopyFor(elements, root, placement, children[i]);
      var count := CountOf(trace'.edgeCounts, "caption_target") + 1;
      trace' := trace'.(placements := trace'.placements + [copy],
                        edgeCounts := trace'.edgeCounts["caption_target" := count]);
    }
  }

  /** The copies for the captions of the first k roots. */
  ghost function Copies(elements: seq<PageElement>, source: seq<Placement>, roots: seq<nat>, children: seq<seq<nat>>,
                        k: nat): seq<Placement>
    requires k <= |roots| && k <= |children|
  {
    if k == 0 then []
    else Copies(elements, source, roots, children, k - 1) + CopiesOfOne(elements, source, roots[k - 1], children[k - 1])
  }

  ghost function CopiesOfOne(elements: seq<PageElement>, source: seq<Placement>, root: nat, own: seq<nat>): seq<Placement> {
    Map(own, CaptionPlacement(elements, root, LookedUp(source, IdAt(elements)(root))))
  }

  /** All captions, root by root. */
  ghost function Flat(children: seq<seq<nat>>, k: nat): seq<nat>
    requires k <= |children|
  {
    if k == 0 then [] else Flat(children, k - 1) + children[k - 1]
  }

  lemma {:induction false} CopiesPrefix(elements: seq<PageElement>, source: seq<Placement>, roots: seq<nat>,
                                        children: seq<seq<nat>>, own: seq<nat>, k: nat)
    requires k <= |roots| && k <= |children|
    ensures Copies(elements, source, roots, children + [own], k) == Copies(elements, source, roots, children, k)
    ensures Flat(children + [own], k) == Flat(children, k)
  {
    if k > 0 {
      CopiesPrefix(elements, source, roots, children, own, k - 1);
    }
  }

  /** A copy carries the caption's id. */
  lemma {:induction false} CopiesCarryIds(elements: seq<PageElement>, source: seq<Placement>, roots: seq<nat>,
                                          children: seq<seq<nat>>, k: nat)
    requires k <= |roots| && k <= |children|
    ensures PlacedIds(Copies(elements, source, roots, children, k)) == IdsAt(elements, Flat(children, k))
  {
    if k > 0 {
      CopiesCarryIds(elements, source, roots, children, k - 1);
      var own := CopiesOfOne(elements, source, roots[k - 1], children[k - 1]);
      MapConcat(Copies(elements, source, roots, children, k - 1), own, (p: Placement) => p.blockId);
      MapConcat(Flat(children, k - 1), children[k - 1], IdAt(elements));
      assert PlacedIds(own) == IdsAt(elements, children[k - 1]);
    }
  }

  lemma {:induction false} ExpandedCounts(roots: seq<nat>, children: seq<seq<nat>>, k: nat)
    requires k <= |roots| && k <= |children|
    ensures multiset(Expanded(roots, children, k)) == multiset(roots[..k]) + multiset(Flat(children, k))
  {
    if k > 0 {
      ExpandedCounts(roots, children, k - 1);
      OneMoreTaken(roots, k);
      CountsOneMore(Expanded(roots, children, k - 1), roots[..k - 1], Flat(children, k - 1), roots[k - 1], children[k - 1],
                    roots[..k]);
    }
  }

  lemma CountsOneMore(all: seq<nat>, front: seq<nat>, flat: seq<nat>, root: nat, own: seq<nat>, more: seq<nat>)
    requires multiset(all) == multiset(front) + multiset(flat)
    requires multiset(more) == multiset(front) + multiset{root}
    ensures multiset(all + [root] + own) == multiset(more) + multiset(flat + own)
  {
  }

  ghost predicate AllPlaced(elements: seq<PageElement>, s: seq<nat>, placements: seq<Placement>) {
    forall i | 0 <= i < |s| :: s[i] < |elements| && HasPlacement(placements, elements[s[i]].block.id)
  }

  lemma PlacedIdIsThere(placements: seq<Placement>, from: nat, id: string)
    requires from <= |placements| && id in PlacedIds(placements[from..])
    ensures HasPlacement(placements, id)
  {
    var k: nat :| k < |placements| - from && PlacedIds(placements[from..])[k] == id;
    assert placements[from + k].blockId == id;
  }

  /** Every root has been placed, so that no lookup can fail. */
  lemma RootsArePlaced(elements: seq<PageElement>, roots: seq<nat>, order: seq<nat>, ordered: seq<nat>, start: Mark, end: Mark)
    requires forall i | 0 <= i < |roots| :: roots[i] < |elements|
    requires PlacedOnce(Local(elements, roots), "body", start, end)
    requires |ordered| == |order| && forall k | 0 <= k < |order| :: order[k] < |roots| && ordered[k] == roots[order[k]]
    ensures AllPlaced(elements, ordered, end.trace.placements)
  {
    var local, from := Local(elements, roots), |start.trace.placements|;
    forall k | 0 <= k < |ordered|
      ensures ordered[k] < |elements| && HasPlacement(end.trace.placements, elements[ordered[k]].block.id)
    {
      var id := elements[ordered[k]].block.id;
      assert Ids(local)[order[k]] == id;
      assert id in multiset(Ids(local));
      assert id in multiset(PlacedIds(end.trace.placements[from..]));
      PlacedIdIsThere(end.trace.placements, from, id);
    }
  }

  // ---- the whole body ----

  /** Orders the roots as a group of their own. */
  method OrderRoots(elements: seq<PageElement>, roots: seq<nat>, infer: ColumnInference, nextBand: nat, trace: Trace)
    returns (ordered: seq<nat>, nextBand': nat, trace': Trace, ghost rootOrder: seq<nat>)
    requires DistinctIndices(elements) && RootsListed(elements, roots)
    ensures RootsOrdered(elements, infer, roots, rootOrder, ordered)
    ensures GroupRun(Local(elements, roots), infer, "body", Mark(nextBand, trace), rootOrder, Mark(nextBand', trace'))
    ensures TraceGrows(trace, trace') && AllPlaced(elements, ordered, trace'.placements)
  {
    assert forall i | 0 <= i < |roots| :: roots[i] in roots;
    var rootElements := [];
    for i := 0 to |roots|
      invariant |rootElements| == i && forall k | 0 <= k < i :: rootElements[k] == elements[roots[k]]
    {
      rootElements := rootElements + [elements[roots[i]]];
    }
    assert rootElements == Local(elements, roots);
    var order;
    order, nextBand', trace' := PredictGroupOrder(rootElements, "body", infer, nextBand, trace);
    ordered := Rearrange(roots, order);
    rootOrder := order;
    GroupPlacedOnce(rootElements, infer, "body", Mark(nextBand, trace), order, Mark(nextBand', trace'));
    RootsArePlaced(elements, roots, order, ordered, Mark(nextBand, trace), Mark(nextBand', trace'));
  }

  method SortCaptions(elements: seq<PageElement>, captions: seq<seq<nat>>, root: nat) returns (own: seq<nat>)
    requires DistinctIndices(elements) && CaptionLists(elements, captions, |elements|) && root < |elements|
    ensures SortedCaptions(elements, root, own)
  {
    assert forall i | 0 <= i < |captions[root]| :: captions[root][i] in captions[root];
    own := SortByPosition(elements, captions[root]);
  }

  /** The captions of the first k roots are recorded behind the roots. */
  ghost predicate CaptionsTraced(elements: seq<PageElement>, roots: seq<nat>, children: seq<seq<nat>>, k: nat,
                                 before: Trace, after: Trace)
  {
    && k <= |roots| && k <= |children|
    && after.placements == before.placements + Copies(elements, before.placements, roots, children, k)
    && OnlyCaptions(before, after, |Flat(children, k)|)
  }

  lemma CaptionsOneMore(elements: seq<PageElement>, roots: seq<nat>, children: seq<seq<nat>>, own: seq<nat>,
                        before: Trace, mid: Trace, after: Trace)
    requires |children| < |roots| && CaptionsTraced(elements, roots, children, |children|, before, mid)
    requires after.placements == mid.placements + CopiesOfOne(elements, before.placements, roots[|children|], own)
    requires OnlyCaptions(mid, after, |own|)
    ensures CaptionsTraced(elements, roots, children + [own], |children| + 1, before, after)
  {
    var k := |children|;
    CopiesPrefix(elements, before.placements, roots, children, own, k);
    assert Copies(elements, before.placements, roots, children + [own], k + 1) ==
           Copies(elements, before.placements, roots, children, k) +
           CopiesOfOne(elements, before.placements, roots[k], own);
  }

  /** The first roots, with their captions behind them and in the trace. */
  ghost predicate Inserted(elements: seq<PageElement>, roots: seq<nat>, children: seq<seq<nat>>, order: seq<nat>,
                           before: Trace, after: Trace)
  {
    && ChildrenOf(elements, roots, children) && order == Expanded(roots, children, |children|)
    && CaptionsTraced(elements, roots, children, |children|, before, after)
  }

  lemma FamilyInserted(elements: seq<PageElement>, roots: seq<nat>, children: seq<seq<nat>>, own: seq<nat>,
                       order: seq<nat>, before: Trace, mid: Trace, after: Trace)
    requires |children| < |roots| && Inserted(elements, roots, children, order, before, mid)
    requires SortedCaptions(elements, roots[|children|], own)
    requires after.placements == mid.placements + CopiesOfOne(elements, before.placements, roots[|children|], own)
    requires OnlyCaptions(mid, after, |own|)
    ensures Inserted(elements, roots, children + [own], order + [roots[|children|]] + own, before, after)
  {
    CaptionsOneMore(elements, roots, children, own, before, mid, after);
    ExpandedPrefix(roots, children, own, |children|);
  }

  /** Puts each root's captions directly behind it. */
  method InsertCaptions(elements: seq<PageElement>, ordered: seq<nat>, captions: seq<seq<nat>>, trace: Trace)
    returns (order: seq<nat>, trace': Trace, ghost children: seq<seq<nat>>)
    requires DistinctIndices(elements) && CaptionLists(elements, captions, |elements|)
    requires AllPlaced(elements, ordered, trace.placements)
    ensures |children| == |ordered| && Inserted(elements, ordered, children, order, trace, trace')
  {
    var placements := PlacementsById(trace.placements);
    children, order, trace' := [], [], trace;
    for k := 0 to |ordered|
      invariant |children| == k && Inserted(elements, ordered, children, order, trace, trace')
    {
      var root := ordered[k];
      var own := SortCaptions(elements, captions, root);
      assert elements[root].block.id in placements;  // the lookup cannot fail
      var grown := AppendCaptions(elements, root, own, placements[elements[root].block.id], trace');
      FamilyInserted(elements, ordered, children, own, order, trace, trace', grown);
      children, order, trace' := children + [own], order + [root] + own, grown;
    }
  }

  /** The roots as a group, their captions behind them, and the trace of both. */
  ghost predicate BodyLaidOut(elements: seq<PageElement>, infer: ColumnInference, roots: seq<nat>, rootOrder: seq<nat>,
                              ordered: seq<nat>, children: seq<seq<nat>>, start: Mark, order: seq<nat>, mid: Trace,
                              end: Mark)
  {
    && BodyLayout(elements, infer, roots, rootOrder, ordered, children, order)
    && GroupRun(Local(elements, roots), infer, "body", start, rootOrder, Mark(end.number, mid))
    && CaptionsTraced(elements, ordered, children, |ordered|, mid, end.trace)
  }

  ghost predicate BodyRun(elements: seq<PageElement>, infer: ColumnInference, start: Mark, order: seq<nat>, end: Mark) {
    exists roots: seq<nat>, rootOrder: seq<nat>, ordered: seq<nat>, children: seq<seq<nat>>, mid: Trace ::
      BodyLaidOut(elements, infer, roots, rootOrder, ordered, children, start, order, mid, end)
  }

  /** The trace has grown by exactly one placement for each element. */
  ghost predicate AddsEachOnce(elements: seq<PageElement>, before: Trace, after: Trace) {
    && before.placements <= after.placements
    && multiset(PlacedIds(after.placements[|before.placements|..])) == multiset(Ids(elements))
  }

  lemma IdsOfBoth(start: seq<Placement>, mid: seq<Placement>, copies: seq<Placement>)
    requires start <= mid
    ensures start <= mid + copies
    ensures PlacedIds((mid + copies)[|start|..]) == PlacedIds(mid[|start|..]) + PlacedIds(copies)
  {
    assert (mid + copies)[|start|..] == mid[|start|..] + copies;
    MapConcat(mid[|start|..], copies, (p: Placement) => p.blockId);
  }

  lemma LaidOutPlacedOnce(elements: seq<PageElement>, infer: ColumnInference, roots: seq<nat>, rootOrder: seq<nat>,
                          ordered: seq<nat>, children: seq<seq<nat>>, start: Mark, order: seq<nat>, mid: Trace, end: Mark)
    requires BodyLayout(elements, infer, roots, rootOrder, ordered, children, order) && IsPermutation(order, |elements|)
    requires GroupRun(Local(elements, roots), infer, "body", start, rootOrder, Mark(end.number, mid))
    requires CaptionsTraced(elements, ordered, children, |ordered|, mid, end.trace)
    ensures AddsEachOnce(elements, start.trace, end.trace)
  {
    var copies := Copies(elements, mid.placements, ordered, children, |ordered|);
    GroupPlacedOnce(Local(elements, roots), infer, "body", start, rootOrder, Mark(end.number, mid));
    CopiesCarryIds(elements, mid.placements, ordered, children, |ordered|);
    IdsOfBoth(start.trace.placements, mid.placements, copies);
    FamilyIds(elements, infer, roots, rootOrder, ordered, children, order);
  }

  /** A body's run places each element once, captions included. */
  lemma BodyPlacedOnce(elements: seq<PageElement>, infer: ColumnInference, start: Mark, order: seq<nat>, end: Mark)
    requires BodyRun(elements, infer, start, order, end)
    ensures AddsEachOnce(elements, start.trace, end.trace)
  {
    var roots, rootOrder, ordered, children, mid: Trace :|
      BodyLaidOut(elements, infer, roots, rootOrder, ordered, children, start, order, mid, end);
    BodyIsPermutation(elements, infer, order);
    LaidOutPlacedOnce(elements, infer, roots, rootOrder, ordered, children, start, order, mid, end);
  }

  // ---- the group a placement carries ----

  ghost predicate AllIn(placements: seq<Placement>, group: string) {
    forall i | 0 <= i < |placements| :: placements[i].group == group
  }

  /** Some caption's figure or table carries an id that was placed already, before the body. */
  ghost predicate TargetPlacedBefore(elements: seq<PageElement>, before: seq<Placement>) {
    exists i: nat, t: nat :: CaptionOf(elements, i, t) && HasPlacement(before, elements[t].block.id)
  }

  lemma {:induction false} LookedUpIn(placements: seq<Placement>, id: string)
    requires HasPlacement(placements, id)
    ensures LookedUp(placements, id) in placements
  {
    HasPlacementAhead(placements, id);
    if placements[0].blockId != id {
      LookedUpIn(placements[1..], id);
    }
  }

  /** The first placement of an id is looked for in the front part first. */
  lemma {:induction false} LookedUpInBoth(a: seq<Placement>, b: seq<Placement>, id: string)
    ensures LookedUp(a + b, id) == if HasPlacement(a, id) then LookedUp(a, id) else LookedUp(b, id)
  {
    if a == [] {
      assert a + b == b;
    } else {
      assert (a + b)[1..] == a[1..] + b;
      HasPlacementAhead(a, id);
      LookedUpInBoth(a[1..], b, id);
    }
  }

  lemma {:induction false} CopyFrom(elements: seq<PageElement>, source: seq<Placement>, roots: seq<nat>,
                                    children: seq<seq<nat>>, k: nat, j: nat)
    returns (r: nat, c: nat)
    requires k <= |roots| && k <= |children| && j < |Copies(elements, source, roots, children, k)|
    ensures r < k && c in children[r]
    ensures Copies(elements, source, roots, children, k)[j] ==
            CopyFor(elements, roots[r], LookedUp(source, IdAt(elements)(roots[r])), c)
  {
    var front := Copies(elements, source, roots, children, k - 1);
    if j < |front| {
      r, c := CopyFrom(elements, source, roots, children, k - 1, j);
    } else {
      r, c := k - 1, children[k - 1][j - |front|];
    }
  }

  lemma {:induction false} CopyOf(elements: seq<PageElement>, source: seq<Placement>, roots: seq<nat>,
                                  children: seq<seq<nat>>, k: nat, r: nat, c: nat)
    returns (j: nat)
    requires k <= |roots| && k <= |children| && r < k && c in children[r]
    ensures j < |Copies(elements, source, roots, children, k)|
    ensures Copies(elements, source, roots, children, k)[j] ==
            CopyFor(elements, roots[r], LookedUp(source, IdAt(elements)(roots[r])), c)
  {
    if r < k - 1 {
      j := CopyOf(elements, source, roots, children, k - 1, r, c);
    } else {
      var i :| 0 <= i < |children[r]| && children[r][i] == c;
      j := |Copies(elements, source, roots, children, k - 1)| + i;
    }
  }

  /** A caption's copy carries the group of what was first placed under its target's id. */
  lemma CopiedGroup(elements: seq<PageElement>, before: seq<Placement>, added: seq<Placement>, root: nat)
    requires root < |elements| && AllIn(before, "header") && AllIn(added, "body")
    requires HasPlacement(before + added, elements[root].block.id)
    ensures var group := LookedUp(before + added, IdAt(elements)(root)).group;
            (group == "header" || group == "body") &&
            (group == "header" <==> HasPlacement(before, elements[root].block.id))
  {
    var id := elements[root].block.id;
    LookedUpInBoth(before, added, id);
    if HasPlacement(before, id) {
      LookedUpIn(before, id);
    } else {
      var p :| 0 <= p < |before + added| && (before + added)[p].blockId == id;
      assert added[p - |before|].blockId == id;
      LookedUpIn(added, id);
    }
  }

  lemma CopiedGroups(elements: seq<PageElement>, before: seq<Placement>, added: seq<Placement>, roots: seq<nat>,
                     children: seq<seq<nat>>)
    requires AllIn(before, "header") && AllIn(added, "body") && AllPlaced(elements, roots, before + added)
    requires |children| == |roots| && ChildrenOf(elements, roots, children)
    requires forall i: nat :: i in roots <==> IsRoot(elements, i)
    ensures AllIn(Copies(elements, before + added, roots, children, |roots|), "body") <==>
            !TargetPlacedBefore(elements, before)
  {
    var copies := Copies(elements, before + added, roots, children, |roots|);
    if TargetPlacedBefore(elements, before) {
      var i: nat, t: nat :| CaptionOf(elements, i, t) && HasPlacement(before, elements[t].block.id);
      assert IsRoot(elements, t) && t in roots;
      var r: nat :| r < |roots| && roots[r] == t;
      assert SortedCaptions(elements, t, children[r]) && i in children[r];
      CopiedGroup(elements, before, added, t);
      var j := CopyOf(elements, before + added, roots, children, |roots|, r, i);
      assert copies[j].group == "header";
    } else {
      forall j | 0 <= j < |copies|
        ensures copies[j].group == "body"
      {
        var r, c := CopyFrom(elements, before + added, roots, children, |roots|, j);
        assert SortedCaptions(elements, roots[r], children[r]) && CaptionOf(elements, c, roots[r]);
        CopiedGroup(elements, before, added, roots[r]);
      }
    }
  }

  /** The ordered roots are all the roots, and placed. */
  lemma OrderedRootsArePlaced(elements: seq<PageElement>, infer: ColumnInference, roots: seq<nat>, rootOrder: seq<nat>,
                              ordered: seq<nat>, start: Mark, mid: Mark)
    requires RootsOrdered(elements, infer, roots, rootOrder, ordered)
    requires PlacedOnce(Local(elements, roots), "body", start, mid)
    ensures AllPlaced(elements, ordered, mid.trace.placements) && forall i: nat :: i in ordered <==> IsRoot(elements, i)
  {
    OrderedRoots(elements, infer, roots, rootOrder, ordered);
    RootsArePlaced(elements, roots, rootOrder, ordered, start, mid);
  }

  lemma AddedInBody(elements: seq<PageElement>, start: Mark, mid: Mark)
    requires PlacedOnce(elements, "body", start, mid)
    ensures start.trace.placements <= mid.trace.placements
    ensures AllIn(mid.trace.placements[|start.trace.placements|..], "body")
  {
  }

  lemma LaidOutGroups(elements: seq<PageElement>, infer: ColumnInference, roots: seq<nat>, rootOrder: seq<nat>,
                      ordered: seq<nat>, children: seq<seq<nat>>, start: Mark, mid: Mark)
    requires RootsOrdered(elements, infer, roots, rootOrder, ordered)
    requires |children| == |ordered| && ChildrenOf(elements, ordered, children)
    requires PlacedOnce(Local(elements, roots), "body", start, mid) && AllIn(start.trace.placements, "header")
    ensures AllIn(mid.trace.placements[|start.trace.placements|..], "body")
    ensures AllIn(Copies(elements, mid.trace.placements, ordered, children, |ordered|), "body") <==>
            !TargetPlacedBefore(elements, start.trace.placements)
  {
    var before := start.trace.placements;
    AddedInBody(Local(elements, roots), start, mid);
    var added := mid.trace.placements[|before|..];
    assert mid.trace.placements == before + added;
    OrderedRootsArePlaced(elements, infer, roots, rootOrder, ordered, start, mid);
    CopiedGroups(elements, before, added, ordered, children);
  }

  lemma BothIn(start: seq<Placement>, mid: seq<Placement>, copies: seq<Placement>, group: string)
    requires start <= mid && AllIn(mid[|start|..], group)
    ensures AllIn((mid + copies)[|start|..], group) <==> AllIn(copies, group)
  {
    var added := mid[|start|..];
    assert (mid + copies)[|start|..] == added + copies;
    assert forall i | 0 <= i < |copies| :: (added + copies)[|added| + i] == copies[i];
  }

  /** The body's placements are in the group "body", unless a caption's target shares its id with a header. */
  lemma BodyGroups(elements: seq<PageElement>, infer: ColumnInference, start: Mark, order: seq<nat>, end: Mark)
    requires BodyRun(elements, infer, start, order, end) && AllIn(start.trace.placements, "header")
    ensures start.trace.placements <= end.trace.placements
    ensures AllIn(end.trace.placements[|start.trace.placements|..], "body") <==>
            !TargetPlacedBefore(elements, start.trace.placements)
  {
    var roots, rootOrder, ordered, children, mid: Trace :|
      BodyLaidOut(elements, infer, roots, rootOrder, ordered, children, start, order, mid, end);
    GroupPlacedOnce(Local(elements, roots), infer, "body", start, rootOrder, Mark(end.number, mid));
    LaidOutGroups(elements, infer, roots, rootOrder, ordered, children, start, Mark(end.number, mid));
    BothIn(start.trace.placements, mid.placements, Copies(elements, mid.placements, ordered, children, |ordered|), "body");
  }

  /** The ids of the roots and of their captions are the ids of the body. */
  lemma FamilyIds(elements: seq<PageElement>, infer: ColumnInference, roots: seq<nat>, rootOrder: seq<nat>,
                  ordered: seq<nat>, children: seq<seq<nat>>, order: seq<nat>)
    requires BodyLayout(elements, infer, roots, rootOrder, ordered, children, order)
    requires IsPermutation(order, |elements|)
    ensures multiset(Ids(Local(elements, roots))) + multiset(IdsAt(elements, Flat(children, |ordered|))) ==
            multiset(Ids(elements))
  {
    var captions := Flat(children, |ordered|);
    OrderedRoots(elements, infer, roots, rootOrder, ordered);
    SameMembersSameMultiset(ordered, roots);
    FamilyCounts(ordered, children, order);
    SameMultisetSameImages(order, roots + captions, IdAt(elements));
    MapConcat(roots, captions, IdAt(elements));
    assert Ids(Local(elements, roots)) == IdsAt(elements, roots);
    PermutedIds(elements, order);
  }

  lemma FamilyCounts(ordered: seq<nat>, children: seq<seq<nat>>, order: seq<nat>)
    requires |ordered| == |children| && order == Expanded(ordered, children, |ordered|)
    ensures multiset(order) == multiset(ordered) + multiset(Flat(children, |ordered|))
  {
    ExpandedCounts(ordered, children, |ordered|);
    assert ordered[..|ordered|] == ordered;
  }

  method OrderBody(elements: seq<PageElement>, infer: ColumnInference, nextBand: nat, trace: Trace)
    returns (order: seq<nat>, nextBand': nat, trace': Trace)
    requires DistinctIndices(elements)
    ensures BodyOrdered(elements, infer, order) && IsPermutation(order, |elements|)
    ensures BodyRun(elements, infer, Mark(nextBand, trace), order, Mark(nextBand', trace')) && TraceGrows(trace, trace')
  {
    var captions, roots := CollectCaptions(elements);
    var ordered, rootsTrace;
    ghost var rootOrder, children;
    ordered, nextBand', rootsTrace, rootOrder := OrderRoots(elements, roots, infer, nextBand, trace);
    order, trace', children := InsertCaptions(elements, ordered, captions, rootsTrace);
    assert BodyLayout(elements, infer, roots, rootOrder, ordered, children, order);
    BodyIsPermutation(elements, infer, order);
    assert BodyLaidOut(elements, infer, roots, rootOrder, ordered, children, Mark(nextBand, trace), order, rootsTrace,
                       Mark(nextBand', trace'));
  }

  lemma {:induction false} ExpandedPrefix(roots: seq<nat>, children: seq<seq<nat>>, own: seq<nat>, k: nat)
    requires k <= |roots| && k <= |children|
    ensures Expanded(roots, children + [own], k) == Expanded(roots, children, k)
  {
    if k > 0 {
      ExpandedPrefix(roots, children, own, k - 1);
    }
  }
}
