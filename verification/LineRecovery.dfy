/**
  Recovery of the text lines no block owns: they are grouped, attached to a nearby
  block or given a fallback block. The proofs hold for any rules; `PageRecoveryRules`
  are the source's, in which only the reading of the text is left open.
 */
module LineRecovery {
  import opened Sequences
  import opened Sorting
  import opened Decimal
  import opened LayoutModel
  import opened LayoutBlocks
  import opened TextGeometry
  import opened PageGeometry
  import opened LineGroups
  import opened GridGeometry
  import opened GridSearch
  import opened GridMerge
  import opened LineColumns

  datatype RecoveryRules = RecoveryRules(
    furniture: (BBox, seq<LayoutBlock>) -> bool,
    marginal: (seq<int>, int) -> bool,
    canJoin: (BBox, BBox) -> bool,
    grid: GridRules,
    groupKind: (seq<LayoutBlock>, Group) -> BlockType,
    attachable: (seq<LayoutBlock>, Group) -> bool,
    canTake: (LayoutBlock, Group) -> bool,
    score: (LayoutBlock, Group) -> real,
    columns: ColumnRules)

  /**
    What the source finds out by reading: marginal numbering, the kind of a group, whether
    its text may be attached.
   */
  datatype TextPatterns = TextPatterns(
    marginal: (seq<int>, int) -> bool,
    groupKind: (seq<LayoutBlock>, Group) -> BlockType,
    attachable: Group -> bool,
    listItem: Group -> bool)

  predicate NearNonTextRegion(g: BBox, blocks: seq<LayoutBlock>, medianHeight: real) {
    exists i | 0 <= i < |blocks| ::
      && (blocks[i].kind == Figure || blocks[i].kind == BlockType.Table)
      && var b := blocks[i].bbox;
      && OverlapOfWidth(g, b, Min(g.x1 - g.x0, b.x1 - b.x0)) >= 0.25
      && IntervalGap(g.y0, g.y1, b.y0, b.y1) <= medianHeight * 2.0
  }

  /** Low and wide enough, and not beside a figure or a table. */
  predicate MayAttach(g: BBox, blocks: seq<LayoutBlock>, size: PageSize, medianHeight: real) {
    && medianHeight > 0.0 && g.y1 - g.y0 <= medianHeight * 2.25
    && !NearNonTextRegion(g, blocks, medianHeight)
    && g.x1 - g.x0 >= Max(medianHeight * 5.0, AtLeastOne(size.width) * 0.06)
  }

  predicate InReach(b: BBox, g: BBox, medianHeight: real) {
    && OverlapOfWidth(g, b, Min(g.x1 - g.x0, b.x1 - b.x0)) >= 0.6
    && IntervalGap(g.y0, g.y1, b.y0, b.y1) <= medianHeight * 1.25
  }

  function AttachmentScore(b: BBox, g: BBox): real { IntervalGap(g.y0, g.y1, b.y0, b.y1) + Abs(g.x0 - b.x0) * 0.05 }

  function PageRecoveryRules(size: PageSize, medianHeight: real, patterns: TextPatterns): RecoveryRules {
    RecoveryRules(
      (line: BBox, blocks: seq<LayoutBlock>) => OverlapsFurniture(line, blocks),
      patterns.marginal,
      (previous: BBox, current: BBox) => CanJoin(previous, current),
      PageGridRules(size, medianHeight),
      patterns.groupKind,
      (blocks: seq<LayoutBlock>, g: Group) => patterns.attachable(g) && MayAttach(g.bbox, blocks, size, medianHeight),
      (b: LayoutBlock, g: Group) => !(patterns.listItem(g) && b.kind == Title) && InReach(b.bbox, g.bbox, medianHeight),
      (b: LayoutBlock, g: Group) => AttachmentScore(b.bbox, g.bbox),
      LineColumnRules())
  }

  datatype RecoveryStats = RecoveryStats(recovered: nat, attached: nat, attachedGroups: nat, fallbackBlocks: nat, gridGroups: nat)

  // ---- the lines to recover ----

  /** Nobody owns the line although it shows text in a proper box outside headers and footers. */
  ghost predicate Unassigned(text: seq<TextLine>, blocks: seq<LayoutBlock>, rules: RecoveryRules, line: int) {
    && 0 <= line < |text| && !Owns(blocks, line)
    && text[line].visible && ValidBox(text[line].bbox) && !rules.furniture(text[line].bbox, blocks)
  }

  ghost function UnassignedUpTo(text: seq<TextLine>, blocks: seq<LayoutBlock>, rules: RecoveryRules, n: nat): seq<int>
    requires n <= |text|
  {
    if n == 0 then []
    else UnassignedUpTo(text, blocks, rules, n - 1) + (if Unassigned(text, blocks, rules, n - 1) then [n - 1] else [])
  }

  function Keep(lines: seq<int>, drop: int -> bool): seq<int> {
    if lines == [] then []
    else Keep(lines[..|lines| - 1], drop) + (if drop(lines[|lines| - 1]) then [] else [lines[|lines| - 1]])
  }

  /** The lines recovery is about: unassigned, and not part of a repeated marginal numbering. */
  ghost function Recoverable(text: seq<TextLine>, blocks: seq<LayoutBlock>, rules: RecoveryRules): seq<int> {
    var unassigned := UnassignedUpTo(text, blocks, rules, |text|);
    Keep(unassigned, l => rules.marginal(unassigned, l))
  }

  lemma {:induction false} UnassignedAscend(text: seq<TextLine>, blocks: seq<LayoutBlock>, rules: RecoveryRules, n: nat)
    requires n <= |text|
    ensures var lines := UnassignedUpTo(text, blocks, rules, n);
            && (forall l :: l in lines <==> l < n && Unassigned(text, blocks, rules, l))
            && Distinct(lines)
  {
    if n > 0 {
      UnassignedAscend(text, blocks, rules, n - 1);
    }
  }

  lemma {:induction false} KeepKeeps(lines: seq<int>, drop: int -> bool)
    ensures forall l :: l in Keep(lines, drop) <==> l in lines && !drop(l)
    ensures Distinct(lines) ==> Distinct(Keep(lines, drop))
  {
    if lines != [] {
      var front, last := lines[..|lines| - 1], lines[|lines| - 1];
      KeepKeeps(front, drop);
      assert forall l :: l in lines <==> l in front || l == last;
    }
  }

  /** Exactly which lines are recovered, each listed once. */
  lemma RecoverableLines(text: seq<TextLine>, blocks: seq<LayoutBlock>, rules: RecoveryRules)
    ensures Distinct(Recoverable(text, blocks, rules))
    ensures forall l :: l in Recoverable(text, blocks, rules) <==>
              Unassigned(text, blocks, rules, l) && !rules.marginal(UnassignedUpTo(text, blocks, rules, |text|), l)
  {
    var unassigned := UnassignedUpTo(text, blocks, rules, |text|);
    UnassignedAscend(text, blocks, rules, |text|);
    KeepKeeps(unassigned, l => rules.marginal(unassigned, l));
  }

  method AssignedLines(text: seq<TextLine>, blocks: seq<LayoutBlock>) returns (owned: set<int>)
    ensures forall l :: l in owned <==> 0 <= l < |text| && Owns(blocks, l)
  {
    owned := {};
    for i := 0 to |blocks|
      invariant forall l :: l in owned <==> 0 <= l < |text| && Owns(blocks[..i], l)
    {
      ghost var before := owned;
      for k := 0 to |blocks[i].lines|
        invariant forall l :: l in owned <==> l in before || (0 <= l < |text| && l in blocks[i].lines[..k])
      {
        var line := blocks[i].lines[k];
        if 0 <= line < |text| {
          owned := owned + {line};
        }
      }
      forall l
        ensures Owns(blocks[..i + 1], l) <==> Owns(blocks[..i], l) || l in blocks[i].lines
      {
        OwnsOneMore(blocks, i, l);
      }
    }
    assert blocks[..|blocks|] == blocks;
  }

  lemma OwnsOneMore(blocks: seq<LayoutBlock>, i: nat, line: int)
    requires i < |blocks|
    ensures Owns(blocks[..i + 1], line) <==> Owns(blocks[..i], line) || line in blocks[i].lines
  {
    if Owns(blocks[..i], line) {
      var k :| 0 <= k < i && line in blocks[..i][k].lines;
      assert line in blocks[..i + 1][k].lines;
    }
    if line in blocks[i].lines {
      assert line in blocks[..i + 1][i].lines;
    }
  }

  method FindRecoverable(text: seq<TextLine>, blocks: seq<LayoutBlock>, rules: RecoveryRules)
    returns (lines: seq<int>, skippedFurniture: nat)
    ensures lines == Recoverable(text, blocks, rules)
  {
    var owned := AssignedLines(text, blocks);
    var unassigned := [];
    skippedFurniture := 0;
    for l := 0 to |text|
      invariant unassigned == UnassignedUpTo(text, blocks, rules, l)
    {
      if l !in owned && text[l].visible && ValidBox(text[l].bbox) {
        if rules.furniture(text[l].bbox, blocks) {
          skippedFurniture := skippedFurniture + 1;
        } else {
          unassigned := unassigned + [l];
        }
      }
    }
    lines := Keep(unassigned, l => rules.marginal(unassigned, l));
  }

  // ---- where the groups go ----

  lemma OneOfThree(a: multiset<int>, b: multiset<int>, c: multiset<int>, more: multiset<int>)
    ensures (a + more) + b + c == a + b + c + more
    ensures a + (b + more) + c == a + b + c + more
    ensures a + b + (c + more) == a + b + c + more
  {
  }

  lemma GroupAppended(text: seq<TextLine>, groups: seq<Group>, g: Group)
    requires AllWellFormed(text, groups) && WellFormed(text, g)
    ensures AllWellFormed(text, groups + [g]) && LinesOf(groups + [g]) == LinesOf(groups) + multiset(g.lines)
  {
    LinesOfAppend(groups, g);
  }

  /** Headers and footers are told apart from everything else. */
  function EdgeKind(kind: BlockType): BlockType { if kind == Header || kind == Footer then kind else Text }

  /** The groups of one kind, in their order. */
  function OfKind(groups: seq<Group>, blocks: seq<LayoutBlock>, rules: RecoveryRules, kind: BlockType): seq<Group> {
    if groups == [] then []
    else
      var last := groups[|groups| - 1];
      OfKind(groups[..|groups| - 1], blocks, rules, kind)
      + (if EdgeKind(rules.groupKind(blocks, last)) == kind then [last] else [])
  }

  lemma OfKindOneMore(groups: seq<Group>, i: nat, blocks: seq<LayoutBlock>, rules: RecoveryRules, kind: BlockType)
    requires i < |groups|
    ensures OfKind(groups[..i + 1], blocks, rules, kind) ==
            OfKind(groups[..i], blocks, rules, kind)
            + (if EdgeKind(rules.groupKind(blocks, groups[i])) == kind then [groups[i]] else [])
  {
    assert groups[..i + 1][..i] == groups[..i];
  }

  /** Bodies, headers and footers share out the groups. */
  method SplitByKind(text: seq<TextLine>, groups: seq<Group>, blocks: seq<LayoutBlock>, rules: RecoveryRules)
    returns (body: seq<Group>, headers: seq<Group>, footers: seq<Group>)
    requires AllWellFormed(text, groups)
    ensures AllWellFormed(text, body) && AllWellFormed(text, headers) && AllWellFormed(text, footers)
    ensures LinesOf(body) + LinesOf(headers) + LinesOf(footers) == LinesOf(groups)
    ensures body == OfKind(groups, blocks, rules, Text)
    ensures headers == OfKind(groups, blocks, rules, Header) && footers == OfKind(groups, blocks, rules, Footer)
  {
    body, headers, footers := [], [], [];
    for i := 0 to |groups|
      invariant AllWellFormed(text, body) && AllWellFormed(text, headers) && AllWellFormed(text, footers)
      invariant LinesOf(body) + LinesOf(headers) + LinesOf(footers) == LinesOf(groups[..i])
      invariant body == OfKind(groups[..i], blocks, rules, Text)
      invariant headers == OfKind(groups[..i], blocks, rules, Header)
      invariant footers == OfKind(groups[..i], blocks, rules, Footer)
    {
      var g := groups[i];
      OfKindOneMore(groups, i, blocks, rules, Text);
      OfKindOneMore(groups, i, blocks, rules, Header);
      OfKindOneMore(groups, i, blocks, rules, Footer);
      LinesOfTake(groups, i);
      OneOfThree(LinesOf(body), LinesOf(headers), LinesOf(footers), multiset(g.lines));
      match rules.groupKind(blocks, g)
      case Header =>
        GroupAppended(text, headers, g);
        headers := headers + [g];
      case Footer =>
        GroupAppended(text, footers, g);
        footers := footers + [g];
      case _ =>
        GroupAppended(text, body, g);
        body := body + [g];
    }
    assert groups[..|groups|] == groups;
  }

  lemma LinesOfTake(groups: seq<Group>, i: nat)
    requires i < |groups|
    ensures LinesOf(groups[..i + 1]) == LinesOf(groups[..i]) + multiset(groups[i].lines)
    ensures |LinesOf(groups[..i + 1])| == |LinesOf(groups[..i])| + |groups[i].lines|
  {
    assert groups[..i + 1][..i] == groups[..i];
  }

  predicate TakesLines(b: LayoutBlock, g: Group, rules: RecoveryRules) {
    && (b.kind == Unknown || b.kind == Title || b.kind == Text || b.kind == List)
    && b.lines != [] && ValidBox(b.bbox) && rules.canTake(b, g)
  }

  /** Among the first n blocks that take the group, the first with the lowest score, or -1. */
  function LowestScore(blocks: seq<LayoutBlock>, g: Group, rules: RecoveryRules, n: nat): (best: int)
    requires n <= |blocks|
    ensures -1 <= best < n
  {
    if n == 0 then -1
    else
      var best := LowestScore(blocks, g, rules, n - 1);
      if TakesLines(blocks[n - 1], g, rules) &&
         (best < 0 || rules.score(blocks[n - 1], g) < rules.score(blocks[best], g)) then n - 1 else best
  }

  /** The block a small plain group joins, or -1. */
  function TargetOf(blocks: seq<LayoutBlock>, g: Group, rules: RecoveryRules): (target: int)
    ensures -1 <= target < |blocks|
  {
    if g.grid || |g.lines| > 2 || !rules.attachable(blocks, g) then -1 else LowestScore(blocks, g, rules, |blocks|)
  }

  lemma {:induction false} LowestIsLowest(blocks: seq<LayoutBlock>, g: Group, rules: RecoveryRules, n: nat)
    requires n <= |blocks|
    ensures var best := LowestScore(blocks, g, rules, n);
            && (best < 0 <==> forall i | 0 <= i < n :: !TakesLines(blocks[i], g, rules))
            && (best >= 0 ==> TakesLines(blocks[best], g, rules))
            && (forall i | 0 <= i < n && best >= 0 && TakesLines(blocks[i], g, rules) ::
                  rules.score(blocks[best], g) <= rules.score(blocks[i], g))
            && forall i | 0 <= i < best && TakesLines(blocks[i], g, rules) ::
                 rules.score(blocks[best], g) < rules.score(blocks[i], g)
  {
    if n > 0 {
      LowestIsLowest(blocks, g, rules, n - 1);
    }
  }

  method AttachmentTarget(blocks: seq<LayoutBlock>, g: Group, rules: RecoveryRules) returns (target: int)
    ensures target == TargetOf(blocks, g, rules)
  {
    target := -1;
    if g.grid || |g.lines| > 2 || !rules.attachable(blocks, g) { return; }
    for i := 0 to |blocks|
      invariant target == LowestScore(blocks, g, rules, i)
    {
      if TakesLines(blocks[i], g, rules) &&
         (target < 0 || rules.score(blocks[i], g) < rules.score(blocks[target], g)) {
        target := i;
      }
    }
  }

  /** The same block, with all its lines and room for more. */
  ghost predicate Grown(before: LayoutBlock, after: LayoutBlock) {
    && after == before.(lines := after.lines, bbox := after.bbox)
    && multiset(before.lines) <= multiset(after.lines) && Covers(after.bbox, before.bbox)
  }

  ghost predicate AllGrown(before: seq<LayoutBlock>, after: seq<LayoutBlock>) {
    |before| <= |after| && forall i | 0 <= i < |before| :: Grown(before[i], after[i])
  }

  function WithGroup(text: seq<TextLine>, b: LayoutBlock, g: Group, medianHeight: real): LayoutBlock {
    b.(lines := RowWise(text, b.lines + g.lines, medianHeight), bbox := Expand(b.bbox, g.bbox))
  }

  lemma AttachAddsLines(text: seq<TextLine>, blocks: seq<LayoutBlock>, i: nat, g: Group, medianHeight: real)
    requires i < |blocks|
    ensures OwnedLines(blocks[i := WithGroup(text, blocks[i], g, medianHeight)]) == OwnedLines(blocks) + multiset(g.lines)
    ensures Grown(blocks[i], WithGroup(text, blocks[i], g, medianHeight))
  {
    RowWiseKeepsLines(text, blocks[i].lines + g.lines, medianHeight);
    OwnedUpdate(blocks, i, WithGroup(text, blocks[i], g, medianHeight), multiset(g.lines));
  }

  /** The group joins its target, or stays. */
  function Place(text: seq<TextLine>, blocks: seq<LayoutBlock>, rest: seq<Group>, g: Group, medianHeight: real,
                 rules: RecoveryRules): (seq<LayoutBlock>, seq<Group>)
  {
    var target := TargetOf(blocks, g, rules);
    if target < 0 then (blocks, rest + [g]) else (blocks[target := WithGroup(text, blocks[target], g, medianHeight)], rest)
  }

  /** The blocks and the groups left when the first n groups have been dealt with. */
  function Attachment(text: seq<TextLine>, blocks: seq<LayoutBlock>, body: seq<Group>, medianHeight: real,
                      rules: RecoveryRules, n: nat): (seq<LayoutBlock>, seq<Group>)
    requires n <= |body|
  {
    if n == 0 then (blocks, [])
    else
      var (grown, rest) := Attachment(text, blocks, body, medianHeight, rules, n - 1);
      Place(text, grown, rest, body[n - 1], medianHeight, rules)
  }

  /** One group is either attached to a block or left for a fallback block. */
  lemma PlaceKeeps(text: seq<TextLine>, blocks: seq<LayoutBlock>, rest: seq<Group>, g: Group, medianHeight: real,
                   rules: RecoveryRules, placed: seq<LayoutBlock>, left: seq<Group>)
    requires WellFormed(text, g) && AllWellFormed(text, rest)
    requires (placed, left) == Place(text, blocks, rest, g, medianHeight, rules)
    ensures |placed| == |blocks| && AllGrown(blocks, placed) && AllWellFormed(text, left)
    ensures (OwnedLines(placed) == OwnedLines(blocks) && left == rest + [g]) ||
            (OwnedLines(placed) == OwnedLines(blocks) + multiset(g.lines) && left == rest)
  {
    var target := TargetOf(blocks, g, rules);
    if target >= 0 {
      AttachAddsLines(text, blocks, target, g, medianHeight);
    }
  }

  method PlaceGroup(text: seq<TextLine>, blocks: seq<LayoutBlock>, rest: seq<Group>, g: Group, medianHeight: real,
                    rules: RecoveryRules)
    returns (placed: seq<LayoutBlock>, left: seq<Group>)
    ensures (placed, left) == Place(text, blocks, rest, g, medianHeight, rules)
    ensures left == rest || left == rest + [g]
  {
    var target := AttachmentTarget(blocks, g, rules);
    if target < 0 {
      return blocks, rest + [g];
    }
    var lines := SortRowWise(text, blocks[target].lines + g.lines, medianHeight);
    placed := blocks[target := blocks[target].(lines := lines, bbox := Expand(blocks[target].bbox, g.bbox))];
    left := rest;
  }

  lemma GrownTransitive(a: seq<LayoutBlock>, b: seq<LayoutBlock>, c: seq<LayoutBlock>)
    requires AllGrown(a, b) && AllGrown(b, c)
    ensures AllGrown(a, c)
  {
    forall i | 0 <= i < |a|
      ensures Grown(a[i], c[i])
    {
      assert Grown(a[i], b[i]) && Grown(b[i], c[i]);
    }
  }

  /** What attaching the first i groups has done so far. */
  ghost predicate AttachedUpTo(before: multiset<int>, grown: multiset<int>, body: seq<Group>, i: nat, rest: seq<Group>)
    requires i <= |body|
  {
    grown + LinesOf(rest) == before + LinesOf(body[..i]) && LinesOf(rest) <= LinesOf(body[..i])
  }

  lemma AttachedOneMore(before: multiset<int>, grown: multiset<int>, grown': multiset<int>, body: seq<Group>, i: nat,
                        rest: seq<Group>, rest': seq<Group>)
    requires i < |body| && AttachedUpTo(before, grown, body, i, rest)
    requires (grown' == grown && rest' == rest + [body[i]]) || (grown' == grown + multiset(body[i].lines) && rest' == rest)
    ensures AttachedUpTo(before, grown', body, i + 1, rest')
  {
    LinesOfTake(body, i);
    LinesOfAppend(rest, body[i]);
    MoreOnBothSides(grown, LinesOf(rest), before, LinesOf(body[..i]), multiset(body[i].lines));
  }

  ghost predicate AttachedWell(text: seq<TextLine>, blocks: seq<LayoutBlock>, body: seq<Group>, n: nat,
                               grown: seq<LayoutBlock>, rest: seq<Group>)
    requires n <= |body|
  {
    && |grown| == |blocks| && AllGrown(blocks, grown) && AllWellFormed(text, rest)
    && AttachedUpTo(OwnedLines(blocks), OwnedLines(grown), body, n, rest)
  }

  lemma PlaceAttachesWell(text: seq<TextLine>, blocks: seq<LayoutBlock>, body: seq<Group>, n: nat, grown: seq<LayoutBlock>,
                          rest: seq<Group>, medianHeight: real, rules: RecoveryRules, placed: seq<LayoutBlock>,
                          left: seq<Group>)
    requires n < |body| && AllWellFormed(text, body) && AttachedWell(text, blocks, body, n, grown, rest)
    requires (placed, left) == Place(text, grown, rest, body[n], medianHeight, rules)
    ensures AttachedWell(text, blocks, body, n + 1, placed, left)
  {
    PlaceKeeps(text, grown, rest, body[n], medianHeight, rules, placed, left);
    GrownTransitive(blocks, grown, placed);
    AttachedOneMore(OwnedLines(blocks), OwnedLines(grown), OwnedLines(placed), body, n, rest, left);
  }

  /** What placing one more group keeps holds when all have been placed. */
  lemma {:induction false} AttachmentInduction(text: seq<TextLine>, blocks: seq<LayoutBlock>, body: seq<Group>,
                                               medianHeight: real, rules: RecoveryRules, n: nat,
                                               holds: (nat, seq<LayoutBlock>, seq<Group>) -> bool)
    requires n <= |body| && holds(0, blocks, [])
    requires forall k: nat, grown, rest | k < |body| && holds(k, grown, rest) ::
               var p := Place(text, grown, rest, body[k], medianHeight, rules); holds(k + 1, p.0, p.1)
    ensures var p := Attachment(text, blocks, body, medianHeight, rules, n); holds(n, p.0, p.1)
  {
    if n > 0 {
      AttachmentInduction(text, blocks, body, medianHeight, rules, n - 1, holds);
    }
  }

  /** Attaching loses no line and doubles none. */
  lemma {:induction false} AttachmentKeeps(text: seq<TextLine>, blocks: seq<LayoutBlock>, body: seq<Group>, medianHeight: real,
                        rules: RecoveryRules)
    requires AllWellFormed(text, body)
    ensures var (grown, rest) := Attachment(text, blocks, body, medianHeight, rules, |body|);
            AttachedWell(text, blocks, body, |body|, grown, rest)
  {
    var holds := (k: nat, grown: seq<LayoutBlock>, rest: seq<Group>) =>
      k <= |body| && AttachedWell(text, blocks, body, k, grown, rest);
    forall k: nat, grown, rest | k < |body| && holds(k, grown, rest)
      ensures var p := Place(text, grown, rest, body[k], medianHeight, rules); holds(k + 1, p.0, p.1)
    {
      var p := Place(text, grown, rest, body[k], medianHeight, rules);
      PlaceAttachesWell(text, blocks, body, k, grown, rest, medianHeight, rules, p.0, p.1);
    }
    NothingAttached(text, blocks, body);
    AttachmentInduction(text, blocks, body, medianHeight, rules, |body|, holds);
  }

  lemma NothingAttached(text: seq<TextLine>, blocks: seq<LayoutBlock>, body: seq<Group>)
    ensures AttachedWell(text, blocks, body, 0, blocks, [])
  {
    assert body[..0] == [];
  }

  lemma MoreOnBothSides(a: multiset<int>, b: multiset<int>, c: multiset<int>, d: multiset<int>, more: multiset<int>)
    requires a + b == c + d
    ensures (a + more) + b == c + (d + more) && a + (b + more) == c + (d + more)
  {
    forall x
      ensures ((a + more) + b)[x] == (c + (d + more))[x] && (a + (b + more))[x] == (c + (d + more))[x]
    {
      assert (a + b)[x] == (c + d)[x];
    }
  }

  method AttachGroups(text: seq<TextLine>, blocks: seq<LayoutBlock>, body: seq<Group>, medianHeight: real,
                      rules: RecoveryRules)
    returns (grown: seq<LayoutBlock>, rest: seq<Group>, attached: nat, attachedGroups: nat)
    requires AllWellFormed(text, body)
    ensures |grown| == |blocks| && AllGrown(blocks, grown) && AllWellFormed(text, rest)
    ensures OwnedLines(grown) + LinesOf(rest) == OwnedLines(blocks) + LinesOf(body)
    ensures LinesOf(rest) <= LinesOf(body)
    ensures attached + |LinesOf(rest)| == |LinesOf(body)| && attachedGroups + |rest| == |body|
    ensures (grown, rest) == Attachment(text, blocks, body, medianHeight, rules, |body|)
  {
    grown, rest, attached, attachedGroups := blocks, [], 0, 0;
    for i := 0 to |body|
      invariant (grown, rest) == Attachment(text, blocks, body, medianHeight, rules, i)
      invariant attached + |LinesOf(rest)| == |LinesOf(body[..i])| && attachedGroups + |rest| == i
    {
      LinesOfTake(body, i);
      LinesOfAppend(rest, body[i]);
      var placed, left := PlaceGroup(text, grown, rest, body[i], medianHeight, rules);
      if left == rest {
        attached, attachedGroups := attached + |body[i].lines|, attachedGroups + 1;
      }
      grown, rest := placed, left;
    }
    AttachmentKeeps(text, blocks, body, medianHeight, rules);
    assert body[..|body|] == body;
  }

  // ---- fallback blocks ----

  function MinLine(lines: seq<int>): (least: int)
    requires lines != []
    ensures least in lines && forall l | l in lines :: least <= l
  {
    if |lines| == 1 then lines[0]
    else
      var front := MinLine(lines[..|lines| - 1]);
      assert forall l | l in lines :: l in lines[..|lines| - 1] || l == lines[|lines| - 1];
      if lines[|lines| - 1] < front then lines[|lines| - 1] else front
  }

  function FallbackId(page: nat, line: nat): string {
    "page_" + ToText(page) + "_fallback_line_" + ToText(line + 1)
  }

  lemma FallbackIdIsInjective(page: nat, a: nat, b: nat)
    requires FallbackId(page, a) == FallbackId(page, b)
    ensures a == b
  {
    var prefix := "page_" + ToText(page) + "_fallback_line_";
    assert FallbackId(page, a)[|prefix|..] == ToText(a + 1);
    assert FallbackId(page, b)[|prefix|..] == ToText(b + 1);
    ToTextIsInjective(a + 1, b + 1);
  }

  /** A fallback block is named after its first line and just covers its lines. */
  ghost predicate IsFallback(text: seq<TextLine>, page: nat, b: LayoutBlock) {
    && b.lines != [] && MinLine(b.lines) >= 0 && b.id == FallbackId(page, MinLine(b.lines))
    && IsHull(text, b.bbox, b.lines)
  }

  ghost predicate FallbackFrom(text: seq<TextLine>, page: nat, blocks: seq<LayoutBlock>, n: nat) {
    forall i | n <= i < |blocks| :: IsFallback(text, page, blocks[i])
  }

  ghost predicate NonNegative(lines: multiset<int>) { forall l | l in lines :: l >= 0 }

  function FallbackLabel(kind: BlockType, grid: bool): (name: string)
    ensures name == "edge_header_fallback" <==> kind == Header
    ensures name == "edge_footer_fallback" <==> kind == Footer
    ensures kind != Header && kind != Footer ==> (name == "text_grid_fallback" <==> grid)
    ensures kind != Header && kind != Footer ==> (name == "text_line_fallback" <==> !grid)
  {
    match kind
    case Header => "edge_header_fallback"
    case Footer => "edge_footer_fallback"
    case _ => if grid then GRID_LABEL else "text_line_fallback"
  }

  function FallbackBlock(page: nat, g: Group, kind: BlockType): LayoutBlock
    requires g.lines != [] && MinLine(g.lines) >= 0
  {
    LayoutBlock(FallbackId(page, MinLine(g.lines)), kind, FallbackLabel(kind, g.grid), "", -1, g.bbox, g.lines)
  }

  lemma FallbackAppended(text: seq<TextLine>, page: nat, blocks: seq<LayoutBlock>, groups: seq<Group>, i: nat,
                         kind: BlockType, n: nat)
    requires i < |groups| && AllWellFormed(text, groups) && NonNegative(LinesOf(groups))
    requires FallbackFrom(text, page, blocks, n)
    ensures groups[i].lines != [] && MinLine(groups[i].lines) >= 0
    ensures var longer := blocks + [FallbackBlock(page, groups[i], kind)];
            FallbackFrom(text, page, longer, n) && OwnedLines(longer) == OwnedLines(blocks) + multiset(groups[i].lines)
  {
    assert WellFormed(text, groups[i]);
    LinesOfContains(groups, i);
    assert MinLine(groups[i].lines) in multiset(groups[i].lines);
    OwnedAppend(blocks, FallbackBlock(page, groups[i], kind));
  }

  /** The last blocks are the fallback blocks of the first n groups. */
  ghost predicate AppendsFallbacks(page: nat, blocks: seq<LayoutBlock>, groups: seq<Group>, n: nat, kind: BlockType,
                                   longer: seq<LayoutBlock>)
  {
    && n <= |groups| && blocks <= longer && |longer| == |blocks| + n
    && forall i | 0 <= i < n :: IsFallbackOf(page, groups[i], kind, longer[|blocks| + i])
  }

  lemma AppendsOneMore(page: nat, blocks: seq<LayoutBlock>, groups: seq<Group>, n: nat, kind: BlockType,
                       longer: seq<LayoutBlock>, b: LayoutBlock)
    requires AppendsFallbacks(page, blocks, groups, n, kind, longer) && n < |groups| && IsFallbackOf(page, groups[n], kind, b)
    ensures AppendsFallbacks(page, blocks, groups, n + 1, kind, longer + [b])
  {
    forall i | 0 <= i < n + 1
      ensures IsFallbackOf(page, groups[i], kind, (longer + [b])[|blocks| + i])
    {
      if i < n {
        assert IsFallbackOf(page, groups[i], kind, longer[|blocks| + i]);
      }
    }
  }

  ghost predicate IsFallbackOf(page: nat, g: Group, kind: BlockType, b: LayoutBlock) {
    g.lines != [] && MinLine(g.lines) >= 0 && b == FallbackBlock(page, g, kind)
  }

  method AppendGroups(text: seq<TextLine>, page: nat, blocks: seq<LayoutBlock>, groups: seq<Group>, kind: BlockType,
                      ghost n: nat)
    returns (longer: seq<LayoutBlock>, lines: nat)
    requires AllWellFormed(text, groups) && NonNegative(LinesOf(groups)) && FallbackFrom(text, page, blocks, n)
    ensures blocks <= longer && |longer| == |blocks| + |groups| && FallbackFrom(text, page, longer, n)
    ensures OwnedLines(longer) == OwnedLines(blocks) + LinesOf(groups) && lines == |LinesOf(groups)|
    ensures AppendsFallbacks(page, blocks, groups, |groups|, kind, longer)
  {
    longer, lines := blocks, 0;
    for i := 0 to |groups|
      invariant AppendsFallbacks(page, blocks, groups, i, kind, longer)
      invariant blocks <= longer && |longer| == |blocks| + i && FallbackFrom(text, page, longer, n)
      invariant OwnedLines(longer) == OwnedLines(blocks) + LinesOf(groups[..i]) && lines == |LinesOf(groups[..i])|
    {
      FallbackAppended(text, page, longer, groups, i, kind, n);
      LinesOfTake(groups, i);
      var b := FallbackBlock(page, groups[i], kind);
      AppendsOneMore(page, blocks, groups, i, kind, longer, b);
      longer, lines := longer + [b], lines + |groups[i].lines|;
    }
    assert groups[..|groups|] == groups;
  }

  // ---- the whole recovery ----

  ghost predicate DistinctFrom(blocks: seq<LayoutBlock>, n: nat) {
    forall i, j | n <= i < j < |blocks| :: blocks[i].id != blocks[j].id
  }

  lemma NotInBoth(blocks: seq<LayoutBlock>, line: int, i: nat, j: nat)
    requires i < |blocks| && j < |blocks| && i != j && InExactlyOne(blocks, line)
    ensures line in blocks[i].lines ==> line !in blocks[j].lines
  {
  }

  /** Blocks that share no line have different first lines, hence different ids. */
  lemma FallbackIdsDiffer(text: seq<TextLine>, page: nat, blocks: seq<LayoutBlock>, n: nat)
    requires FallbackFrom(text, page, blocks, n)
    requires forall i | n <= i < |blocks| :: InExactlyOne(blocks, MinLine(blocks[i].lines))
    ensures DistinctFrom(blocks, n)
  {
    forall i, j | n <= i < j < |blocks|
      ensures blocks[i].id != blocks[j].id
    {
      assert IsFallback(text, page, blocks[i]) && IsFallback(text, page, blocks[j]);
      var a, b := MinLine(blocks[i].lines), MinLine(blocks[j].lines);
      NotInBoth(blocks, a, i, j);
      if FallbackId(page, a) == FallbackId(page, b) {
        FallbackIdIsInjective(page, a, b);
      }
    }
  }

  /** Reordering lines inside blocks changes neither names nor hulls. */
  lemma FallbacksRefined(text: seq<TextLine>, page: nat, before: seq<LayoutBlock>, after: seq<LayoutBlock>, n: nat)
    requires FallbackFrom(text, page, before, n) && SameButLines(before, after)
    ensures FallbackFrom(text, page, after, n)
  {
    forall i | n <= i < |after|
      ensures IsFallback(text, page, after[i])
    {
      assert SameButLineOrder(before[i], after[i]) && IsFallback(text, page, before[i]);
      SameMultisetSameMembers(before[i].lines, after[i].lines);
      HullOfSameLines(text, before[i].bbox, before[i].lines, after[i].lines);
      assert MinLine(after[i].lines) == MinLine(before[i].lines);
    }
  }

  lemma GrownRefined(blocks: seq<LayoutBlock>, before: seq<LayoutBlock>, after: seq<LayoutBlock>)
    requires AllGrown(blocks, before) && SameButLines(before, after)
    ensures AllGrown(blocks, after)
  {
    forall i | 0 <= i < |blocks|
      ensures Grown(blocks[i], after[i])
    {
      assert Grown(blocks[i], before[i]) && SameButLineOrder(before[i], after[i]);
    }
  }

  /** The groups of the lines, with every grid among them merged. */
  ghost predicate Formed(text: seq<TextLine>, lines: seq<int>, medianHeight: real, rules: RecoveryRules, groups: seq<Group>,
                         gridGroups: nat)
  {
    var ordered := ByPosition(text, lines);
    exists placed ::
      && EachOrdered(text, Placed(text, ordered, rules.canJoin, |ordered|), medianHeight, placed)
      && Merges(text, placed, medianHeight, groups, gridGroups)
      && (if medianHeight > 0.0 then NoGrid(groups, rules.grid) else groups == placed)
  }

  /** Groups the recoverable lines: nothing lost, nothing doubled, each group in rows. */
  method FormGroups(text: seq<TextLine>, lines: seq<int>, medianHeight: real, rules: RecoveryRules)
    returns (groups: seq<Group>, gridGroups: nat)
    requires Symmetric(rules.grid) && ProperLines(text, multiset(lines))
    ensures AllWellFormed(text, groups) && LinesOf(groups) == multiset(lines) && AllInRows(text, groups, medianHeight)
    ensures Formed(text, lines, medianHeight, rules, groups, gridGroups)
  {
    var placed := GroupFallbackLines(text, lines, medianHeight, rules.canJoin);
    groups, gridGroups := CoalesceDenseGridGroups(text, placed, medianHeight, rules.grid);
  }

  /** Attached or appended: each group's lines find their block. */
  method PlaceGroups(text: seq<TextLine>, page: nat, blocks: seq<LayoutBlock>, groups: seq<Group>, medianHeight: real,
                     rules: RecoveryRules)
    returns (placed: seq<LayoutBlock>, stats: RecoveryStats)
    requires AllWellFormed(text, groups) && NonNegative(LinesOf(groups))
    ensures AllGrown(blocks, placed) && FallbackFrom(text, page, placed, |blocks|)
    ensures OwnedLines(placed) == OwnedLines(blocks) + LinesOf(groups)
    ensures stats.recovered == |LinesOf(groups)| && stats.fallbackBlocks == |placed| - |blocks|
    ensures stats.attached <= stats.recovered && stats.gridGroups == 0
    ensures PlacesGroups(text, page, blocks, groups, medianHeight, rules, placed)
  {
    var body, headers, footers := SplitByKind(text, groups, blocks, rules);
    PartsAreNonNegative(LinesOf(groups), LinesOf(body), LinesOf(headers), LinesOf(footers));
    var grown, rest, attached, attachedGroups := AttachGroups(text, blocks, body, medianHeight, rules);
    var lines;
    placed, lines := AppendParts(text, page, grown, rest, headers, footers, |blocks|);
    SumOfParts(OwnedLines(grown), LinesOf(rest), OwnedLines(blocks), LinesOf(body), LinesOf(headers), LinesOf(footers));
    stats := RecoveryStats(attached + lines, attached, attachedGroups, |rest| + |headers| + |footers|, 0);
  }

  lemma SumOfParts(grown: multiset<int>, rest: multiset<int>, before: multiset<int>, body: multiset<int>,
                   headers: multiset<int>, footers: multiset<int>)
    requires grown + rest == before + body
    ensures grown + rest + headers + footers == before + (body + headers + footers)
  {
  }

  ghost predicate AppendsParts(page: nat, blocks: seq<LayoutBlock>, body: seq<Group>, headers: seq<Group>,
                               footers: seq<Group>, longer: seq<LayoutBlock>)
  {
    exists b, h ::
      && AppendsFallbacks(page, blocks, body, |body|, Text, b) && AppendsFallbacks(page, b, headers, |headers|, Header, h)
      && AppendsFallbacks(page, h, footers, |footers|, Footer, longer)
  }

  /** Body groups join their targets; the others get blocks of their own, as do headers and footers. */
  ghost predicate PlacesGroups(text: seq<TextLine>, page: nat, blocks: seq<LayoutBlock>, groups: seq<Group>,
                               medianHeight: real, rules: RecoveryRules, placed: seq<LayoutBlock>)
  {
    var body := OfKind(groups, blocks, rules, Text);
    var (grown, rest) := Attachment(text, blocks, body, medianHeight, rules, |body|);
    AppendsParts(page, grown, rest, OfKind(groups, blocks, rules, Header), OfKind(groups, blocks, rules, Footer), placed)
  }

  /** Body blocks first, then headers, then footers. */
  method AppendParts(text: seq<TextLine>, page: nat, blocks: seq<LayoutBlock>, body: seq<Group>, headers: seq<Group>,
                     footers: seq<Group>, ghost n: nat)
    returns (longer: seq<LayoutBlock>, lines: nat)
    requires AllWellFormed(text, body) && AllWellFormed(text, headers) && AllWellFormed(text, footers)
    requires NonNegative(LinesOf(body)) && NonNegative(LinesOf(headers)) && NonNegative(LinesOf(footers))
    requires FallbackFrom(text, page, blocks, n)
    ensures blocks <= longer && |longer| == |blocks| + |body| + |headers| + |footers|
    ensures FallbackFrom(text, page, longer, n)
    ensures OwnedLines(longer) == OwnedLines(blocks) + LinesOf(body) + LinesOf(headers) + LinesOf(footers)
    ensures lines == |LinesOf(body)| + |LinesOf(headers)| + |LinesOf(footers)|
    ensures AppendsParts(page, blocks, body, headers, footers, longer)
  {
    var bodyLines, headerLines, footerLines;
    var withBody, withHeaders;
    withBody, bodyLines := AppendGroups(text, page, blocks, body, Text, n);
    withHeaders, headerLines := AppendGroups(text, page, withBody, headers, Header, n);
    longer, footerLines := AppendGroups(text, page, withHeaders, footers, Footer, n);
    lines := bodyLines + headerLines + footerLines;
  }

  lemma PartsAreNonNegative(all: multiset<int>, a: multiset<int>, b: multiset<int>, c: multiset<int>)
    requires NonNegative(all) && all == a + b + c
    ensures NonNegative(a) && NonNegative(b) && NonNegative(c)
  {
    forall l | l in a || l in b || l in c
      ensures l >= 0
    {
      assert l in all;
    }
  }

  /** Every recoverable line gets exactly one place, and nothing else changes hands. */
  ghost predicate Recovered(text: seq<TextLine>, page: nat, blocks: seq<LayoutBlock>, rules: RecoveryRules,
                            result: seq<LayoutBlock>)
  {
    && OwnedLines(result) == OwnedLines(blocks) + multiset(Recoverable(text, blocks, rules))
    && AllGrown(blocks, result)
    && FallbackFrom(text, page, result, |blocks|)
    && DistinctFrom(result, |blocks|)
  }

  /** How the result comes about: the groups, then their places, then the order of lines in columns. */
  ghost predicate RecoveredInSteps(text: seq<TextLine>, page: nat, blocks: seq<LayoutBlock>, medianHeight: real,
                                   rules: RecoveryRules, result: seq<LayoutBlock>, gridGroups: nat)
  {
    exists groups, placed ::
      && Formed(text, Recoverable(text, blocks, rules), medianHeight, rules, groups, gridGroups)
      && PlacesGroups(text, page, blocks, groups, medianHeight, rules, placed)
      && EachRefined(text, placed, rules.columns, result)
  }

  lemma RecoverableAreProper(text: seq<TextLine>, blocks: seq<LayoutBlock>, rules: RecoveryRules)
    ensures ProperLines(text, multiset(Recoverable(text, blocks, rules)))
  {
    RecoverableLines(text, blocks, rules);
    forall l | l in multiset(Recoverable(text, blocks, rules))
      ensures ValidBox(BoxAt(text, l))
    {
      assert l in Recoverable(text, blocks, rules);
    }
  }

  /** With the page's own median height the merging never stops short: no grid is left among the groups. */
  lemma RecoveryLeavesNoGrid(text: seq<TextLine>, blocks: seq<LayoutBlock>, rules: RecoveryRules, groups: seq<Group>,
                             gridGroups: nat)
    requires Formed(text, Recoverable(text, blocks, rules), MedianTextLineHeight(text), rules, groups, gridGroups)
    ensures NoGrid(groups, rules.grid)
  {
    if MedianTextLineHeight(text) <= 0.0 {
      var lines := Recoverable(text, blocks, rules);
      assert lines != [] ==> lines[0] in lines;
      RecoverableLines(text, blocks, rules);
      MedianLineHeightIsPositive(text);
      forall l
        ensures l !in lines
      {
        assert l in lines ==> HasHeight(text[l]);
      }
      assert lines == [];
      FewGroupsNoGrid(groups, rules.grid);
    }
  }

  method RecoverUnassignedTextLines(text: seq<TextLine>, page: nat, blocks: seq<LayoutBlock>, medianHeight: real,
                                    rules: RecoveryRules)
    returns (result: seq<LayoutBlock>, stats: RecoveryStats)
    requires Symmetric(rules.grid)
    ensures Recovered(text, page, blocks, rules, result)
    ensures stats.recovered == |Recoverable(text, blocks, rules)| && stats.fallbackBlocks == |result| - |blocks|
    ensures RecoveredInSteps(text, page, blocks, medianHeight, rules, result, stats.gridGroups)
  {
    var lines, _ := FindRecoverable(text, blocks, rules);
    RecoverableLines(text, blocks, rules);
    RecoverableAreProper(text, blocks, rules);
    var groups, gridGroups := FormGroups(text, lines, medianHeight, rules);
    assert forall l | l in multiset(lines) :: l in lines;
    var placed;
    placed, stats := PlaceGroups(text, page, blocks, groups, medianHeight, rules);
    stats := stats.(gridGroups := gridGroups);
    var refined, _ := RefineMultiColumnTextLineOrder(text, placed, rules.columns);
    result := refined;
    FallbacksRefined(text, page, placed, result, |blocks|);
    GrownRefined(blocks, placed, result);
    FallbackLinesAreNew(text, page, blocks, rules, result);
    FallbackIdsDiffer(text, page, result, |blocks|);
  }

  /** A recovered line is afterwards in exactly one block; how often any other line occurs has not changed. */
  lemma RecoveredLineIsInExactlyOneBlock(text: seq<TextLine>, blocks: seq<LayoutBlock>, rules: RecoveryRules,
                                         result: seq<LayoutBlock>, line: int)
    requires OwnedLines(result) == OwnedLines(blocks) + multiset(Recoverable(text, blocks, rules))
    ensures line in Recoverable(text, blocks, rules) ==> InExactlyOne(result, line)
    ensures line !in Recoverable(text, blocks, rules) ==> OwnedLines(result)[line] == OwnedLines(blocks)[line]
  {
    RecoverableLines(text, blocks, rules);
    CountsOf(Recoverable(text, blocks, rules), line);
    OwnedIffCounted(blocks, line);
    if line in Recoverable(text, blocks, rules) {
      CountedOnce(result, line);
    }
  }

  /** The lines of a fallback block were recoverable: existing blocks have kept all that was owned before. */
  lemma FallbackLinesAreNew(text: seq<TextLine>, page: nat, blocks: seq<LayoutBlock>, rules: RecoveryRules,
                            result: seq<LayoutBlock>)
    requires OwnedLines(result) == OwnedLines(blocks) + multiset(Recoverable(text, blocks, rules))
    requires AllGrown(blocks, result) && FallbackFrom(text, page, result, |blocks|)
    ensures forall i | |blocks| <= i < |result| :: InExactlyOne(result, MinLine(result[i].lines))
  {
    forall i | |blocks| <= i < |result|
      ensures InExactlyOne(result, MinLine(result[i].lines))
    {
      assert IsFallback(text, page, result[i]);
      var line := MinLine(result[i].lines);
      OwnedGrows(blocks, result, i, line);
      RecoveredLineIsInExactlyOneBlock(text, blocks, rules, result, line);
    }
  }

  /** A line in a new block counts on top of all the old blocks still have. */
  lemma {:induction false} OwnedGrows(blocks: seq<LayoutBlock>, result: seq<LayoutBlock>, i: nat, line: int)
    requires AllGrown(blocks, result) && |blocks| <= i < |result| && line in result[i].lines
    ensures OwnedLines(result)[line] > OwnedLines(blocks)[line]
  {
    var last := |result| - 1;
    GrownFront(blocks, result, blocks);
    if i == last {
      OwnedKept(blocks, result[..last], line);
    } else {
      OwnedGrows(blocks, result[..last], i, line);
    }
  }

  lemma {:induction false} OwnedKept(blocks: seq<LayoutBlock>, result: seq<LayoutBlock>, line: int)
    requires AllGrown(blocks, result)
    ensures OwnedLines(result)[line] >= OwnedLines(blocks)[line]
  {
    if |blocks| < |result| {
      GrownFront(blocks, result, blocks);
      OwnedKept(blocks, result[..|result| - 1], line);
    } else if blocks != [] {
      var last := |blocks| - 1;
      GrownFront(blocks, result, blocks[..last]);
      OwnedKept(blocks[..last], result[..last], line);
      assert Grown(blocks[last], result[last]);
    }
  }

  lemma GrownFront(blocks: seq<LayoutBlock>, result: seq<LayoutBlock>, front: seq<LayoutBlock>)
    requires AllGrown(blocks, result) && front <= blocks && |front| < |result|
    ensures AllGrown(front, result[..|result| - 1])
  {
    forall k | 0 <= k < |front|
      ensures Grown(front[k], result[..|result| - 1][k])
    {
      assert Grown(blocks[k], result[k]);
    }
  }
}
