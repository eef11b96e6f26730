/**
  A figure that shows the same region and owns the same lines as exactly one table is
  merged into that table. The visual comparison and the comparison of cell text with
  source text are arbitrary predicates.
 */
module PageStructure {
  import opened Sequences
  import opened Sorting
  import opened LayoutModel
  import opened LayoutBlocks
  import opened TextGeometry

  /** `sourceLines`: the table is shown by its text lines, not by its cells. */
  datatype Table = Table(layoutBlockId: string, bbox: BBox, sourceLabel: string, sourceLines: bool)

  datatype StructureRules = StructureRules(
    sameRegion: (LayoutBlock, LayoutBlock) -> bool,
    losesText: (LayoutBlock, Table) -> bool)

  // ---- source lines ----

  predicate AllReadable(text: seq<TextLine>, lines: seq<int>) {
    forall l | l in lines :: 0 <= l < |text| && ValidBox(text[l].bbox)
  }

  /** The lines of a block, or none when one of them cannot be used. */
  function SourceLines(text: seq<TextLine>, b: LayoutBlock): set<int> {
    if AllReadable(text, b.lines) then set l | l in b.lines else {}
  }

  function ListOf(lines: set<int>, n: nat): seq<int> {
    if n == 0 then [] else ListOf(lines, n - 1) + (if n - 1 in lines then [n - 1] else [])
  }

  lemma {:induction false} ListOfLists(lines: set<int>, n: nat)
    ensures forall l :: l in ListOf(lines, n) <==> l in lines && 0 <= l < n
    ensures Distinct(ListOf(lines, n))
  {
    if n > 0 {
      ListOfLists(lines, n - 1);
    }
  }

  /** At least four fifths of both sets are shared. */
  predicate SameOwnership(table: set<int>, figure: set<int>) {
    && table != {} && figure != {}
    && 5 * |table * figure| >= 4 * |table| && 5 * |table * figure| >= 4 * |figure|
  }

  /** Nothing is shared unless neither side is empty, and at most a fifth of each side is not in the other. */
  lemma SameOwnershipLimitsTheRest(table: set<int>, figure: set<int>)
    ensures SameOwnership(table, figure) <==>
              table != {} && figure != {} && 5 * |table - figure| <= |table| && 5 * |figure - table| <= |figure|
  {
    assert table == (table * figure) + (table - figure) && figure == (table * figure) + (figure - table);
    assert |table| == |table * figure| + |table - figure| && |figure| == |table * figure| + |figure - table|;
  }

  /** The line is on the page and takes up room. */
  predicate OnPage(text: seq<TextLine>, l: int) {
    0 <= l && l < |text| && text[l].bbox.x0 < text[l].bbox.x1 && text[l].bbox.y0 < text[l].bbox.y1
  }

  /** One unusable line makes a block's lines unusable for comparison. */
  lemma SourceLinesAreUsable(text: seq<TextLine>, b: LayoutBlock, l: int)
    ensures l in SourceLines(text, b) <==> l in b.lines && forall k | k in b.lines :: OnPage(text, k)
  {
    assert AllReadable(text, b.lines) <==> forall k | k in b.lines :: OnPage(text, k);
  }

  // ---- which figures are merged ----

  ghost predicate FirstWithId(blocks: seq<LayoutBlock>, i: nat) {
    i < |blocks| && forall k | 0 <= k < i :: blocks[k].id != blocks[i].id
  }

  ghost predicate Indexes(blocks: seq<LayoutBlock>, index: map<string, nat>) {
    && (forall id | id in index ::
          index[id] < |blocks| && FirstWithId(blocks, index[id]) && blocks[index[id]].id == id)
    && (forall i | 0 <= i < |blocks| :: blocks[i].id in index)
  }

  method IndexById(blocks: seq<LayoutBlock>) returns (index: map<string, nat>)
    ensures Indexes(blocks, index)
  {
    index := map[];
    for i := 0 to |blocks|
      invariant forall id | id in index :: index[id] < i && FirstWithId(blocks, index[id]) && blocks[index[id]].id == id
      invariant forall k | 0 <= k < i :: blocks[k].id in index
    {
      if blocks[i].id !in index {
        index := index[blocks[i].id := i];
      }
    }
  }

  /** The block is the first with its id, a table, and table t is the first that names it. */
  ghost predicate IsOwner(blocks: seq<LayoutBlock>, tables: seq<Table>, i: nat, t: nat) {
    && FirstWithId(blocks, i) && blocks[i].kind == BlockType.Table
    && t < |tables| && tables[t].layoutBlockId == blocks[i].id
    && forall k | 0 <= k < t :: tables[k].layoutBlockId != blocks[i].id
  }

  /** Each table block that some table names, with the first such table. */
  ghost predicate TablesOf(blocks: seq<LayoutBlock>, tables: seq<Table>, owner: map<nat, nat>) {
    && (forall i | i in owner :: IsOwner(blocks, tables, i, owner[i]))
    && (forall i: nat, t: nat | IsOwner(blocks, tables, i, t) :: i in owner)
  }

  method TableBlocks(blocks: seq<LayoutBlock>, tables: seq<Table>) returns (owner: map<nat, nat>)
    ensures TablesOf(blocks, tables, owner)
  {
    var index := IndexById(blocks);
    owner := map[];
    for t := 0 to |tables|
      invariant TablesOf(blocks, tables[..t], owner)
    {
      OneTableMore(blocks, tables, t, owner, index);
      var id := tables[t].layoutBlockId;
      if id in index && blocks[index[id]].kind == BlockType.Table && index[id] !in owner {
        owner := owner[index[id] := t];
      }
    }
    assert tables[..|tables|] == tables;
  }

  lemma OneTableMore(blocks: seq<LayoutBlock>, tables: seq<Table>, t: nat, owner: map<nat, nat>, index: map<string, nat>)
    requires t < |tables| && TablesOf(blocks, tables[..t], owner)
    requires Indexes(blocks, index)
    ensures var id := tables[t].layoutBlockId;
            var isNew := id in index && index[id] < |blocks| && blocks[index[id]].kind == BlockType.Table && index[id] !in owner;
            TablesOf(blocks, tables[..t + 1], if isNew then owner[index[id] := t] else owner)
  {
    var id := tables[t].layoutBlockId;
    var longer := tables[..t + 1];
    forall i: nat
      ensures forall k: nat | k < t :: IsOwner(blocks, longer, i, k) <==> IsOwner(blocks, tables[..t], i, k)
      ensures IsOwner(blocks, longer, i, t) <==>
                id in index && i == index[id] && i < |blocks| && blocks[i].kind == BlockType.Table && i !in owner
    {
      OwnerOfLastTable(blocks, tables, t, owner, index, i);
    }
  }

  lemma OwnerOfLastTable(blocks: seq<LayoutBlock>, tables: seq<Table>, t: nat, owner: map<nat, nat>,
                         index: map<string, nat>, i: nat)
    requires t < |tables| && TablesOf(blocks, tables[..t], owner)
    requires Indexes(blocks, index)
    ensures forall k: nat | k < t :: IsOwner(blocks, tables[..t + 1], i, k) <==> IsOwner(blocks, tables[..t], i, k)
    ensures IsOwner(blocks, tables[..t + 1], i, t) <==>
              tables[t].layoutBlockId in index && i == index[tables[t].layoutBlockId] && i < |blocks| &&
              blocks[i].kind == BlockType.Table && i !in owner
  {
    var id := tables[t].layoutBlockId;
    if id in index && i == index[id] && blocks[i].kind == BlockType.Table && i !in owner {
      NamedHasOwner(blocks, tables[..t], i);
    }
  }

  /** If any table names the block, one of them is the first. */
  lemma {:induction false} NamedHasOwner(blocks: seq<LayoutBlock>, tables: seq<Table>, i: nat)
    requires FirstWithId(blocks, i) && blocks[i].kind == BlockType.Table
    requires forall t: nat :: !IsOwner(blocks, tables, i, t)
    ensures forall k | 0 <= k < |tables| :: tables[k].layoutBlockId != blocks[i].id
  {
    if tables != [] {
      var last := |tables| - 1;
      forall t: nat
        ensures !IsOwner(blocks, tables[..last], i, t)
      {
        assert !IsOwner(blocks, tables, i, t);
      }
      NamedHasOwner(blocks, tables[..last], i);
      assert forall k | 0 <= k < last :: tables[k] == tables[..last][k];
      assert !IsOwner(blocks, tables, i, last);
    }
  }

  predicate Claims(text: seq<TextLine>, blocks: seq<LayoutBlock>, owner: map<nat, nat>, rules: StructureRules, t: nat,
                   f: nat)
  {
    && t < |blocks| && f < |blocks| && t in owner
    && rules.sameRegion(blocks[t], blocks[f])
    && SameOwnership(SourceLines(text, blocks[t]), SourceLines(text, blocks[f]))
  }

  /** The figure has one claimant, and only one. */
  ghost predicate MergesInto(text: seq<TextLine>, blocks: seq<LayoutBlock>, owner: map<nat, nat>, rules: StructureRules,
                             f: nat, t: nat)
  {
    && f < |blocks| && blocks[f].kind == Figure
    && Claims(text, blocks, owner, rules, t, f)
    && forall other: nat :: Claims(text, blocks, owner, rules, other, f) ==> other == t
  }

  method Claimants(text: seq<TextLine>, blocks: seq<LayoutBlock>, owner: map<nat, nat>, rules: StructureRules, f: nat)
    returns (claimants: seq<nat>)
    requires f < |blocks|
    ensures Distinct(claimants)
    ensures forall t: nat :: t in claimants <==> Claims(text, blocks, owner, rules, t, f)
  {
    claimants := [];
    for t := 0 to |blocks|
      invariant Distinct(claimants)
      invariant forall k: nat :: k in claimants <==> k < t && Claims(text, blocks, owner, rules, k, f)
    {
      if Claims(text, blocks, owner, rules, t, f) {
        claimants := claimants + [t];
      }
    }
  }

  /** Exactly the figures with a single claimant are replaced; an ambiguous figure stays. */
  ghost predicate Decided(text: seq<TextLine>, blocks: seq<LayoutBlock>, owner: map<nat, nat>, rules: StructureRules,
                          merged: map<nat, nat>, n: nat)
  {
    && (forall f | f in merged :: f < n && MergesInto(text, blocks, owner, rules, f, merged[f]))
    && (forall f: nat, t: nat | f < n && MergesInto(text, blocks, owner, rules, f, t) :: f in merged)
  }

  method Decide(text: seq<TextLine>, blocks: seq<LayoutBlock>, owner: map<nat, nat>, rules: StructureRules)
    returns (merged: map<nat, nat>)
    ensures Decided(text, blocks, owner, rules, merged, |blocks|)
  {
    merged := map[];
    for f := 0 to |blocks|
      invariant Decided(text, blocks, owner, rules, merged, f)
    {
      if blocks[f].kind == Figure {
        var claimants := Claimants(text, blocks, owner, rules, f);
        if |claimants| == 1 {
          SingleClaimant(text, blocks, owner, rules, f, claimants);
          merged := merged[f := claimants[0]];
        } else {
          NoSingleClaimant(text, blocks, owner, rules, f, claimants);
        }
      }
    }
  }

  lemma SingleClaimant(text: seq<TextLine>, blocks: seq<LayoutBlock>, owner: map<nat, nat>, rules: StructureRules, f: nat,
                       claimants: seq<nat>)
    requires f < |blocks| && blocks[f].kind == Figure && |claimants| == 1
    requires forall t: nat :: t in claimants <==> Claims(text, blocks, owner, rules, t, f)
    ensures MergesInto(text, blocks, owner, rules, f, claimants[0])
  {
    assert claimants[0] in claimants;
  }

  lemma NoSingleClaimant(text: seq<TextLine>, blocks: seq<LayoutBlock>, owner: map<nat, nat>, rules: StructureRules,
                         f: nat, claimants: seq<nat>)
    requires f < |blocks| && |claimants| != 1 && Distinct(claimants)
    requires forall t: nat :: t in claimants <==> Claims(text, blocks, owner, rules, t, f)
    ensures forall t: nat :: !MergesInto(text, blocks, owner, rules, f, t)
  {
    if t: nat :| MergesInto(text, blocks, owner, rules, f, t) {
      assert t in claimants;
      assert claimants[0] in claimants && claimants[1] in claimants;
    }
  }

  // ---- merging ----

  /** The lines of a block together with those of the figures before n that merge into it. */
  ghost function UnionLines(text: seq<TextLine>, blocks: seq<LayoutBlock>, merged: map<nat, nat>, t: nat, n: nat): set<int>
    requires t < |blocks| && n <= |blocks|
  {
    if n == 0 then SourceLines(text, blocks[t])
    else
      UnionLines(text, blocks, merged, t, n - 1)
      + (if n - 1 in merged && merged[n - 1] == t then SourceLines(text, blocks[n - 1]) else {})
  }

  ghost predicate Receives(merged: map<nat, nat>, t: nat, n: nat) { exists f | f in merged :: f < n && merged[f] == t }

  /** The least box around a box and some lines: nothing sticks out, and something reaches each side. */
  ghost predicate LeastAround(text: seq<TextLine>, base: BBox, lines: seq<int>, box: BBox) {
    && Covers(box, base) && CoversAll(text, box, lines)
    && (box.x0 == base.x0 || exists l {:trigger BoxAt(text, l)} | l in lines :: BoxAt(text, l).x0 == box.x0)
    && (box.y0 == base.y0 || exists l {:trigger BoxAt(text, l)} | l in lines :: BoxAt(text, l).y0 == box.y0)
    && (box.x1 == base.x1 || exists l {:trigger BoxAt(text, l)} | l in lines :: BoxAt(text, l).x1 == box.x1)
    && (box.y1 == base.y1 || exists l {:trigger BoxAt(text, l)} | l in lines :: BoxAt(text, l).y1 == box.y1)
  }

  lemma LeastAroundMore(text: seq<TextLine>, base: BBox, lines: seq<int>, box: BBox, line: int)
    requires LeastAround(text, base, lines, box)
    ensures LeastAround(text, base, lines + [line], Expand(box, BoxAt(text, line)))
  {
    assert line in lines + [line] && forall l | l in lines :: l in lines + [line];
  }

  /** A box grown twice, the second time over all the lines of the first. */
  lemma LeastAroundTwice(text: seq<TextLine>, base: BBox, some: seq<int>, mid: BBox, all: seq<int>, box: BBox)
    requires LeastAround(text, base, some, mid) && LeastAround(text, mid, all, box)
    requires forall l | l in some :: l in all
    ensures LeastAround(text, base, all, box)
  {
  }

  /** A receiving block owns the union, in ascending order, its box grown around it; any other block is unchanged. */
  ghost predicate MergedBlock(text: seq<TextLine>, blocks: seq<LayoutBlock>, merged: map<nat, nat>, n: nat, t: nat,
                              after: LayoutBlock)
    requires t < |blocks| && n <= |blocks|
  {
    if Receives(merged, t, n) then
      && after == blocks[t].(lines := ListOf(UnionLines(text, blocks, merged, t, n), |text|), bbox := after.bbox)
      && LeastAround(text, blocks[t].bbox, after.lines, after.bbox)
    else after == blocks[t]
  }

  ghost predicate MergedUpTo(text: seq<TextLine>, blocks: seq<LayoutBlock>, merged: map<nat, nat>, n: nat,
                             after: seq<LayoutBlock>, lines: seq<set<int>>)
  {
    && n <= |blocks| == |after| == |lines|
    && (forall t | 0 <= t < |blocks| :: MergedBlock(text, blocks, merged, n, t, after[t]))
    && (forall t | 0 <= t < |blocks| :: lines[t] == UnionLines(text, blocks, merged, t, n))
  }

  /** Figures go into tables, so no target is itself merged away. */
  ghost predicate TargetsStay(blocks: seq<LayoutBlock>, merged: map<nat, nat>) {
    forall f | f in merged ::
      && f < |blocks| && blocks[f].kind == Figure
      && merged[f] < |blocks| && blocks[merged[f]].kind == BlockType.Table
  }

  lemma UnionWithoutMerges(text: seq<TextLine>, blocks: seq<LayoutBlock>, merged: map<nat, nat>, t: nat, n: nat)
    requires t < |blocks| && n <= |blocks| && !Receives(merged, t, n)
    ensures UnionLines(text, blocks, merged, t, n) == SourceLines(text, blocks[t])
  {
    if n > 0 {
      UnionWithoutMerges(text, blocks, merged, t, n - 1);
    }
  }

  method CoverLines(text: seq<TextLine>, box: BBox, lines: seq<int>) returns (grown: BBox)
    ensures LeastAround(text, box, lines, grown)
  {
    grown := box;
    for i := 0 to |lines|
      invariant LeastAround(text, box, lines[..i], grown)
    {
      assert lines[..i + 1] == lines[..i] + [lines[i]];
      LeastAroundMore(text, box, lines[..i], grown, lines[i]);
      grown := Expand(grown, BoxAt(text, lines[i]));
    }
    assert lines[..|lines|] == lines;
  }

  /** One figure's lines join its table. */
  method MergeOne(text: seq<TextLine>, ghost blocks: seq<LayoutBlock>, merged: map<nat, nat>, f: nat,
                  after: seq<LayoutBlock>, lines: seq<set<int>>)
    returns (after': seq<LayoutBlock>, lines': seq<set<int>>)
    requires TargetsStay(blocks, merged) && f in merged && MergedUpTo(text, blocks, merged, f, after, lines)
    ensures MergedUpTo(text, blocks, merged, f + 1, after', lines')
  {
    var t := merged[f];
    assert !Receives(merged, f, f);
    UnionWithoutMerges(text, blocks, merged, f, f);
    var all := lines[t] + lines[f];
    var ordered := ListOf(all, |text|);
    var box := CoverLines(text, after[t].bbox, ordered);
    lines' := lines[t := all];
    after' := after[t := after[t].(lines := ordered, bbox := box)];
    MergeOneKeeps(text, blocks, merged, f, after, lines, box);
  }

  lemma MergeOneKeeps(text: seq<TextLine>, blocks: seq<LayoutBlock>, merged: map<nat, nat>, f: nat,
                      after: seq<LayoutBlock>, lines: seq<set<int>>, box: BBox)
    requires TargetsStay(blocks, merged) && f in merged && MergedUpTo(text, blocks, merged, f, after, lines)
    requires lines[f] == SourceLines(text, blocks[f])
    requires LeastAround(text, after[merged[f]].bbox, ListOf(lines[merged[f]] + lines[f], |text|), box)
    ensures var t, all := merged[f], lines[merged[f]] + lines[f];
            MergedUpTo(text, blocks, merged, f + 1,
                       after[t := after[t].(lines := ListOf(all, |text|), bbox := box)], lines[t := all])
  {
    var t, all := merged[f], lines[merged[f]] + lines[f];
    var after' := after[t := after[t].(lines := ListOf(all, |text|), bbox := box)];
    assert UnionLines(text, blocks, merged, t, f + 1) == all;
    assert MergedBlock(text, blocks, merged, f, t, after[t]) && Receives(merged, t, f + 1);
    ListOfLists(lines[t], |text|);
    ListOfLists(all, |text|);
    if Receives(merged, t, f) {
      LeastAroundTwice(text, blocks[t].bbox, after[t].lines, after[t].bbox, ListOf(all, |text|), box);
    }
    forall k | 0 <= k < |blocks| && k != t
      ensures MergedBlock(text, blocks, merged, f + 1, k, after'[k])
      ensures lines[k] == UnionLines(text, blocks, merged, k, f + 1)
    {
      OtherBlockStays(text, blocks, merged, f, k, after[k]);
    }
  }

  lemma OtherBlockStays(text: seq<TextLine>, blocks: seq<LayoutBlock>, merged: map<nat, nat>, f: nat, k: nat,
                        after: LayoutBlock)
    requires k < |blocks| && f < |blocks| && (f !in merged || merged[f] != k)
    requires MergedBlock(text, blocks, merged, f, k, after)
    ensures MergedBlock(text, blocks, merged, f + 1, k, after)
    ensures UnionLines(text, blocks, merged, k, f + 1) == UnionLines(text, blocks, merged, k, f)
  {
    assert UnionLines(text, blocks, merged, k, f + 1) == UnionLines(text, blocks, merged, k, f);
    assert Receives(merged, k, f + 1) <==> Receives(merged, k, f);
  }

  method ApplyMerges(text: seq<TextLine>, blocks: seq<LayoutBlock>, merged: map<nat, nat>)
    returns (after: seq<LayoutBlock>)
    requires TargetsStay(blocks, merged)
    ensures |after| == |blocks|
    ensures forall t | 0 <= t < |blocks| :: MergedBlock(text, blocks, merged, |blocks|, t, after[t])
  {
    after := blocks;
    var lines := seq(|blocks|, i requires 0 <= i < |blocks| => SourceLines(text, blocks[i]));
    for f := 0 to |blocks|
      invariant MergedUpTo(text, blocks, merged, f, after, lines)
    {
      if f in merged {
        after, lines := MergeOne(text, blocks, merged, f, after, lines);
      } else {
        NoMergeKeeps(text, blocks, merged, f, after, lines);
      }
    }
  }

  lemma NoMergeKeeps(text: seq<TextLine>, blocks: seq<LayoutBlock>, merged: map<nat, nat>, f: nat,
                     after: seq<LayoutBlock>, lines: seq<set<int>>)
    requires f < |blocks| && f !in merged && MergedUpTo(text, blocks, merged, f, after, lines)
    ensures MergedUpTo(text, blocks, merged, f + 1, after, lines)
  {
    forall t | 0 <= t < |blocks|
      ensures MergedBlock(text, blocks, merged, f + 1, t, after[t])
      ensures lines[t] == UnionLines(text, blocks, merged, t, f + 1)
    {
      OtherBlockStays(text, blocks, merged, f, t, after[t]);
    }
  }

  // ---- the resolved layout ----

  /** References to a merged figure go to its table, a reference to itself is dropped. */
  function Redirect(b: LayoutBlock, renamed: map<string, string>): LayoutBlock {
    if b.relatedBlockId !in renamed then b
    else b.(relatedBlockId := if renamed[b.relatedBlockId] == b.id then "" else renamed[b.relatedBlockId])
  }

  function KeptUpTo(after: seq<LayoutBlock>, merged: map<nat, nat>, renamed: map<string, string>, n: nat): seq<LayoutBlock>
    requires n <= |after|
  {
    if n == 0 then []
    else
      KeptUpTo(after, merged, renamed, n - 1)
      + (if n - 1 in merged then [] else [Redirect(after[n - 1], renamed)])
  }

  lemma {:induction false} KeptMembers(after: seq<LayoutBlock>, merged: map<nat, nat>, renamed: map<string, string>,
                                       n: nat)
    requires n <= |after|
    ensures forall b :: b in KeptUpTo(after, merged, renamed, n) <==>
              exists i: nat | i < n && i !in merged :: b == Redirect(after[i], renamed)
  {
    if n > 0 {
      KeptMembers(after, merged, renamed, n - 1);
    }
  }

  /** Each merged figure's id now stands for the id of its table. */
  ghost predicate Renames(blocks: seq<LayoutBlock>, merged: map<nat, nat>, renamed: map<string, string>, n: nat)
    requires TargetsStay(blocks, merged)
  {
    && (forall f | f in merged && f < n :: blocks[f].id in renamed)
    && (forall id | id in renamed ::
          exists f | f in merged :: f < n && blocks[f].id == id && renamed[id] == blocks[merged[f]].id)
  }

  method RenameFigures(blocks: seq<LayoutBlock>, merged: map<nat, nat>) returns (renamed: map<string, string>)
    requires TargetsStay(blocks, merged)
    ensures Renames(blocks, merged, renamed, |blocks|)
  {
    renamed := map[];
    for f := 0 to |blocks|
      invariant Renames(blocks, merged, renamed, f)
    {
      if f in merged && blocks[f].id !in renamed {
        renamed := renamed[blocks[f].id := blocks[merged[f]].id];
      }
    }
  }

  lemma UnionMembers(text: seq<TextLine>, blocks: seq<LayoutBlock>, merged: map<nat, nat>, t: nat, n: nat, l: int)
    requires t < |blocks| && n <= |blocks|
    ensures l in UnionLines(text, blocks, merged, t, n) <==>
            l in SourceLines(text, blocks[t]) ||
            exists f | f in merged :: f < n && merged[f] == t && l in SourceLines(text, blocks[f])
  {
    if n > 0 {
      UnionMembers(text, blocks, merged, t, n - 1, l);
    }
  }

  /** What a block that gives or takes lines owns is readable throughout. */
  ghost predicate MergesReadable(text: seq<TextLine>, blocks: seq<LayoutBlock>, merged: map<nat, nat>)
    requires TargetsStay(blocks, merged)
  {
    forall f | f in merged :: AllReadable(text, blocks[f].lines) && AllReadable(text, blocks[merged[f]].lines)
  }

  /** What block t ends up owning: its own lines and those of its figures, no more and no fewer. */
  lemma MergedOwns(text: seq<TextLine>, blocks: seq<LayoutBlock>, merged: map<nat, nat>, t: nat, after: LayoutBlock, l: int)
    requires TargetsStay(blocks, merged) && MergesReadable(text, blocks, merged) && t < |blocks|
    requires MergedBlock(text, blocks, merged, |blocks|, t, after)
    ensures l in after.lines <==>
            l in blocks[t].lines || exists f | f in merged :: merged[f] == t && l in blocks[f].lines
  {
    var union := UnionLines(text, blocks, merged, t, |blocks|);
    UnionMembers(text, blocks, merged, t, |blocks|, l);
    ListOfLists(union, |text|);
    if Receives(merged, t, |blocks|) {
      var f :| f in merged && merged[f] == t;
      assert AllReadable(text, blocks[t].lines);
    }
  }

  /** Merging neither loses an owned line nor takes in another. */
  lemma MergingKeepsOwned(text: seq<TextLine>, blocks: seq<LayoutBlock>, merged: map<nat, nat>,
                          renamed: map<string, string>, after: seq<LayoutBlock>, l: int)
    requires TargetsStay(blocks, merged) && MergesReadable(text, blocks, merged) && |after| == |blocks|
    requires forall t | 0 <= t < |blocks| :: MergedBlock(text, blocks, merged, |blocks|, t, after[t])
    ensures Owns(KeptUpTo(after, merged, renamed, |after|), l) <==> Owns(blocks, l)
  {
    var resolved := KeptUpTo(after, merged, renamed, |after|);
    KeptMembers(after, merged, renamed, |after|);
    if Owns(blocks, l) {
      var i :| 0 <= i < |blocks| && l in blocks[i].lines;
      var t: nat := if i in merged then merged[i] else i;
      MergedOwns(text, blocks, merged, t, after[t], l);
      assert Redirect(after[t], renamed) in resolved;
    }
    if Owns(resolved, l) {
      var k :| 0 <= k < |resolved| && l in resolved[k].lines;
      assert resolved[k] in resolved;
      var i: nat :| i < |after| && i !in merged && resolved[k] == Redirect(after[i], renamed);
      MergedOwns(text, blocks, merged, i, after[i], l);
    }
  }

  /** The block a line goes to: the table of a merged figure, or the block it was in. */
  function Destination(merged: map<nat, nat>, i: nat): nat { if i in merged then merged[i] else i }

  ghost predicate CountsAt(after: seq<LayoutBlock>, merged: map<nat, nat>, l: int, t: nat) {
    forall k: nat | k < |after| && k !in merged :: multiset(after[k].lines)[l] == if k == t then 1 else 0
  }

  /** Whatever counts the line block by block counts it once when only block t has it. */
  lemma {:induction false} KeptTotal(after: seq<LayoutBlock>, merged: map<nat, nat>, renamed: map<string, string>, n: nat,
                                     l: int, t: nat, count: seq<LayoutBlock> -> int)
    requires n <= |after| && t !in merged && CountsAt(after, merged, l, t) && count([]) == 0
    requires forall bs: seq<LayoutBlock>, b: LayoutBlock :: count(bs + [b]) == count(bs) + multiset(b.lines)[l]
    ensures count(KeptUpTo(after, merged, renamed, n)) == if t < n then 1 else 0
  {
    if n > 0 {
      var before := KeptUpTo(after, merged, renamed, n - 1);
      KeptTotal(after, merged, renamed, n - 1, l, t, count);
      if n - 1 !in merged {
        assert count(before + [Redirect(after[n - 1], renamed)]) == count(before) + multiset(after[n - 1].lines)[l];
      } else {
        assert before + [] == before;
      }
    }
  }

  lemma KeptCount(after: seq<LayoutBlock>, merged: map<nat, nat>, renamed: map<string, string>, l: int, t: nat)
    requires t !in merged && CountsAt(after, merged, l, t)
    ensures OwnedLines(KeptUpTo(after, merged, renamed, |after|))[l] == if t < |after| then 1 else 0
  {
    var count := (bs: seq<LayoutBlock>) => OwnedLines(bs)[l] as int;
    forall bs: seq<LayoutBlock>, b: LayoutBlock
      ensures count(bs + [b]) == count(bs) + multiset(b.lines)[l]
    {
      OwnedAppend(bs, b);
    }
    KeptTotal(after, merged, renamed, |after|, l, t, count);
  }

  /** A line of one block only is counted at its destination, once, and nowhere else. */
  lemma CountedAtDestination(text: seq<TextLine>, blocks: seq<LayoutBlock>, merged: map<nat, nat>, k: nat,
                             after: LayoutBlock, l: int, i: nat)
    requires TargetsStay(blocks, merged) && MergesReadable(text, blocks, merged) && k < |blocks| && k !in merged
    requires MergedBlock(text, blocks, merged, |blocks|, k, after)
    requires i < |blocks| && OnlyIn(blocks, l, i)
    ensures multiset(after.lines)[l] == if k == Destination(merged, i) then 1 else 0
  {
    MergedOwns(text, blocks, merged, k, after, l);
    assert l in multiset(blocks[i].lines);
    assert l in after.lines <==> k == Destination(merged, i);
    if Receives(merged, k, |blocks|) {
      ListOfLists(UnionLines(text, blocks, merged, k, |blocks|), |text|);
      CountsOf(after.lines, l);
    } else if k != i {
      assert l !in multiset(after.lines);
    }
  }

  /** A line that was in one block only is in one block only afterwards: merging doubles nothing. */
  lemma MergingKeepsSingle(text: seq<TextLine>, blocks: seq<LayoutBlock>, merged: map<nat, nat>,
                           renamed: map<string, string>, after: seq<LayoutBlock>, l: int)
    requires TargetsStay(blocks, merged) && MergesReadable(text, blocks, merged) && |after| == |blocks|
    requires forall t | 0 <= t < |blocks| :: MergedBlock(text, blocks, merged, |blocks|, t, after[t])
    requires InExactlyOne(blocks, l)
    ensures InExactlyOne(KeptUpTo(after, merged, renamed, |after|), l)
  {
    var i :| 0 <= i < |blocks| && OnlyIn(blocks, l, i);
    forall k: nat | k < |after| && k !in merged
      ensures multiset(after[k].lines)[l] == if k == Destination(merged, i) then 1 else 0
    {
      CountedAtDestination(text, blocks, merged, k, after[k], l, i);
    }
    KeptCount(after, merged, renamed, l, Destination(merged, i));
    CountedOnce(KeptUpTo(after, merged, renamed, |after|), l);
  }

  /** Merging loses no line, and a line of one block only ends in one block only. */
  lemma MergingKeepsOwnership(text: seq<TextLine>, blocks: seq<LayoutBlock>, merged: map<nat, nat>,
                              renamed: map<string, string>, after: seq<LayoutBlock>, l: int)
    requires TargetsStay(blocks, merged) && MergesReadable(text, blocks, merged) && |after| == |blocks|
    requires forall t | 0 <= t < |blocks| :: MergedBlock(text, blocks, merged, |blocks|, t, after[t])
    ensures Owns(KeptUpTo(after, merged, renamed, |after|), l) <==> Owns(blocks, l)
    ensures InExactlyOne(blocks, l) ==> InExactlyOne(KeptUpTo(after, merged, renamed, |after|), l)
  {
    MergingKeepsOwned(text, blocks, merged, renamed, after, l);
    if InExactlyOne(blocks, l) {
      MergingKeepsSingle(text, blocks, merged, renamed, after, l);
    }
  }

  // ---- the stage ----

  lemma DecidedMerges(text: seq<TextLine>, blocks: seq<LayoutBlock>, tables: seq<Table>, owner: map<nat, nat>,
                      rules: StructureRules, merged: map<nat, nat>)
    requires TablesOf(blocks, tables, owner) && Decided(text, blocks, owner, rules, merged, |blocks|)
    ensures TargetsStay(blocks, merged) && MergesReadable(text, blocks, merged)
    ensures forall f | f in merged :: merged[f] in owner
  {
    forall f | f in merged
      ensures f < |blocks| && blocks[f].kind == Figure
      ensures merged[f] in owner && merged[f] < |blocks| && blocks[merged[f]].kind == BlockType.Table
      ensures AllReadable(text, blocks[f].lines) && AllReadable(text, blocks[merged[f]].lines)
    {
      assert MergesInto(text, blocks, owner, rules, f, merged[f]);
      assert IsOwner(blocks, tables, merged[f], owner[merged[f]]);
    }
  }

  /** The table's block, among the first n, took in a figure or owns text that the cells would lose. */
  ghost predicate NeedsLines(after: seq<LayoutBlock>, merged: map<nat, nat>, owner: map<nat, nat>, rules: StructureRules,
                             table: Table, t: nat, n: nat)
    requires n <= |after|
  {
    exists i: nat | i < n :: i in owner && owner[i] == t && (Receives(merged, i, |after|) || rules.losesText(after[i], table))
  }

  /** Text mode: switched on for exactly the tables that need it, and never off. */
  ghost predicate TextModes(after: seq<LayoutBlock>, merged: map<nat, nat>, owner: map<nat, nat>, rules: StructureRules,
                            tables: seq<Table>, resolved: seq<Table>, n: nat)
    requires n <= |after|
  {
    && |resolved| == |tables|
    && forall t | 0 <= t < |tables| ::
         && resolved[t] == tables[t].(sourceLines := resolved[t].sourceLines)
         && (resolved[t].sourceLines <==> tables[t].sourceLines || NeedsLines(after, merged, owner, rules, tables[t], t, n))
  }

  method ResolveTables(blocks: seq<LayoutBlock>, after: seq<LayoutBlock>, merged: map<nat, nat>, owner: map<nat, nat>,
                       rules: StructureRules, tables: seq<Table>)
    returns (resolved: seq<Table>)
    requires |after| == |blocks| && TablesOf(blocks, tables, owner) && TargetsStay(blocks, merged)
    ensures TextModes(after, merged, owner, rules, tables, resolved, |blocks|)
  {
    resolved := tables;
    for i := 0 to |blocks|
      invariant TextModes(after, merged, owner, rules, tables, resolved, i)
    {
      OneBlockMore(after, merged, owner, rules, tables, resolved, i);
      if i in owner {
        assert IsOwner(blocks, tables, i, owner[i]);
        var received := exists f | f in merged :: f < |blocks| && merged[f] == i;
        if received || rules.losesText(after[i], tables[owner[i]]) {
          resolved := resolved[owner[i] := resolved[owner[i]].(sourceLines := true)];
        }
      }
    }
  }

  /** What the next block adds to the need for lines. */
  lemma OneBlockMore(after: seq<LayoutBlock>, merged: map<nat, nat>, owner: map<nat, nat>, rules: StructureRules,
                     tables: seq<Table>, resolved: seq<Table>, i: nat)
    requires i < |after| && TextModes(after, merged, owner, rules, tables, resolved, i)
    ensures forall t | 0 <= t < |tables| ::
              NeedsLines(after, merged, owner, rules, tables[t], t, i + 1) <==>
              || NeedsLines(after, merged, owner, rules, tables[t], t, i)
              || (i in owner && owner[i] == t && (Receives(merged, i, |after|) || rules.losesText(after[i], tables[t])))
  {
  }

  method Resolve(after: seq<LayoutBlock>, merged: map<nat, nat>, renamed: map<string, string>)
    returns (resolved: seq<LayoutBlock>)
    ensures resolved == KeptUpTo(after, merged, renamed, |after|)
  {
    resolved := [];
    for i := 0 to |after|
      invariant resolved == KeptUpTo(after, merged, renamed, i)
    {
      if i !in merged {
        resolved := resolved + [Redirect(after[i], renamed)];
      }
    }
  }

  ghost predicate DistinctIds(blocks: seq<LayoutBlock>) {
    forall i, j | 0 <= i < j < |blocks| :: blocks[i].id != blocks[j].id
  }

  /** No block of the resolved layout refers to a figure that is gone, or to itself because of a merge. */
  ghost predicate NoDanglingReference(blocks: seq<LayoutBlock>, merged: map<nat, nat>, resolved: seq<LayoutBlock>) {
    forall b, f | b in resolved && f in merged && f < |blocks| :: b.relatedBlockId != blocks[f].id
  }

  lemma RenamedToTable(blocks: seq<LayoutBlock>, merged: map<nat, nat>, renamed: map<string, string>, id: string)
    returns (t: nat)
    requires TargetsStay(blocks, merged) && Renames(blocks, merged, renamed, |blocks|) && id in renamed
    ensures t < |blocks| && blocks[t].kind == BlockType.Table && renamed[id] == blocks[t].id
  {
    var g :| g in merged && g < |blocks| && blocks[g].id == id && renamed[id] == blocks[merged[g]].id;
    t := merged[g];
  }

  lemma FigureIsRenamed(blocks: seq<LayoutBlock>, merged: map<nat, nat>, renamed: map<string, string>, f: nat)
    requires TargetsStay(blocks, merged) && Renames(blocks, merged, renamed, |blocks|) && f in merged
    ensures f < |blocks| && blocks[f].kind == Figure && blocks[f].id in renamed
  {
  }

  lemma RedirectAvoids(blocks: seq<LayoutBlock>, renamed: map<string, string>, b: LayoutBlock, f: nat, t: nat)
    requires DistinctIds(blocks) && f < |blocks| && t < |blocks| && t != f
    requires blocks[f].id != "" && blocks[f].id in renamed
    requires b.relatedBlockId in renamed ==> renamed[b.relatedBlockId] == blocks[t].id
    ensures Redirect(b, renamed).relatedBlockId != blocks[f].id
  {
    assert blocks[t].id != blocks[f].id;
  }

  /** What becomes of a reference: one to a merged figure goes to its table, or away if it was the table's own. */
  ghost predicate Followed(blocks: seq<LayoutBlock>, merged: map<nat, nat>, before: LayoutBlock, after: LayoutBlock) {
    && (forall f | f in merged && ReferenceTo(blocks, before, f) :: FollowedTo(blocks, before, after, merged[f]))
    && ((forall f | f in merged :: !ReferenceTo(blocks, before, f)) ==> after == before)
  }

  predicate ReferenceTo(blocks: seq<LayoutBlock>, b: LayoutBlock, f: nat) {
    f < |blocks| && b.relatedBlockId == blocks[f].id
  }

  predicate FollowedTo(blocks: seq<LayoutBlock>, before: LayoutBlock, after: LayoutBlock, t: nat) {
    && t < |blocks|
    && after == before.(relatedBlockId := after.relatedBlockId)
    && (if before.id == blocks[t].id then after.relatedBlockId == "" else after.relatedBlockId == blocks[t].id)
  }

  lemma RenamedFigure(blocks: seq<LayoutBlock>, merged: map<nat, nat>, renamed: map<string, string>, f: nat)
    requires TargetsStay(blocks, merged) && Renames(blocks, merged, renamed, |blocks|) && DistinctIds(blocks)
    requires f in merged
    ensures f < |blocks| && merged[f] < |blocks| && blocks[f].id in renamed && renamed[blocks[f].id] == blocks[merged[f]].id
  {
    var g :| g in merged && g < |blocks| && blocks[g].id == blocks[f].id && renamed[blocks[f].id] == blocks[merged[g]].id;
    assert g == f;
  }

  /** A reference that is redirected was one to a merged figure. */
  lemma OnlyFiguresRedirect(blocks: seq<LayoutBlock>, merged: map<nat, nat>, renamed: map<string, string>, b: LayoutBlock)
    requires TargetsStay(blocks, merged) && Renames(blocks, merged, renamed, |blocks|) && DistinctIds(blocks)
    requires forall f | f in merged :: !ReferenceTo(blocks, b, f)
    ensures Redirect(b, renamed) == b
  {
    if b.relatedBlockId in renamed {
      var g :| g in merged && g < |blocks| && blocks[g].id == b.relatedBlockId;
      assert ReferenceTo(blocks, b, g);
    }
  }

  lemma FigureRedirects(blocks: seq<LayoutBlock>, merged: map<nat, nat>, renamed: map<string, string>, b: LayoutBlock, f: nat)
    requires TargetsStay(blocks, merged) && Renames(blocks, merged, renamed, |blocks|) && DistinctIds(blocks)
    requires f in merged && ReferenceTo(blocks, b, f)
    ensures FollowedTo(blocks, b, Redirect(b, renamed), merged[f])
  {
    RenamedFigure(blocks, merged, renamed, f);
  }

  lemma RedirectFollows(blocks: seq<LayoutBlock>, merged: map<nat, nat>, renamed: map<string, string>, b: LayoutBlock)
    requires TargetsStay(blocks, merged) && Renames(blocks, merged, renamed, |blocks|) && DistinctIds(blocks)
    ensures Followed(blocks, merged, b, Redirect(b, renamed))
  {
    forall f | f in merged && ReferenceTo(blocks, b, f)
      ensures FollowedTo(blocks, b, Redirect(b, renamed), merged[f])
    {
      FigureRedirects(blocks, merged, renamed, b, f);
    }
    if forall f | f in merged :: !ReferenceTo(blocks, b, f) {
      OnlyFiguresRedirect(blocks, merged, renamed, b);
    }
  }

  lemma ReferencesFollowMerges(blocks: seq<LayoutBlock>, merged: map<nat, nat>, renamed: map<string, string>,
                               after: seq<LayoutBlock>)
    requires TargetsStay(blocks, merged) && Renames(blocks, merged, renamed, |blocks|) && |after| == |blocks|
    requires DistinctIds(blocks) && forall i | 0 <= i < |blocks| :: blocks[i].id != ""
    ensures NoDanglingReference(blocks, merged, KeptUpTo(after, merged, renamed, |after|))
    ensures forall i | 0 <= i < |after| :: Followed(blocks, merged, after[i], Redirect(after[i], renamed))
  {
    forall i | 0 <= i < |after|
      ensures Followed(blocks, merged, after[i], Redirect(after[i], renamed))
    {
      RedirectFollows(blocks, merged, renamed, after[i]);
    }
    KeptMembers(after, merged, renamed, |after|);
    forall b, f | b in KeptUpTo(after, merged, renamed, |after|) && f in merged && f < |blocks|
      ensures b.relatedBlockId != blocks[f].id
    {
      var i: nat :| i < |after| && i !in merged && b == Redirect(after[i], renamed);
      FigureIsRenamed(blocks, merged, renamed, f);
      var t: nat := merged[f];
      if after[i].relatedBlockId in renamed {
        t := RenamedToTable(blocks, merged, renamed, after[i].relatedBlockId);
      }
      RedirectAvoids(blocks, renamed, after[i], f, t);
    }
  }

  /** Each table with the lines of its figures, the figures gone, references redirected, text modes set. */
  ghost predicate ResolvesTo(text: seq<TextLine>, blocks: seq<LayoutBlock>, tables: seq<Table>, rules: StructureRules,
                             merged: map<nat, nat>, owner: map<nat, nat>, resolved: seq<LayoutBlock>,
                             resolvedTables: seq<Table>)
    requires TargetsStay(blocks, merged) && TablesOf(blocks, tables, owner)
  {
    exists after, renamed ::
      && |after| == |blocks| && AllMerged(text, blocks, merged, after)
      && Renames(blocks, merged, renamed, |blocks|) && resolved == KeptUpTo(after, merged, renamed, |after|)
      && TextModes(after, merged, owner, rules, tables, resolvedTables, |blocks|)
  }

  ghost predicate AllMerged(text: seq<TextLine>, blocks: seq<LayoutBlock>, merged: map<nat, nat>, after: seq<LayoutBlock>)
    requires |after| == |blocks| && TargetsStay(blocks, merged)
  {
    forall t | 0 <= t < |blocks| :: MergedBlock(text, blocks, merged, |blocks|, t, after[t])
  }

  /**
    The resolved page owns exactly the lines it owned before: a merged figure's lines
    live on in its table, and every other block keeps its own.
   */
  method ResolvePageStructure(text: seq<TextLine>, blocks: seq<LayoutBlock>, tables: seq<Table>, rules: StructureRules)
    returns (resolved: seq<LayoutBlock>, resolvedTables: seq<Table>, ghost merged: map<nat, nat>,
             ghost owner: map<nat, nat>)
    ensures TablesOf(blocks, tables, owner) && Decided(text, blocks, owner, rules, merged, |blocks|)
    ensures TargetsStay(blocks, merged)
    ensures ResolvesTo(text, blocks, tables, rules, merged, owner, resolved, resolvedTables)
    ensures forall l :: Owns(resolved, l) <==> Owns(blocks, l)
    ensures forall l | InExactlyOne(blocks, l) :: InExactlyOne(resolved, l)
    ensures |resolvedTables| == |tables|
    ensures forall f | f in merged :: merged[f] in owner && owner[merged[f]] < |resolvedTables| &&
                                      resolvedTables[owner[merged[f]]].sourceLines
    ensures DistinctIds(blocks) && (forall i | 0 <= i < |blocks| :: blocks[i].id != "") ==>
              NoDanglingReference(blocks, merged, resolved)
  {
    var tableOf := TableBlocks(blocks, tables);
    var merges := Decide(text, blocks, tableOf, rules);
    merged, owner := merges, tableOf;
    DecidedMerges(text, blocks, tables, tableOf, rules, merges);
    var after := ApplyMerges(text, blocks, merges);
    resolvedTables := ResolveTables(blocks, after, merges, tableOf, rules, tables);
    var renamed := RenameFigures(blocks, merges);
    resolved := Resolve(after, merges, renamed);
    forall l
      ensures Owns(resolved, l) <==> Owns(blocks, l)
      ensures InExactlyOne(blocks, l) ==> InExactlyOne(resolved, l)
    {
      MergingKeepsOwnership(text, blocks, merges, renamed, after, l);
    }
    MergedTablesShowLines(blocks, after, merges, tableOf, rules, tables, resolvedTables);
    assert AllMerged(text, blocks, merges, after);
    if DistinctIds(blocks) && forall i | 0 <= i < |blocks| :: blocks[i].id != "" {
      ReferencesFollowMerges(blocks, merges, renamed, after);
    }
  }

  lemma MergedTablesShowLines(blocks: seq<LayoutBlock>, after: seq<LayoutBlock>, merged: map<nat, nat>,
                              owner: map<nat, nat>, rules: StructureRules, tables: seq<Table>, resolved: seq<Table>)
    requires TargetsStay(blocks, merged) && TablesOf(blocks, tables, owner) && |after| == |blocks|
    requires TextModes(after, merged, owner, rules, tables, resolved, |blocks|)
    requires forall f | f in merged :: merged[f] in owner
    ensures forall f | f in merged :: owner[merged[f]] < |resolved| && resolved[owner[merged[f]]].sourceLines
  {
    forall f | f in merged
      ensures owner[merged[f]] < |resolved| && resolved[owner[merged[f]]].sourceLines
    {
      assert IsOwner(blocks, tables, merged[f], owner[merged[f]]);
      assert Receives(merged, merged[f], |blocks|);
    }
  }
}
