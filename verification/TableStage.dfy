/** The table stage of one page: detected tables join the layout, lost lines are recovered, figures are merged. */
module TableStage {
  import opened Sequences
  import opened Decimal
  import opened LayoutModel
  import opened LayoutBlocks
  import opened TextGeometry
  import opened PageGeometry
  import opened GridGeometry
  import opened LineRecovery
  import opened PageStructure

  // ---- detected tables ----

  function BlockId(page: nat, number: nat): string { "page_" + ToText(page) + "_block_" + ToText(number) }

  lemma BlockIdIsInjective(page: nat, a: nat, b: nat)
    requires BlockId(page, a) == BlockId(page, b)
    ensures a == b
  {
    var prefix := "page_" + ToText(page) + "_block_";
    assert BlockId(page, a)[|prefix|..] == ToText(a);
    assert BlockId(page, b)[|prefix|..] == ToText(b);
    ToTextIsInjective(a, b);
  }

  predicate Named(blocks: seq<LayoutBlock>, id: string) { exists i | 0 <= i < |blocks| :: blocks[i].id == id }

  /** The covered ones of the first n lines, in order. */
  function Covered(text: seq<TextLine>, box: BBox, covers: (BBox, BBox) -> bool, n: nat): seq<int>
    requires n <= |text|
  {
    if n == 0 then []
    else Covered(text, box, covers, n - 1) + (if covers(text[n - 1].bbox, box) then [n - 1] else [])
  }

  lemma {:induction false} CoveredAscends(text: seq<TextLine>, box: BBox, covers: (BBox, BBox) -> bool, n: nat)
    requires n <= |text|
    ensures var lines := Covered(text, box, covers, n);
            && (forall l :: l in lines <==> 0 <= l < n && covers(text[l].bbox, box))
            && forall i, j | 0 <= i < j < |lines| :: lines[i] < lines[j]
  {
    if n > 0 {
      CoveredAscends(text, box, covers, n - 1);
      var front := Covered(text, box, covers, n - 1);
      assert forall i | 0 <= i < |front| :: front[i] in front;
    }
  }

  /** The covered lines, as a new table block owns them. */
  method CoveredLines(text: seq<TextLine>, box: BBox, covers: (BBox, BBox) -> bool) returns (lines: seq<int>)
    ensures lines == Covered(text, box, covers, |text|)
  {
    lines := [];
    for l := 0 to |text|
      invariant lines == Covered(text, box, covers, l)
    {
      if covers(text[l].bbox, box) {
        lines := lines + [l];
      }
    }
  }

  /** A block that was added for a table: it carries the number of its place, and the table knows it. */
  ghost predicate AddedForTable(page: nat, blocks: seq<LayoutBlock>, n: nat) {
    forall i | n <= i < |blocks| :: blocks[i].id == BlockId(page, i + 1) && blocks[i].kind == BlockType.Table
  }

  ghost predicate TablesNamed(blocks: seq<LayoutBlock>, tables: seq<Table>, n: nat)
    requires n <= |tables|
  {
    forall t | 0 <= t < n :: Named(blocks, tables[t].layoutBlockId)
  }

  /** A new block is labelled in any case, by its table where the table has a label. */
  function LabelOf(table: Table): (name: string)
    ensures name != "" && (table.sourceLabel != "" ==> name == table.sourceLabel)
  {
    if table.sourceLabel == "" then "table detector" else table.sourceLabel
  }

  /** No block of the layout already carries a number that a new table block may get. */
  ghost predicate NumbersFree(page: nat, blocks: seq<LayoutBlock>) {
    forall i, k: nat | 0 <= i < |blocks| && k > |blocks| :: blocks[i].id != BlockId(page, k)
  }

  ghost predicate OwnBlockEach(tables: seq<Table>, n: nat)
    requires n <= |tables|
  {
    forall s, t | 0 <= s < t < n :: tables[s].layoutBlockId != tables[t].layoutBlockId
  }

  ghost predicate SameButNames(before: seq<Table>, after: seq<Table>) {
    |after| == |before| && forall t | 0 <= t < |before| :: after[t] == before[t].(layoutBlockId := after[t].layoutBlockId)
  }

  function TableBlock(text: seq<TextLine>, page: nat, number: nat, table: Table, lines: seq<int>): LayoutBlock {
    LayoutBlock(BlockId(page, number), BlockType.Table, LabelOf(table), "", -1, table.bbox, lines)
  }

  /** The blocks, and the block each of the first n tables has. */
  function Attached(text: seq<TextLine>, page: nat, blocks: seq<LayoutBlock>, tables: seq<Table>,
                    covers: (BBox, BBox) -> bool, n: nat): (r: (seq<LayoutBlock>, seq<string>))
    requires n <= |tables|
    ensures |r.1| == n
  {
    if n == 0 then (blocks, [])
    else
      var (attached, ids) := Attached(text, page, blocks, tables, covers, n - 1);
      var table := tables[n - 1];
      if KeepsBlock(attached, ids, table) then (attached, ids + [table.layoutBlockId])
      else
        var b := TableBlock(text, page, |attached| + 1, table, Covered(text, table.bbox, covers, |text|));
        (attached + [b], ids + [b.id])
  }

  /** The table names a block of the page that no earlier table has. */
  predicate KeepsBlock(attached: seq<LayoutBlock>, ids: seq<string>, table: Table) {
    table.layoutBlockId != "" && Named(attached, table.layoutBlockId) && table.layoutBlockId !in ids
  }

  /** Each table's block is on the page; no two share one when the page's own ids allow it. */
  ghost predicate AttachedWell(page: nat, blocks: seq<LayoutBlock>, attached: seq<LayoutBlock>, ids: seq<string>) {
    && blocks <= attached && AddedForTable(page, attached, |blocks|)
    && (forall t | 0 <= t < |ids| :: Named(attached, ids[t]))
    && (NumbersFree(page, blocks) ==> Distinct(ids))
  }

  /** A new number is not among the names in use. */
  lemma NewIdIsUnused(page: nat, blocks: seq<LayoutBlock>, attached: seq<LayoutBlock>, ids: seq<string>)
    requires AttachedWell(page, blocks, attached, ids) && NumbersFree(page, blocks)
    ensures BlockId(page, |attached| + 1) !in ids
  {
    forall t | 0 <= t < |ids|
      ensures ids[t] != BlockId(page, |attached| + 1)
    {
      assert Named(attached, ids[t]);
      var i :| 0 <= i < |attached| && attached[i].id == ids[t];
      if i < |blocks| {
        assert attached[i] == blocks[i];
      } else if BlockId(page, i + 1) == BlockId(page, |attached| + 1) {
        BlockIdIsInjective(page, i + 1, |attached| + 1);
      }
    }
  }

  lemma NamedStays(attached: seq<LayoutBlock>, b: LayoutBlock, id: string)
    requires Named(attached, id) || id == b.id
    ensures Named(attached + [b], id)
  {
    if Named(attached, id) {
      var i :| 0 <= i < |attached| && attached[i].id == id;
      assert (attached + [b])[i].id == id;
    } else {
      assert (attached + [b])[|attached|].id == id;
    }
  }

  lemma BlockAdded(page: nat, blocks: seq<LayoutBlock>, attached: seq<LayoutBlock>, ids: seq<string>, b: LayoutBlock)
    requires AttachedWell(page, blocks, attached, ids)
    requires b.id == BlockId(page, |attached| + 1) && b.kind == BlockType.Table
    ensures AttachedWell(page, blocks, attached + [b], ids + [b.id])
  {
    forall t | 0 <= t < |ids + [b.id]|
      ensures Named(attached + [b], (ids + [b.id])[t])
    {
      NamedStays(attached, b, (ids + [b.id])[t]);
    }
    if NumbersFree(page, blocks) {
      NewIdIsUnused(page, blocks, attached, ids);
    }
  }

  lemma {:induction false} AttachedIsWell(text: seq<TextLine>, page: nat, blocks: seq<LayoutBlock>, tables: seq<Table>,
                                          covers: (BBox, BBox) -> bool, n: nat)
    requires n <= |tables|
    ensures var (attached, ids) := Attached(text, page, blocks, tables, covers, n); AttachedWell(page, blocks, attached, ids)
  {
    if n > 0 {
      AttachedIsWell(text, page, blocks, tables, covers, n - 1);
      var (attached, ids) := Attached(text, page, blocks, tables, covers, n - 1);
      if !KeepsBlock(attached, ids, tables[n - 1]) {
        var lines := Covered(text, tables[n - 1].bbox, covers, |text|);
        BlockAdded(page, blocks, attached, ids, TableBlock(text, page, |attached| + 1, tables[n - 1], lines));
      }
    }
  }

  ghost predicate NamesAre(named: seq<Table>, ids: seq<string>, n: nat) {
    n <= |named| && |ids| == n && forall t | 0 <= t < n :: named[t].layoutBlockId == ids[t]
  }

  /** The first t tables carry their names, the others are as they were. */
  ghost predicate NamedUpTo(tables: seq<Table>, named: seq<Table>, ids: seq<string>, t: nat) {
    && SameButNames(tables, named) && NamesAre(named, ids, t)
    && forall k | t <= k < |named| :: named[k] == tables[k]
  }

  lemma NamedOneMore(tables: seq<Table>, named: seq<Table>, ids: seq<string>, t: nat, id: string)
    requires NamedUpTo(tables, named, ids, t) && t < |tables|
    ensures NamedUpTo(tables, named[t := tables[t].(layoutBlockId := id)], ids + [id], t + 1)
  {
  }

  /**
    The first table of a block keeps it; any other table gets a new block. Unless the
    layout already uses one of the new numbers, every table ends up with its own block.
   */
  method AttachDetectedTables(text: seq<TextLine>, page: nat, blocks: seq<LayoutBlock>, tables: seq<Table>,
                              covers: (BBox, BBox) -> bool)
    returns (attached: seq<LayoutBlock>, named: seq<Table>)
    ensures blocks <= attached && AddedForTable(page, attached, |blocks|)
    ensures SameButNames(tables, named) && TablesNamed(attached, named, |named|)
    ensures NumbersFree(page, blocks) ==> OwnBlockEach(named, |named|)
    ensures var r := Attached(text, page, blocks, tables, covers, |tables|);
      attached == r.0 && NamesAre(named, r.1, |tables|)
  {
    ghost var ids;
    attached, named, ids := NameTables(text, page, blocks, tables, covers);
    AttachedIsWell(text, page, blocks, tables, covers, |tables|);
    NamesFromIds(page, blocks, attached, named, ids);
  }

  lemma NamesFromIds(page: nat, blocks: seq<LayoutBlock>, attached: seq<LayoutBlock>, named: seq<Table>, ids: seq<string>)
    requires AttachedWell(page, blocks, attached, ids) && NamesAre(named, ids, |named|)
    ensures TablesNamed(attached, named, |named|)
    ensures NumbersFree(page, blocks) ==> OwnBlockEach(named, |named|)
  {
  }

  /** The block the table names, unless another table has it or it is not there; then a new one. */
  method BlockFor(text: seq<TextLine>, page: nat, attached: seq<LayoutBlock>, table: Table, claimed: set<string>,
                  ghost ids: seq<string>, covers: (BBox, BBox) -> bool) returns (more: seq<LayoutBlock>, id: string)
    requires forall id :: id in claimed <==> id in ids
    ensures KeepsBlock(attached, ids, table) ==> more == attached && id == table.layoutBlockId
    ensures !KeepsBlock(attached, ids, table) ==>
      var b := TableBlock(text, page, |attached| + 1, table, Covered(text, table.bbox, covers, |text|));
      more == attached + [b] && id == b.id
  {
    if table.layoutBlockId != "" && Named(attached, table.layoutBlockId) && table.layoutBlockId !in claimed {
      return attached, table.layoutBlockId;
    }
    var lines := CoveredLines(text, table.bbox, covers);
    var b := TableBlock(text, page, |attached| + 1, table, lines);
    more, id := attached + [b], b.id;
  }

  method NameTables(text: seq<TextLine>, page: nat, blocks: seq<LayoutBlock>, tables: seq<Table>,
                    covers: (BBox, BBox) -> bool)
    returns (attached: seq<LayoutBlock>, named: seq<Table>, ghost ids: seq<string>)
    ensures (attached, ids) == Attached(text, page, blocks, tables, covers, |tables|)
    ensures NamedUpTo(tables, named, ids, |tables|)
  {
    attached, named, ids := blocks, tables, [];
    var claimed: set<string> := {};
    for t := 0 to |tables|
      invariant (attached, ids) == Attached(text, page, blocks, tables, covers, t)
      invariant NamedUpTo(tables, named, ids, t)
      invariant forall id :: id in claimed <==> id in ids
    {
      var id;
      attached, id := BlockFor(text, page, attached, tables[t], claimed, ids, covers);
      NamedOneMore(tables, named, ids, t, id);
      named := named[t := tables[t].(layoutBlockId := id)];
      claimed, ids := claimed + {id}, ids + [id];
    }
  }

  /** The blocks added for tables have different ids. */
  lemma AddedIdsDiffer(page: nat, blocks: seq<LayoutBlock>, n: nat, i: nat, j: nat)
    requires AddedForTable(page, blocks, n) && n <= i < j < |blocks|
    ensures blocks[i].id != blocks[j].id
  {
    if BlockId(page, i + 1) == BlockId(page, j + 1) {
      BlockIdIsInjective(page, i + 1, j + 1);
    }
  }

  // ---- one page ----

  datatype PageRules = PageRules(covers: (BBox, BBox) -> bool, recovery: RecoveryRules, structure: StructureRules)

  /** The source's rules for a page; how text reads and whether a table's cells lose text is left open. */
  function RulesOf(text: seq<TextLine>, size: PageSize, patterns: TextPatterns, losesText: (LayoutBlock, Table) -> bool)
    : PageRules
  {
    PageRules(
      (line: BBox, table: BBox) => OverlapOverLine(line, table) >= 0.5,
      PageRecoveryRules(size, MedianTextLineHeight(text), patterns),
      StructureRules((table: LayoutBlock, figure: LayoutBlock) => SameVisualRegion(table.bbox, figure.bbox), losesText))
  }

  lemma RulesAreSymmetric(text: seq<TextLine>, size: PageSize, patterns: TextPatterns,
                          losesText: (LayoutBlock, Table) -> bool)
    ensures Symmetric(RulesOf(text, size, patterns, losesText).recovery.grid)
  {
    PageGridRulesAreSymmetric(size, MedianTextLineHeight(text));
  }

  /** The page owns what the layout and the tables owned, and every recoverable line, and nothing else. */
  ghost predicate OwnsAll(text: seq<TextLine>, attached: seq<LayoutBlock>, rules: RecoveryRules,
                          resolved: seq<LayoutBlock>)
  {
    forall l :: Owns(resolved, l) <==> Owns(attached, l) || l in Recoverable(text, attached, rules)
  }

  /** Every recovered line ends up in one block, once; so does every line that was in one block before. */
  ghost predicate RecoveredOnce(text: seq<TextLine>, attached: seq<LayoutBlock>, rules: RecoveryRules,
                                resolved: seq<LayoutBlock>)
  {
    forall l | l in Recoverable(text, attached, rules) || InExactlyOne(attached, l) :: InExactlyOne(resolved, l)
  }

  lemma {:induction false} SingleIsCountedOnce(blocks: seq<LayoutBlock>, l: int, i: nat)
    requires i < |blocks| && OnlyIn(blocks, l, i)
    ensures OwnedLines(blocks)[l] == 1
  {
    var last := |blocks| - 1;
    var front := blocks[..last];
    assert forall j | 0 <= j < last :: front[j] == blocks[j];
    if i == last {
      OwnedIffCounted(front, l);
    } else {
      assert OnlyIn(front, l, i);
      SingleIsCountedOnce(front, l, i);
    }
  }

  /** Recovery leaves a line that was in one block where it was. */
  lemma RecoveryKeepsSingle(text: seq<TextLine>, attached: seq<LayoutBlock>, rules: RecoveryRules,
                            recovered: seq<LayoutBlock>, l: int)
    requires OwnedLines(recovered) == OwnedLines(attached) + multiset(Recoverable(text, attached, rules))
    requires l in Recoverable(text, attached, rules) || InExactlyOne(attached, l)
    ensures InExactlyOne(recovered, l)
  {
    RecoveredLineIsInExactlyOneBlock(text, attached, rules, recovered, l);
    if l !in Recoverable(text, attached, rules) {
      var i :| 0 <= i < |attached| && OnlyIn(attached, l, i);
      SingleIsCountedOnce(attached, l, i);
      CountedOnce(recovered, l);
    }
  }

  lemma RecoveryOwns(text: seq<TextLine>, attached: seq<LayoutBlock>, rules: RecoveryRules, recovered: seq<LayoutBlock>,
                     l: int)
    requires OwnedLines(recovered) == OwnedLines(attached) + multiset(Recoverable(text, attached, rules))
    ensures Owns(recovered, l) <==> Owns(attached, l) || l in Recoverable(text, attached, rules)
  {
    OwnedIffCounted(recovered, l);
    OwnedIffCounted(attached, l);
    assert l in Recoverable(text, attached, rules) <==> l in multiset(Recoverable(text, attached, rules));
  }

  /** The recovered blocks with the decided merges carried out. */
  ghost predicate StructureResolved(text: seq<TextLine>, blocks: seq<LayoutBlock>, tables: seq<Table>,
                                    rules: StructureRules, resolved: seq<LayoutBlock>, resolvedTables: seq<Table>)
  {
    exists merged, owner ::
      && TablesOf(blocks, tables, owner) && Decided(text, blocks, owner, rules, merged, |blocks|)
      && TargetsStay(blocks, merged)
      && ResolvesTo(text, blocks, tables, rules, merged, owner, resolved, resolvedTables)
  }

  /** The three steps, under any rules. */
  method RecognizeUnder(text: seq<TextLine>, page: nat, blocks: seq<LayoutBlock>, tables: seq<Table>, medianHeight: real,
                        rules: PageRules)
    returns (resolved: seq<LayoutBlock>, resolvedTables: seq<Table>, stats: RecoveryStats,
             ghost attached: seq<LayoutBlock>, ghost named: seq<Table>, ghost recovered: seq<LayoutBlock>)
    requires Symmetric(rules.recovery.grid)
    ensures blocks <= attached && AddedForTable(page, attached, |blocks|)
    ensures SameButNames(tables, named) && TablesNamed(attached, named, |named|)
    ensures Recovered(text, page, attached, rules.recovery, recovered)
    ensures StructureResolved(text, recovered, named, rules.structure, resolved, resolvedTables)
    ensures OwnsAll(text, attached, rules.recovery, resolved)
    ensures RecoveredOnce(text, attached, rules.recovery, resolved)
    ensures stats.recovered == |Recoverable(text, attached, rules.recovery)|
    ensures |resolvedTables| == |tables|
  {
    var withTables, namedTables := AttachDetectedTables(text, page, blocks, tables, rules.covers);
    attached, named := withTables, namedTables;
    var recoveredBlocks;
    recoveredBlocks, stats := RecoverUnassignedTextLines(text, page, withTables, medianHeight, rules.recovery);
    recovered := recoveredBlocks;
    ghost var merged, owner;
    resolved, resolvedTables, merged, owner :=
      ResolvePageStructure(text, recoveredBlocks, namedTables, rules.structure);
    forall l
      ensures Owns(resolved, l) <==> Owns(withTables, l) || l in Recoverable(text, withTables, rules.recovery)
    {
      RecoveryOwns(text, withTables, rules.recovery, recovered, l);
    }
    forall l | l in Recoverable(text, withTables, rules.recovery) || InExactlyOne(withTables, l)
      ensures InExactlyOne(resolved, l)
    {
      RecoveryKeepsSingle(text, withTables, rules.recovery, recovered, l);
    }
  }

  /** Tables get blocks, unowned lines get recovered, figures that repeat a table disappear into it. */
  method RecognizePage(text: seq<TextLine>, page: nat, size: PageSize, blocks: seq<LayoutBlock>, tables: seq<Table>,
                       patterns: TextPatterns, losesText: (LayoutBlock, Table) -> bool)
    returns (resolved: seq<LayoutBlock>, resolvedTables: seq<Table>, stats: RecoveryStats,
             ghost attached: seq<LayoutBlock>, ghost named: seq<Table>, ghost recovered: seq<LayoutBlock>)
    ensures blocks <= attached && AddedForTable(page, attached, |blocks|)
    ensures SameButNames(tables, named) && TablesNamed(attached, named, |named|)
    ensures var rules := RulesOf(text, size, patterns, losesText);
      && Recovered(text, page, attached, rules.recovery, recovered)
      && StructureResolved(text, recovered, named, rules.structure, resolved, resolvedTables)
      && OwnsAll(text, attached, rules.recovery, resolved)
      && RecoveredOnce(text, attached, rules.recovery, resolved)
      && stats.recovered == |Recoverable(text, attached, rules.recovery)|
    ensures |resolvedTables| == |tables|
  {
    var medianHeight := MedianLineHeight(text);
    RulesAreSymmetric(text, size, patterns, losesText);
    resolved, resolvedTables, stats, attached, named, recovered :=
      RecognizeUnder(text, page, blocks, tables, medianHeight, RulesOf(text, size, patterns, losesText));
  }

  /** A visible line in a proper box is lost only when it lies on a header or footer or in a marginal numbering. */
  lemma NoVisibleLineIsLost(text: seq<TextLine>, size: PageSize, blocks: seq<LayoutBlock>, patterns: TextPatterns,
                            losesText: (LayoutBlock, Table) -> bool, attached: seq<LayoutBlock>,
                            resolved: seq<LayoutBlock>, line: int)
    requires blocks <= attached && OwnsAll(text, attached, RulesOf(text, size, patterns, losesText).recovery, resolved)
    requires 0 <= line < |text| && text[line].visible && ValidBox(text[line].bbox)
    ensures Owns(blocks, line) ==> Owns(resolved, line)
    ensures Owns(resolved, line) || OverlapsFurniture(text[line].bbox, attached) ||
            patterns.marginal(UnassignedUpTo(text, attached, RulesOf(text, size, patterns, losesText).recovery, |text|), line)
  {
    var rules := RulesOf(text, size, patterns, losesText).recovery;
    RecoverableLines(text, attached, rules);
    if Owns(blocks, line) {
      var i :| 0 <= i < |blocks| && line in blocks[i].lines;
      assert line in attached[i].lines;
    }
  }
}
