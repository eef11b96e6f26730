/** The assembled document, its identifiers, and what the exporter accepts. */
module DocumentModel {
  import opened Sequences
  import opened Decimal
  import opened WarningAggregation

  datatype DocumentPage = DocumentPage(id: string, number: int, width: int, height: int)

  datatype DocumentBlock = DocumentBlock(id: string, relatedBlockId: string, pageId: string, sourceLabel: string)

  datatype Relation = Relation(kind: string, from: string, to: string)

  datatype Document = Document(
    partial: bool,
    sha256: string,
    pages: seq<DocumentPage>,
    blocks: seq<DocumentBlock>,
    relations: seq<Relation>,
    warnings: seq<Warning>)

  // ---- identifiers ----

  function PageId(number: nat): string { "page_" + ToText(number) }

  function BlockId(page: nat, position: nat): string { "doc_page_" + ToText(page) + "_block_" + ToText(position + 1) }

  lemma PageIdIsInjective(a: nat, b: nat)
    requires PageId(a) == PageId(b)
    ensures a == b
  {
    assert PageId(a)[5..] == ToText(a) && PageId(b)[5..] == ToText(b);
    ToTextIsInjective(a, b);
  }

  lemma TextsAreDigits(n: nat)
    ensures forall i | 0 <= i < |ToText(n)| :: ToText(n)[i] != '_'
  {
    forall i | 0 <= i < |ToText(n)|
      ensures ToText(n)[i] != '_'
    {
      assert ToText(n)[i] == '0' + Digits(n)[i] as char;
    }
  }

  /** The page number ends at the first underscore behind it. */
  lemma NumberEndsAtSeparator(a: string, b: string, tail: string, other: string)
    requires forall i | 0 <= i < |a| :: a[i] != '_'
    requires forall i | 0 <= i < |b| :: b[i] != '_'
    requires a + "_block_" + tail == b + "_block_" + other
    ensures a == b && tail == other
  {
    var s, t := a + "_block_" + tail, b + "_block_" + other;
    assert s[|a|] == '_' && t[|b|] == '_';
    assert s[..|a|] == a && t[..|b|] == b;
    assert s[|a| + 7..] == tail && t[|b| + 7..] == other;
  }

  lemma BlockIdIsInjective(page: nat, position: nat, otherPage: nat, other: nat)
    requires BlockId(page, position) == BlockId(otherPage, other)
    ensures page == otherPage && position == other
  {
    TextsAreDigits(page);
    TextsAreDigits(otherPage);
    var prefix := "doc_page_";
    assert BlockId(page, position)[|prefix|..] == ToText(page) + "_block_" + ToText(position + 1);
    assert BlockId(otherPage, other)[|prefix|..] == ToText(otherPage) + "_block_" + ToText(other + 1);
    NumberEndsAtSeparator(ToText(page), ToText(otherPage), ToText(position + 1), ToText(other + 1));
    ToTextIsInjective(page, otherPage);
    ToTextIsInjective(position + 1, other + 1);
  }

  // ---- what the exporter accepts ----

  predicate LowerHex(c: char) { '0' <= c <= '9' || 'a' <= c <= 'f' }

  predicate ValidDigest(sha256: string) {
    sha256 == "" || (|sha256| == 64 && forall i | 0 <= i < 64 :: LowerHex(sha256[i]))
  }

  predicate HasPage(pages: seq<DocumentPage>, id: string) { exists i | 0 <= i < |pages| :: pages[i].id == id }

  predicate HasBlock(blocks: seq<DocumentBlock>, id: string) { exists i | 0 <= i < |blocks| :: blocks[i].id == id }

  predicate ValidPage(p: DocumentPage) { p.id != "" && p.number > 0 && p.width > 0 && p.height > 0 }

  ghost predicate ValidPages(pages: seq<DocumentPage>) {
    && (forall i | 0 <= i < |pages| :: ValidPage(pages[i]))
    && (forall i, j | 0 <= i < j < |pages| :: pages[i].id != pages[j].id && pages[i].number != pages[j].number)
  }

  ghost predicate ValidBlocks(blocks: seq<DocumentBlock>) {
    && (forall i | 0 <= i < |blocks| :: blocks[i].id != "")
    && (forall i, j | 0 <= i < j < |blocks| :: blocks[i].id != blocks[j].id)
  }

  predicate ValidRelation(blocks: seq<DocumentBlock>, r: Relation) {
    r.kind != "" && HasBlock(blocks, r.from) && HasBlock(blocks, r.to) && r.from != r.to
  }

  predicate KnownPages(pages: seq<DocumentPage>, ids: seq<string>) { forall id | id in ids :: HasPage(pages, id) }

  ghost predicate ValidWarning(d: Document, w: Warning) {
    && w.identity.code != "" && w.identity.message != ""
    && (w.pageId != "" ==> HasPage(d.pages, w.pageId))
    && (w.identity.blockId != "" ==> HasBlock(d.blocks, w.identity.blockId))
    && w.count >= 1 && (w.pageId != "" ==> w.pageIds == [])
    && KnownPages(d.pages, w.pageIds) && Distinct(w.pageIds) && w.count >= |w.pageIds|
  }

  ghost predicate ValidCoreModel(d: Document) {
    && (d.partial ==> d.warnings != [])
    && ValidDigest(d.sha256) && ValidPages(d.pages) && ValidBlocks(d.blocks)
    && (forall i | 0 <= i < |d.relations| :: ValidRelation(d.blocks, d.relations[i]))
    && (forall i | 0 <= i < |d.warnings| :: ValidWarning(d, d.warnings[i]))
  }

  // ---- the exporter's check ----

  method CheckPages(pages: seq<DocumentPage>) returns (ok: bool, ids: set<string>)
    ensures ok <==> ValidPages(pages)
    ensures ok ==> forall id :: id in ids <==> HasPage(pages, id)
  {
    ids := {};
    var numbers: set<int> := {};
    for i := 0 to |pages|
      invariant ValidPages(pages[..i])
      invariant forall id :: id in ids <==> HasPage(pages[..i], id)
      invariant forall n :: n in numbers <==> exists k | 0 <= k < i :: pages[k].number == n
    {
      var p := pages[i];
      if !ValidPage(p) || p.id in ids || p.number in numbers { return false, {}; }
      forall id
        ensures HasPage(pages[..i + 1], id) <==> HasPage(pages[..i], id) || id == p.id
      {
        OnePageMore(pages, i, id);
      }
      ids, numbers := ids + {p.id}, numbers + {p.number};
    }
    assert pages[..|pages|] == pages;
    ok := true;
  }

  lemma OnePageMore(pages: seq<DocumentPage>, i: nat, id: string)
    requires i < |pages|
    ensures HasPage(pages[..i + 1], id) <==> HasPage(pages[..i], id) || id == pages[i].id
  {
    if HasPage(pages[..i], id) {
      var k :| 0 <= k < i && pages[..i][k].id == id;
      assert pages[..i + 1][k].id == id;
    }
    assert pages[..i + 1][i] == pages[i];
  }

  lemma OneBlockMore(blocks: seq<DocumentBlock>, i: nat, id: string)
    requires i < |blocks|
    ensures HasBlock(blocks[..i + 1], id) <==> HasBlock(blocks[..i], id) || id == blocks[i].id
  {
    if HasBlock(blocks[..i], id) {
      var k :| 0 <= k < i && blocks[..i][k].id == id;
      assert blocks[..i + 1][k].id == id;
    }
    assert blocks[..i + 1][i] == blocks[i];
  }

  method CheckBlocks(blocks: seq<DocumentBlock>) returns (ok: bool, ids: set<string>)
    ensures ok <==> ValidBlocks(blocks)
    ensures ok ==> forall id :: id in ids <==> HasBlock(blocks, id)
  {
    ids := {};
    for i := 0 to |blocks|
      invariant ValidBlocks(blocks[..i])
      invariant forall id :: id in ids <==> HasBlock(blocks[..i], id)
    {
      if blocks[i].id == "" || blocks[i].id in ids { return false, {}; }
      forall id
        ensures HasBlock(blocks[..i + 1], id) <==> HasBlock(blocks[..i], id) || id == blocks[i].id
      {
        OneBlockMore(blocks, i, id);
      }
      ids := ids + {blocks[i].id};
    }
    assert blocks[..|blocks|] == blocks;
    ok := true;
  }

  method CheckPageList(ids: set<string>, listed: seq<string>) returns (ok: bool, distinct: nat)
    ensures ok <==> (forall id | id in listed :: id in ids) && Distinct(listed)
    ensures ok ==> distinct == |listed|
  {
    var seen: set<string> := {};
    distinct := 0;
    for i := 0 to |listed|
      invariant Distinct(listed[..i]) && forall id | id in listed[..i] :: id in ids
      invariant forall id :: id in seen <==> id in listed[..i]
      invariant distinct == i
    {
      assert listed[..i + 1] == listed[..i] + [listed[i]];
      if listed[i] !in ids || listed[i] in seen { return false, 0; }
      seen, distinct := seen + {listed[i]}, distinct + 1;
    }
    assert listed[..|listed|] == listed;
    ok := true;
  }

  method CheckWarning(d: Document, w: Warning, pageIds: set<string>, blockIds: set<string>) returns (ok: bool)
    requires forall id :: id in pageIds <==> HasPage(d.pages, id)
    requires forall id :: id in blockIds <==> HasBlock(d.blocks, id)
    ensures ok <==> ValidWarning(d, w)
  {
    if w.identity.code == "" || w.identity.message == "" { return false; }
    if w.pageId != "" && w.pageId !in pageIds { return false; }
    if w.identity.blockId != "" && w.identity.blockId !in blockIds { return false; }
    if w.count < 1 || (w.pageId != "" && w.pageIds != []) { return false; }
    var listed, distinct := CheckPageList(pageIds, w.pageIds);
    ok := listed && w.count >= distinct;
  }

  /** The exporter's validation accepts exactly the valid documents. */
  method ValidateCoreModel(d: Document) returns (ok: bool)
    ensures ok <==> ValidCoreModel(d)
  {
    if (d.partial && d.warnings == []) || !ValidDigest(d.sha256) { return false; }
    var pagesOk, pageIds := CheckPages(d.pages);
    if !pagesOk { return false; }
    var blocksOk, blockIds := CheckBlocks(d.blocks);
    if !blocksOk { return false; }
    for i := 0 to |d.relations|
      invariant forall k | 0 <= k < i :: ValidRelation(d.blocks, d.relations[k])
    {
      var r := d.relations[i];
      if r.kind == "" || r.from !in blockIds || r.to !in blockIds || r.from == r.to { return false; }
    }
    for i := 0 to |d.warnings|
      invariant forall k | 0 <= k < i :: ValidWarning(d, d.warnings[k])
    {
      var valid := CheckWarning(d, d.warnings[i], pageIds, blockIds);
      if !valid { return false; }
    }
    ok := true;
  }
}
