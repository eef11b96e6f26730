/**
  Assembly of the pages into one document: blocks in reading order, repeated headers
  and footers left out, identifiers and relations. How furniture text is normalised is
  an arbitrary function.
 */
module DocumentAssembly {
  import opened Sequences
  import opened FirstSeen
  import opened LayoutModel
  import opened WarningAggregation
  import opened DocumentModel

  datatype Item = Item(layoutBlockId: string, layoutBlockIndex: int)

  datatype Page = Page(pageIndex: int, number: nat, width: int, height: int, blocks: seq<LayoutBlock>, items: seq<Item>)

  /** The normalised text of a header or footer, as its signature; empty when there is none. */
  type Furniture = (Page, LayoutBlock) -> string

  // ---- reading order ----

  predicate Usable(p: Page, item: Item) {
    && 0 <= item.layoutBlockIndex < |p.blocks|
    && (item.layoutBlockId == "" || p.blocks[item.layoutBlockIndex].id == item.layoutBlockId)
  }

  function UsableIndices(p: Page, n: nat): seq<nat>
    requires n <= |p.items|
  {
    if n == 0 then []
    else UsableIndices(p, n - 1) + (if Usable(p, p.items[n - 1]) then [p.items[n - 1].layoutBlockIndex as nat] else [])
  }

  function Indices(n: nat): seq<nat> { seq(n, i => i) }

  /** The blocks the reading order names, as first named, and then the others. */
  function OrderedIndices(p: Page): seq<nat> {
    Union(Union([], UsableIndices(p, |p.items|)), Indices(|p.blocks|))
  }

  method Append(order: seq<nat>, seen: set<nat>, index: nat) returns (order': seq<nat>, seen': set<nat>)
    requires forall i :: i in seen <==> i in order
    ensures order' == AddNew(order, index) && forall i :: i in seen' <==> i in order'
  {
    order', seen' := order, seen;
    if index !in seen {
      order', seen' := order + [index], seen + {index};
    }
  }

  lemma UsableStep(p: Page, k: nat)
    requires k < |p.items|
    ensures Union([], UsableIndices(p, k + 1)) ==
            if Usable(p, p.items[k]) then AddNew(Union([], UsableIndices(p, k)), p.items[k].layoutBlockIndex as nat)
            else Union([], UsableIndices(p, k))
  {
    if Usable(p, p.items[k]) {
      assert UsableIndices(p, k + 1)[..|UsableIndices(p, k)|] == UsableIndices(p, k);
    } else {
      assert UsableIndices(p, k + 1) == UsableIndices(p, k);
    }
  }

  lemma IndexStep(named: seq<nat>, index: nat)
    ensures Union(named, Indices(index + 1)) == AddNew(Union(named, Indices(index)), index)
  {
    assert Indices(index + 1)[..index] == Indices(index);
  }

  method OrderedLayoutBlockIndices(p: Page) returns (order: seq<nat>)
    ensures order == OrderedIndices(p)
  {
    order := [];
    var seen: set<nat> := {};
    for k := 0 to |p.items|
      invariant order == Union([], UsableIndices(p, k)) && forall i :: i in seen <==> i in order
    {
      UsableStep(p, k);
      if Usable(p, p.items[k]) {
        order, seen := Append(order, seen, p.items[k].layoutBlockIndex);
      }
    }
    ghost var named := order;
    for index := 0 to |p.blocks|
      invariant order == Union(named, Indices(index)) && forall i :: i in seen <==> i in order
    {
      IndexStep(named, index);
      order, seen := Append(order, seen, index);
    }
  }

  lemma {:induction false} UsableInRange(p: Page, n: nat)
    requires n <= |p.items|
    ensures forall i | i in UsableIndices(p, n) :: i < |p.blocks|
  {
    if n > 0 {
      UsableInRange(p, n - 1);
    }
  }

  /** Whatever the reading order says, every block comes exactly once. */
  lemma OrderIsPermutation(p: Page)
    ensures IsPermutation(OrderedIndices(p), |p.blocks|)
  {
    var named, order := Union([], UsableIndices(p, |p.items|)), OrderedIndices(p);
    UsableInRange(p, |p.items|);
    UnionMembers([], UsableIndices(p, |p.items|));
    UnionMembers(named, Indices(|p.blocks|));
    forall i: nat | i < |p.blocks|
      ensures i in order
    {
      assert Indices(|p.blocks|)[i] == i;
      assert i in Indices(|p.blocks|);
    }
    assert forall i | 0 <= i < |order| :: order[i] in order;
    AllIndicesOnce(order, |p.blocks|);
  }

  lemma AllIndicesOnce(order: seq<nat>, n: nat)
    requires Distinct(order) && (forall i | 0 <= i < |order| :: order[i] < n) && forall i: nat | i < n :: i in order
    ensures |order| == n
  {
    DistinctFits(order, n);
    if |order| < n {
      IndexLeft(n, order);
    }
  }

  /** Item k of the reading order stands for block i: the index is a block's, and the id is that block's or left out. */
  predicate NamesBlock(p: Page, k: nat, i: nat) {
    && k < |p.items| && i < |p.blocks| && p.items[k].layoutBlockIndex == i
    && p.items[k].layoutBlockId in {"", p.blocks[i].id}
  }

  ghost predicate Named(p: Page, i: nat) { exists k: nat :: NamesBlock(p, k, i) }

  ghost predicate FirstNaming(p: Page, i: nat, k: nat) {
    NamesBlock(p, k, i) && forall earlier: nat | earlier < k :: !NamesBlock(p, earlier, i)
  }

  /** The indices listed before item k are those of the items before it. */
  lemma {:induction false} UsableUpTo(p: Page, n: nat, k: nat)
    requires k < n <= |p.items|
    ensures UsableIndices(p, k) <= UsableIndices(p, n)
    ensures forall i: nat | NamesBlock(p, k, i) ::
              |UsableIndices(p, k)| < |UsableIndices(p, n)| && UsableIndices(p, n)[|UsableIndices(p, k)|] == i
  {
    if k < n - 1 {
      UsableUpTo(p, n - 1, k);
    }
  }

  lemma {:induction false} UsableAreNamed(p: Page, n: nat)
    requires n <= |p.items|
    ensures forall i: nat :: i in UsableIndices(p, n) <==> exists k: nat :: k < n && NamesBlock(p, k, i)
  {
    if n > 0 {
      UsableAreNamed(p, n - 1);
      forall i: nat
        ensures i in UsableIndices(p, n) <==> exists k: nat :: k < n && NamesBlock(p, k, i)
      {
        assert i in UsableIndices(p, n) <==> i in UsableIndices(p, n - 1) || NamesBlock(p, n - 1, i);
      }
    }
  }

  lemma FirstNamingIsFirst(p: Page, i: nat, k: nat)
    requires FirstNaming(p, i, k)
    ensures FirstAt(UsableIndices(p, |p.items|), i, |UsableIndices(p, k)|)
  {
    UsableUpTo(p, |p.items|, k);
    UsableAreNamed(p, k);
    var all, front := UsableIndices(p, |p.items|), UsableIndices(p, k);
    forall c | 0 <= c < |front|
      ensures all[c] != i
    {
      assert front[c] in front;
    }
  }

  lemma NamingsInOrder(p: Page, a: nat, b: nat, k: nat, l: nat)
    requires var named := Union([], UsableIndices(p, |p.items|));
             a < b < |named| && FirstNaming(p, named[a], k) && FirstNaming(p, named[b], l)
    ensures k < l
  {
    var usable := UsableIndices(p, |p.items|);
    var named := Union([], usable);
    FirstNamingIsFirst(p, named[a], k);
    FirstNamingIsFirst(p, named[b], l);
    UnionIsInOrder([], usable);
    if l < k {
      UsableUpTo(p, k, l);
    }
  }

  /** Blocks that some item names come first, by the first item that does; the others follow in page order. */
  lemma NamedComeFirst(p: Page, a: nat, b: nat)
    requires a < b < |OrderedIndices(p)|
    ensures var x, y := OrderedIndices(p)[a], OrderedIndices(p)[b];
      && (Named(p, y) ==> Named(p, x))
      && (!Named(p, x) ==> x < y)
      && forall k, l | FirstNaming(p, x, k) && FirstNaming(p, y, l) :: k < l
  {
    var usable, order := UsableIndices(p, |p.items|), OrderedIndices(p);
    var named, rest := Union([], usable), Indices(|p.blocks|);
    UsableAreNamed(p, |p.items|);
    UnionMembers([], usable);
    UnionIsInOrder(named, rest);
    OrderIsPermutation(p);
    UnnamedBehind(p, a);
    UnnamedBehind(p, b);
    if b < |named| {
      forall k, l | FirstNaming(p, order[a], k) && FirstNaming(p, order[b], l)
        ensures k < l
      {
        NamingsInOrder(p, a, b, k, l);
      }
    }
    if |named| <= a {
      assert FirstAt(rest, order[a], order[a]) && FirstAt(rest, order[b], order[b]);
    }
  }

  lemma UnnamedBehind(p: Page, a: nat)
    requires a < |OrderedIndices(p)|
    ensures var x, named := OrderedIndices(p)[a], Union([], UsableIndices(p, |p.items|));
            x < |p.blocks| && (a < |named| <==> Named(p, x)) && (a < |named| ==> x == named[a])
  {
    var usable, order := UsableIndices(p, |p.items|), OrderedIndices(p);
    var named := Union([], usable);
    UsableAreNamed(p, |p.items|);
    UnionMembers([], usable);
    UnionIsInOrder(named, Indices(|p.blocks|));
    OrderIsPermutation(p);
    assert order[a] in named <==> Named(p, order[a]) by {
      assert order[a] in usable <==> Named(p, order[a]);
    }
    if a < |named| {
      assert order[a] in named;
    } else {
      forall c | 0 <= c < |named|
        ensures named[c] != order[a]
      {
        assert order[c] == named[c];
      }
    }
  }

  // ---- repeated furniture ----

  function Signature(furniture: Furniture, p: Page, b: LayoutBlock): string {
    if b.kind == Header || b.kind == Footer then furniture(p, b) else ""
  }

  /** A signature seen on a page. */
  datatype Sighting = Sighting(signature: string, page: int)

  function SightingsOn(furniture: Furniture, p: Page, n: nat): seq<Sighting>
    requires n <= |p.blocks|
  {
    if n == 0 then []
    else
      var signature := Signature(furniture, p, p.blocks[n - 1]);
      SightingsOn(furniture, p, n - 1) + (if signature == "" then [] else [Sighting(signature, p.pageIndex)])
  }

  function Sightings(furniture: Furniture, pages: seq<Page>): seq<Sighting> {
    if pages == [] then []
    else
      var last := pages[|pages| - 1];
      Sightings(furniture, pages[..|pages| - 1]) + SightingsOn(furniture, last, |last.blocks|)
  }

  /** The signature was seen on two different pages. */
  ghost predicate Repeats(sightings: seq<Sighting>, signature: string) {
    exists x, y :: x != y && Sighting(signature, x) in sightings && Sighting(signature, y) in sightings
  }

  predicate Holds(found: map<string, set<int>>, signature: string, page: int) {
    signature in found && page in found[signature]
  }

  ghost predicate Recorded(found: map<string, set<int>>, sightings: seq<Sighting>) {
    forall s, x :: Holds(found, s, x) <==> Sighting(s, x) in sightings
  }

  function Note(found: map<string, set<int>>, signature: string, page: int): map<string, set<int>> {
    found[signature := (if signature in found then found[signature] else {}) + {page}]
  }

  lemma NoteRecords(found: map<string, set<int>>, sightings: seq<Sighting>, signature: string, page: int)
    requires Recorded(found, sightings)
    ensures Recorded(Note(found, signature, page), sightings + [Sighting(signature, page)])
  {
    forall s, x
      ensures Holds(Note(found, signature, page), s, x) <==> Sighting(s, x) in sightings + [Sighting(signature, page)]
    {
      assert Holds(found, s, x) <==> Sighting(s, x) in sightings;
    }
  }

  lemma BlockNoted(furniture: Furniture, p: Page, n: nat, found: map<string, set<int>>, before: seq<Sighting>)
    requires n < |p.blocks| && Recorded(found, before + SightingsOn(furniture, p, n))
    ensures Recorded(NoteBlock(furniture, p, p.blocks[n], found), before + SightingsOn(furniture, p, n + 1))
  {
    var signature := Signature(furniture, p, p.blocks[n]);
    var so := SightingsOn(furniture, p, n);
    if signature == "" {
      assert SightingsOn(furniture, p, n + 1) == so;
    } else {
      NoteRecords(found, before + so, signature, p.pageIndex);
      assert before + so + [Sighting(signature, p.pageIndex)] == before + SightingsOn(furniture, p, n + 1);
    }
  }

  function NoteBlock(furniture: Furniture, p: Page, b: LayoutBlock, found: map<string, set<int>>): map<string, set<int>> {
    var signature := Signature(furniture, p, b);
    if signature == "" then found else Note(found, signature, p.pageIndex)
  }

  method NotePage(furniture: Furniture, p: Page, found: map<string, set<int>>, ghost before: seq<Sighting>)
    returns (noted: map<string, set<int>>)
    requires Recorded(found, before)
    ensures Recorded(noted, before + SightingsOn(furniture, p, |p.blocks|))
  {
    noted := found;
    assert before + [] == before;
    for n := 0 to |p.blocks|
      invariant Recorded(noted, before + SightingsOn(furniture, p, n))
    {
      BlockNoted(furniture, p, n, noted, before);
      noted := NoteBlock(furniture, p, p.blocks[n], noted);
    }
  }

  lemma Member<T(!new)>(s: set<T>) returns (x: T)
    requires s != {}
    ensures x in s
  {
    x :| x in s;
  }

  lemma TwoMembers(s: set<int>)
    ensures |s| >= 2 <==> exists x, y :: x in s && y in s && x != y
  {
    if |s| >= 2 {
      var x := Member(s);
      assert |s - {x}| == |s| - 1;
      var y := Member(s - {x});
      assert x in s && y in s && x != y;
    }
    if x, y :| x in s && y in s && x != y {
      CardinalityOfSubset({x, y}, s);
    }
  }

  /** Exactly the signatures seen on at least two pages. */
  method RepeatedFurniture(furniture: Furniture, pages: seq<Page>) returns (repeated: set<string>)
    ensures forall s :: s in repeated <==> Repeats(Sightings(furniture, pages), s)
  {
    var found: map<string, set<int>> := map[];
    for i := 0 to |pages|
      invariant Recorded(found, Sightings(furniture, pages[..i]))
    {
      assert pages[..i + 1][..i] == pages[..i];
      found := NotePage(furniture, pages[i], found, Sightings(furniture, pages[..i]));
    }
    assert pages[..|pages|] == pages;
    repeated := set s | s in found && |found[s]| >= 2;
    forall s
      ensures s in repeated <==> Repeats(Sightings(furniture, pages), s)
    {
      RepeatsIffTwo(found, Sightings(furniture, pages), s);
    }
  }

  lemma RepeatsIffTwo(found: map<string, set<int>>, sightings: seq<Sighting>, s: string)
    requires Recorded(found, sightings)
    ensures s in found && |found[s]| >= 2 <==> Repeats(sightings, s)
  {
    if s in found && |found[s]| >= 2 {
      TwoMembers(found[s]);
      var x, y :| x in found[s] && y in found[s] && x != y;
      assert Holds(found, s, x) && Holds(found, s, y);
      assert Sighting(s, x) in sightings && Sighting(s, y) in sightings;
      assert Repeats(sightings, s);
    }
    if Repeats(sightings, s) {
      var x, y :| x != y && Sighting(s, x) in sightings && Sighting(s, y) in sightings;
      assert Holds(found, s, x) && Holds(found, s, y);
      TwoMembers(found[s]);
    }
  }

  // ---- one page ----

  predicate Dropped(furniture: Furniture, p: Page, b: LayoutBlock, repeated: set<string>) {
    Signature(furniture, p, b) != "" && Signature(furniture, p, b) in repeated
  }

  predicate Within(p: Page, indices: seq<nat>) { forall i | 0 <= i < |indices| :: indices[i] < |p.blocks| }

  /** The blocks that stay, in reading order. */
  function Kept(furniture: Furniture, p: Page, order: seq<nat>, repeated: set<string>): seq<nat>
    requires Within(p, order)
  {
    if order == [] then []
    else
      var front, last := order[..|order| - 1], order[|order| - 1];
      assert forall i | 0 <= i < |front| :: front[i] == order[i];
      Kept(furniture, p, front, repeated) + (if Dropped(furniture, p, p.blocks[last], repeated) then [] else [last])
  }

  lemma {:induction false} KeptMembers(furniture: Furniture, p: Page, order: seq<nat>, repeated: set<string>)
    requires Within(p, order)
    ensures forall i :: i in Kept(furniture, p, order, repeated) <==>
              i in order && i < |p.blocks| && !Dropped(furniture, p, p.blocks[i], repeated)
    ensures Distinct(order) ==> Distinct(Kept(furniture, p, order, repeated))
  {
    if order != [] {
      var front, last := order[..|order| - 1], order[|order| - 1];
      assert forall i | 0 <= i < |front| :: front[i] == order[i];
      KeptMembers(furniture, p, front, repeated);
      assert forall i :: i in order <==> i in front || i == last;
    }
  }

  /** The text of a header or footer, if it has one. */
  ghost predicate ShowsFurniture(furniture: Furniture, p: Page, i: nat, text: string) {
    i < |p.blocks| && p.blocks[i].kind in {Header, Footer} && furniture(p, p.blocks[i]) == text && text != ""
  }

  lemma {:induction false} SightedOn(furniture: Furniture, p: Page, n: nat, s: Sighting)
    requires n <= |p.blocks|
    ensures s in SightingsOn(furniture, p, n) <==>
              s.page == p.pageIndex && exists i: nat :: i < n && ShowsFurniture(furniture, p, i, s.signature)
  {
    if n > 0 {
      SightedOn(furniture, p, n - 1, s);
      assert s in SightingsOn(furniture, p, n) <==>
        s in SightingsOn(furniture, p, n - 1) ||
        (s.page == p.pageIndex && ShowsFurniture(furniture, p, n - 1, s.signature));
    }
  }

  lemma {:induction false} Sighted(furniture: Furniture, pages: seq<Page>, s: Sighting)
    ensures s in Sightings(furniture, pages) <==>
              exists q, i: nat :: q in pages && q.pageIndex == s.page && ShowsFurniture(furniture, q, i, s.signature)
  {
    if pages != [] {
      var front, last := pages[..|pages| - 1], pages[|pages| - 1];
      Sighted(furniture, front, s);
      SightedOn(furniture, last, |last.blocks|, s);
      assert forall q :: q in pages <==> q in front || q == last;
    }
  }

  /** A header or footer is left out exactly when another page shows one with the same text. */
  lemma LeftOutExactlyWhen(furniture: Furniture, pages: seq<Page>, p: Page, i: nat, repeated: set<string>)
    requires p in pages && i < |p.blocks|
    requires forall s :: s in repeated <==> Repeats(Sightings(furniture, pages), s)
    ensures i !in KeptInOrder(furniture, p, repeated) <==>
              exists text, q, j: nat :: && ShowsFurniture(furniture, p, i, text) && q in pages && q.pageIndex != p.pageIndex
                                        && ShowsFurniture(furniture, q, j, text)
  {
    var order := OrderedIndices(p);
    OrderIsPermutation(p);
    PermutationCovers(order, |p.blocks|);
    KeptMembers(furniture, p, order, repeated);
    var text := Signature(furniture, p, p.blocks[i]);
    assert forall t :: ShowsFurniture(furniture, p, i, t) <==> t == text && text != "";
    if text != "" {
      Sighted(furniture, pages, Sighting(text, p.pageIndex));
      if q, j: nat :| q in pages && q.pageIndex != p.pageIndex && ShowsFurniture(furniture, q, j, text) {
        Sighted(furniture, pages, Sighting(text, q.pageIndex));
      }
      if Repeats(Sightings(furniture, pages), text) {
        var x, y :| x != y && Sighting(text, x) in Sightings(furniture, pages) && Sighting(text, y) in Sightings(furniture, pages);
        Sighted(furniture, pages, Sighting(text, x));
        Sighted(furniture, pages, Sighting(text, y));
      }
    }
  }

  ghost predicate DistinctBlockIds(p: Page) {
    forall i, j | 0 <= i < j < |p.blocks| :: p.blocks[i].id != p.blocks[j].id
  }

  /** The layout ids of the kept blocks. */
  function KeptIds(p: Page, kept: seq<nat>): seq<string>
    requires Within(p, kept)
  {
    seq(|kept|, k requires 0 <= k < |kept| => p.blocks[kept[k]].id)
  }

  lemma KeptIdsAreDistinct(p: Page, kept: seq<nat>)
    requires Within(p, kept) && DistinctBlockIds(p) && Distinct(kept)
    ensures Distinct(KeptIds(p, kept))
  {
    forall i, j | 0 <= i < j < |kept|
      ensures KeptIds(p, kept)[i] != KeptIds(p, kept)[j]
    {
      assert kept[i] != kept[j];
    }
  }

  /** The first n layout ids stand for the numbers of their blocks in the document. */
  ghost predicate Renumbered(ids: seq<string>, page: nat, base: nat, names: map<string, string>, n: nat)
    requires n <= |ids|
  {
    && (forall k | 0 <= k < n :: ids[k] in names && names[ids[k]] == BlockId(page, base + k))
    && forall id | id in names :: id in ids[..n]
  }

  method NumberBlocks(ids: seq<string>, page: nat, base: nat) returns (names: map<string, string>)
    requires Distinct(ids)
    ensures Renumbered(ids, page, base, names, |ids|)
  {
    names := map[];
    for k := 0 to |ids|
      invariant Renumbered(ids, page, base, names, k)
    {
      assert ids[..k + 1] == ids[..k] + [ids[k]];
      names := names[ids[k] := BlockId(page, base + k)];
    }
  }

  /** A reference is kept when its target is and is another block. */
  function Related(names: map<string, string>, layoutId: string, id: string): string {
    if layoutId in names && names[layoutId] != id then names[layoutId] else ""
  }

  /** Another block that stays in the document has this layout id. */
  predicate RefersToOther(ids: seq<string>, k: nat, layoutId: string) {
    exists t | 0 <= t < |ids| && t != k :: ids[t] == layoutId
  }

  ghost predicate PointsTo(ids: seq<string>, page: nat, base: nat, k: nat, t: nat, layoutId: string, related: string) {
    t < |ids| && t != k && ids[t] == layoutId && related == BlockId(page, base + t)
  }

  /** The number of the other block referred to, if it stays; nothing otherwise. */
  ghost predicate RightReference(ids: seq<string>, page: nat, base: nat, k: nat, layoutId: string, related: string) {
    if RefersToOther(ids, k, layoutId) then exists t: nat :: PointsTo(ids, page, base, k, t, layoutId, related)
    else related == ""
  }

  ghost predicate PageBlock(p: Page, kept: seq<nat>, base: nat, k: nat, block: DocumentBlock)
    requires k < |kept| && Within(p, kept)
  {
    && block.id == BlockId(p.number, base + k) && block.pageId == PageId(p.number)
    && block.sourceLabel == p.blocks[kept[k]].sourceLabel
    && RightReference(KeptIds(p, kept), p.number, base, k, p.blocks[kept[k]].relatedBlockId, block.relatedBlockId)
  }

  /** The blocks of one page, numbered on from base, with references among themselves only. */
  ghost predicate PageBlocks(p: Page, kept: seq<nat>, base: nat, blocks: seq<DocumentBlock>)
    requires Within(p, kept)
  {
    |blocks| == |kept| && forall k | 0 <= k < |blocks| :: PageBlock(p, kept, base, k, blocks[k])
  }

  lemma IdIsNotEmpty(page: nat, position: nat)
    ensures BlockId(page, position) != ""
  {
    assert BlockId(page, position)[0] == 'd';
  }

  method Select(furniture: Furniture, p: Page, order: seq<nat>, repeated: set<string>) returns (included: seq<nat>)
    requires Within(p, order)
    ensures included == Kept(furniture, p, order, repeated)
  {
    included := [];
    for i := 0 to |order|
      invariant included == Kept(furniture, p, order[..i], repeated)
    {
      assert order[..i + 1][..i] == order[..i];
      if !Dropped(furniture, p, p.blocks[order[i]], repeated) {
        included := included + [order[i]];
      }
    }
    assert order[..|order|] == order;
  }

  method AssemblePage(furniture: Furniture, p: Page, repeated: set<string>, base: nat)
    returns (blocks: seq<DocumentBlock>, ghost kept: seq<nat>)
    requires DistinctBlockIds(p)
    ensures Distinct(kept) && Within(p, kept)
    ensures forall i: nat | i < |p.blocks| :: i in kept <==> !Dropped(furniture, p, p.blocks[i], repeated)
    ensures kept == KeptInOrder(furniture, p, repeated)
    ensures PageBlocks(p, kept, base, blocks)
  {
    var order := OrderedLayoutBlockIndices(p);
    KeptIsWell(furniture, p, repeated);
    var included := Select(furniture, p, order, repeated);
    kept := included;
    var names := NumberBlocks(KeptIds(p, included), p.number, base);
    blocks := MakeBlocks(p, included, base, names);
  }

  ghost function KeptInOrder(furniture: Furniture, p: Page, repeated: set<string>): seq<nat> {
    OrderIsPermutation(p);
    Kept(furniture, p, OrderedIndices(p), repeated)
  }

  lemma KeptIsWell(furniture: Furniture, p: Page, repeated: set<string>)
    requires DistinctBlockIds(p)
    ensures IsPermutation(OrderedIndices(p), |p.blocks|)
    ensures var kept := KeptInOrder(furniture, p, repeated);
            && Distinct(kept) && Within(p, kept) && Distinct(KeptIds(p, kept))
            && forall i: nat | i < |p.blocks| :: i in kept <==> !Dropped(furniture, p, p.blocks[i], repeated)
  {
    var order, kept := OrderedIndices(p), KeptInOrder(furniture, p, repeated);
    OrderIsPermutation(p);
    PermutationCovers(order, |p.blocks|);
    KeptMembers(furniture, p, order, repeated);
    assert forall i | 0 <= i < |kept| :: kept[i] in kept;
    KeptIdsAreDistinct(p, kept);
  }

  method MakeBlocks(p: Page, kept: seq<nat>, base: nat, names: map<string, string>) returns (blocks: seq<DocumentBlock>)
    requires Within(p, kept) && Distinct(KeptIds(p, kept))
    requires Renumbered(KeptIds(p, kept), p.number, base, names, |kept|)
    ensures PageBlocks(p, kept, base, blocks)
  {
    blocks := [];
    for k := 0 to |kept|
      invariant |blocks| == k
      invariant forall i | 0 <= i < k :: PageBlock(p, kept, base, i, blocks[i])
    {
      OwnNumber(KeptIds(p, kept), p.number, base, names, k);
      var block := MakeBlock(p, kept, base, names, k, names[p.blocks[kept[k]].id]);
      blocks := blocks + [block];
    }
  }

  lemma OwnNumber(ids: seq<string>, page: nat, base: nat, names: map<string, string>, k: nat)
    requires k < |ids| && Renumbered(ids, page, base, names, |ids|)
    ensures ids[k] in names && names[ids[k]] == BlockId(page, base + k)
  {
  }

  method MakeBlock(p: Page, kept: seq<nat>, ghost base: nat, names: map<string, string>, k: nat, id: string)
    returns (block: DocumentBlock)
    requires k < |kept| && Within(p, kept) && Distinct(KeptIds(p, kept))
    requires Renumbered(KeptIds(p, kept), p.number, base, names, |kept|) && id == BlockId(p.number, base + k)
    ensures PageBlock(p, kept, base, k, block)
  {
    var b := p.blocks[kept[k]];
    ReferenceIsRight(KeptIds(p, kept), p.number, base, names, k, b.relatedBlockId);
    block := DocumentBlock(id, Related(names, b.relatedBlockId, id), PageId(p.number), b.sourceLabel);
  }

  lemma ReferenceIsRight(ids: seq<string>, page: nat, base: nat, names: map<string, string>, k: nat, layoutId: string)
    requires Distinct(ids) && k < |ids| && Renumbered(ids, page, base, names, |ids|)
    ensures RightReference(ids, page, base, k, layoutId, Related(names, layoutId, BlockId(page, base + k)))
  {
    assert ids[..|ids|] == ids;
    if layoutId in names {
      var t: nat :| t < |ids| && ids[t] == layoutId;
      if t != k {
        IdsOnPage(page, base + t, base + k);
        assert PointsTo(ids, page, base, k, t, layoutId, names[layoutId]);
      }
    }
  }

  lemma IdsOnPage(page: nat, a: nat, b: nat)
    ensures BlockId(page, a) != "" && (BlockId(page, a) == BlockId(page, b) ==> a == b)
  {
    IdIsNotEmpty(page, a);
    if BlockId(page, a) == BlockId(page, b) {
      BlockIdIsInjective(page, a, page, b);
    }
  }

  // ---- the document ----

  /** Block g of the document carries number g + 1. */
  ghost predicate Numbered(blocks: seq<DocumentBlock>) {
    forall g | 0 <= g < |blocks| :: HasNumber(blocks[g], g)
  }

  ghost predicate HasNumber(b: DocumentBlock, g: nat) { exists page: nat :: b.id == BlockId(page, g) }

  predicate ReferenceResolves(blocks: seq<DocumentBlock>, b: DocumentBlock) {
    b.relatedBlockId == "" || (b.relatedBlockId != b.id && HasBlock(blocks, b.relatedBlockId))
  }

  ghost predicate ReferencesResolve(blocks: seq<DocumentBlock>) {
    forall g | 0 <= g < |blocks| :: ReferenceResolves(blocks, blocks[g])
  }

  /** The blocks of the page are the last ones of the document so far. */
  ghost predicate EndsWithPage(furniture: Furniture, p: Page, repeated: set<string>, blocks: seq<DocumentBlock>, n: nat) {
    var kept := KeptInOrder(furniture, p, repeated);
    && n <= |blocks| && |kept| == |blocks| - n
    && Within(p, kept) && PageBlocks(p, kept, n, blocks[n..])
  }

  /** Page after page, the kept blocks in reading order, and nothing else. */
  ghost predicate Assembled(furniture: Furniture, pages: seq<Page>, repeated: set<string>, blocks: seq<DocumentBlock>) {
    if pages == [] then blocks == []
    else
      exists n: nat ::
        && EndsWithPage(furniture, pages[|pages| - 1], repeated, blocks, n)
        && Assembled(furniture, pages[..|pages| - 1], repeated, blocks[..n])
  }

  lemma PageAdded(blocks: seq<DocumentBlock>, p: Page, kept: seq<nat>, more: seq<DocumentBlock>)
    requires Within(p, kept)
    requires Numbered(blocks) && ReferencesResolve(blocks) && PageBlocks(p, kept, |blocks|, more)
    ensures Numbered(blocks + more) && ReferencesResolve(blocks + more)
  {
    var all := blocks + more;
    forall g | 0 <= g < |all|
      ensures HasNumber(all[g], g) && ReferenceResolves(all, all[g])
    {
      if g < |blocks| {
        assert HasNumber(blocks[g], g) && ReferenceResolves(blocks, blocks[g]);
        EarlierBlocksStay(blocks, more, blocks[g].relatedBlockId);
      } else {
        assert PageBlock(p, kept, |blocks|, g - |blocks|, more[g - |blocks|]);
        NewReferenceResolves(blocks, p, kept, more, g - |blocks|);
      }
    }
  }

  /** A reference on the new page leads to a block of that page. */
  lemma NewReferenceResolves(blocks: seq<DocumentBlock>, p: Page, kept: seq<nat>, more: seq<DocumentBlock>, k: nat)
    requires Within(p, kept) && k < |more| && PageBlocks(p, kept, |blocks|, more)
    ensures ReferenceResolves(blocks + more, more[k])
  {
    var all := blocks + more;
    assert PageBlock(p, kept, |blocks|, k, more[k]);
    if more[k].relatedBlockId != "" {
      var t: nat :|
        PointsTo(KeptIds(p, kept), p.number, |blocks|, k, t, p.blocks[kept[k]].relatedBlockId, more[k].relatedBlockId);
      IdsOnPage(p.number, |blocks| + t, |blocks| + k);
      assert PageBlock(p, kept, |blocks|, t, more[t]);
      assert all[|blocks| + t].id == more[k].relatedBlockId;
    }
  }

  lemma EarlierBlocksStay(blocks: seq<DocumentBlock>, more: seq<DocumentBlock>, id: string)
    requires HasBlock(blocks, id) || id == ""
    ensures HasBlock(blocks + more, id) || id == ""
  {
    if HasBlock(blocks, id) {
      var i :| 0 <= i < |blocks| && blocks[i].id == id;
      assert (blocks + more)[i].id == id;
    }
  }

  lemma PageJoins(furniture: Furniture, pages: seq<Page>, n: nat, repeated: set<string>, blocks: seq<DocumentBlock>,
                  kept: seq<nat>, more: seq<DocumentBlock>)
    requires n < |pages| && Assembled(furniture, pages[..n], repeated, blocks)
    requires kept == KeptInOrder(furniture, pages[n], repeated) && Within(pages[n], kept)
    requires PageBlocks(pages[n], kept, |blocks|, more)
    ensures Assembled(furniture, pages[..n + 1], repeated, blocks + more)
  {
    var all := blocks + more;
    assert all[..|blocks|] == blocks && all[|blocks|..] == more;
    assert EndsWithPage(furniture, pages[n], repeated, all, |blocks|);
    assert pages[..n + 1][..n] == pages[..n];
  }

  method AssembleBlocks(furniture: Furniture, pages: seq<Page>, repeated: set<string>) returns (blocks: seq<DocumentBlock>)
    requires forall i | 0 <= i < |pages| :: DistinctBlockIds(pages[i])
    ensures Assembled(furniture, pages, repeated, blocks)
    ensures Numbered(blocks) && ReferencesResolve(blocks)
  {
    blocks := [];
    for n := 0 to |pages|
      invariant Assembled(furniture, pages[..n], repeated, blocks)
      invariant Numbered(blocks) && ReferencesResolve(blocks)
    {
      var more, kept := AssemblePage(furniture, pages[n], repeated, |blocks|);
      PageAdded(blocks, pages[n], kept, more);
      PageJoins(furniture, pages, n, repeated, blocks, kept, more);
      blocks := blocks + more;
    }
    assert pages[..|pages|] == pages;
  }

  function RelationOf(b: DocumentBlock): Relation {
    Relation(if b.sourceLabel == "Caption" || b.sourceLabel == "caption" then "caption_of" else "related_to",
             b.id, b.relatedBlockId)
  }

  function RelationsOf(blocks: seq<DocumentBlock>): seq<Relation> {
    if blocks == [] then []
    else
      var b := blocks[|blocks| - 1];
      RelationsOf(blocks[..|blocks| - 1]) + (if b.relatedBlockId == "" || b.relatedBlockId == b.id then [] else [RelationOf(b)])
  }

  predicate Refers(b: DocumentBlock) { b.relatedBlockId != "" && b.relatedBlockId != b.id }

  /** The relation leads from the referring block to the block it names; a caption is a caption of its target. */
  predicate Relates(b: DocumentBlock, r: Relation) {
    && Refers(b) && r.from == b.id && r.to == b.relatedBlockId
    && (if b.sourceLabel in {"Caption", "caption"} then r.kind == "caption_of" else r.kind == "related_to")
  }

  /** One relation for each referring block, in the order of the blocks. */
  ghost predicate RelationsSay(blocks: seq<DocumentBlock>, relations: seq<Relation>) {
    if blocks == [] then relations == []
    else
      var front, last := blocks[..|blocks| - 1], blocks[|blocks| - 1];
      if !Refers(last) then RelationsSay(front, relations)
      else
        && relations != [] && Relates(last, relations[|relations| - 1])
        && RelationsSay(front, relations[..|relations| - 1])
  }

  lemma {:induction false} RelationsAreSaid(blocks: seq<DocumentBlock>)
    ensures RelationsSay(blocks, RelationsOf(blocks))
  {
    if blocks != [] {
      RelationsAreSaid(blocks[..|blocks| - 1]);
      var relations := RelationsOf(blocks);
      if Refers(blocks[|blocks| - 1]) {
        assert relations[..|relations| - 1] == RelationsOf(blocks[..|blocks| - 1]);
      } else {
        assert relations == RelationsOf(blocks[..|blocks| - 1]);
      }
    }
  }

  method MakeRelations(blocks: seq<DocumentBlock>) returns (relations: seq<Relation>)
    ensures relations == RelationsOf(blocks) && RelationsSay(blocks, relations)
  {
    RelationsAreSaid(blocks);
    relations := [];
    for i := 0 to |blocks|
      invariant relations == RelationsOf(blocks[..i])
    {
      assert blocks[..i + 1][..i] == blocks[..i];
      if blocks[i].relatedBlockId != "" && blocks[i].relatedBlockId != blocks[i].id {
        relations := relations + [RelationOf(blocks[i])];
      }
    }
    assert blocks[..|blocks|] == blocks;
  }

  function PageOf(p: Page): (page: DocumentPage)
    ensures page.number == p.number && page.width == p.width && page.height == p.height && page.id == PageId(page.number)
  {
    DocumentPage(PageId(p.number), p.number, p.width, p.height)
  }

  function PagesOfDocument(pages: seq<Page>): seq<DocumentPage> {
    seq(|pages|, i requires 0 <= i < |pages| => PageOf(pages[i]))
  }

  /** The document of the given pages; its warnings are the aggregated ones. */
  method Assemble(furniture: Furniture, pages: seq<Page>, warnings: seq<Warning>, sha256: string, partial: bool)
    returns (d: Document, ghost repeated: set<string>)
    requires (forall i | 0 <= i < |pages| :: DistinctBlockIds(pages[i])) && CountsFit(warnings)
    ensures forall s :: s in repeated <==> Repeats(Sightings(furniture, pages), s)
    ensures Assembled(furniture, pages, repeated, d.blocks) && Numbered(d.blocks) && ReferencesResolve(d.blocks)
    ensures d == Document(partial, sha256, PagesOfDocument(pages), d.blocks, RelationsOf(d.blocks), Aggregated(warnings))
    ensures RelationsSay(d.blocks, d.relations)
  {
    var signatures := RepeatedFurniture(furniture, pages);
    repeated := signatures;
    var blocks := AssembleBlocks(furniture, pages, signatures);
    var relations := MakeRelations(blocks);
    var aggregated := AggregateWarnings(warnings);
    d := Document(partial, sha256, PagesOfDocument(pages), blocks, relations, aggregated);
  }

  // ---- every assembled document is accepted ----

  lemma NumberedIsValid(blocks: seq<DocumentBlock>)
    requires Numbered(blocks)
    ensures ValidBlocks(blocks)
  {
    forall i | 0 <= i < |blocks|
      ensures blocks[i].id != ""
    {
      assert HasNumber(blocks[i], i);
      var page: nat :| blocks[i].id == BlockId(page, i);
      IdIsNotEmpty(page, i);
    }
    forall i, j | 0 <= i < j < |blocks|
      ensures blocks[i].id != blocks[j].id
    {
      assert HasNumber(blocks[i], i) && HasNumber(blocks[j], j);
      var a: nat :| blocks[i].id == BlockId(a, i);
      var b: nat :| blocks[j].id == BlockId(b, j);
      if BlockId(a, i) == BlockId(b, j) {
        BlockIdIsInjective(a, i, b, j);
      }
    }
  }

  lemma {:induction false} RelationsAreValid(blocks: seq<DocumentBlock>, n: nat)
    requires ReferencesResolve(blocks) && n <= |blocks|
    ensures forall i | 0 <= i < |RelationsOf(blocks[..n])| :: ValidRelation(blocks, RelationsOf(blocks[..n])[i])
  {
    if n > 0 {
      RelationsAreValid(blocks, n - 1);
      assert blocks[..n][..n - 1] == blocks[..n - 1];
      assert ReferenceResolves(blocks, blocks[n - 1]);
    }
  }

  /** Pages with numbers of their own, and of positive size. */
  ghost predicate ProperPages(pages: seq<Page>) {
    && (forall i | 0 <= i < |pages| :: pages[i].number > 0 && pages[i].width > 0 && pages[i].height > 0)
    && (forall i, j | 0 <= i < j < |pages| :: pages[i].number != pages[j].number)
  }

  lemma PagesAreValid(pages: seq<Page>)
    requires ProperPages(pages)
    ensures ValidPages(PagesOfDocument(pages))
  {
    forall i, j | 0 <= i < j < |pages|
      ensures PageId(pages[i].number) != PageId(pages[j].number)
    {
      if PageId(pages[i].number) == PageId(pages[j].number) {
        PageIdIsInjective(pages[i].number, pages[j].number);
      }
    }
    forall i | 0 <= i < |pages|
      ensures PageId(pages[i].number) != ""
    {
      assert PageId(pages[i].number)[0] == 'p';
    }
  }

  /** A warning as a stage reports it: known places, and a count of at least one for each page. */
  ghost predicate Reported(d: Document, w: Warning) {
    && w.identity.code != "" && w.identity.message != ""
    && KnownPages(d.pages, PagesOf(w))
    && (w.identity.blockId != "" ==> HasBlock(d.blocks, w.identity.blockId))
    && 1 <= w.count <= MAX_COUNT && |Union([], PagesOf(w))| <= w.count
  }

  lemma {:induction false} UnionIsNoLonger<T(!new)>(a: seq<T>, b: seq<T>)
    ensures |Union(a, b)| <= |a| + |Union([], b)|
  {
    if b != [] {
      UnionIsNoLonger(a, b[..|b| - 1]);
      UnionMembers(a, b[..|b| - 1]);
      UnionMembers([], b[..|b| - 1]);
    }
  }

  lemma {:induction false} PagesAreKnown(d: Document, ws: seq<Warning>, k: Identity)
    requires forall i | 0 <= i < |ws| :: Reported(d, ws[i])
    ensures KnownPages(d.pages, AllPages(ws, k))
  {
    if ws != [] {
      var front, last := ws[..|ws| - 1], ws[|ws| - 1];
      PagesAreKnown(d, front, k);
      assert Reported(d, last);
      forall id | id in AllPages(ws, k)
        ensures HasPage(d.pages, id)
      {
        assert id in AllPages(front, k) || id in PagesOf(last);
      }
    }
  }

  lemma {:induction false} PagesWithinCount(d: Document, ws: seq<Warning>, k: Identity)
    requires forall i | 0 <= i < |ws| :: Reported(d, ws[i])
    ensures |Union([], AllPages(ws, k))| <= Total(ws, k)
    ensures k in Identities(ws) ==> Total(ws, k) >= 1
  {
    if ws != [] {
      var front, last := ws[..|ws| - 1], ws[|ws| - 1];
      assert Reported(d, last);
      assert Identities(ws) == Identities(front) + [last.identity];
      PagesWithinCount(d, front, k);
      if last.identity == k {
        UnionConcat([], AllPages(front, k), PagesOf(last));
        UnionIsNoLonger(Union([], AllPages(front, k)), PagesOf(last));
      } else {
        assert AllPages(ws, k) == AllPages(front, k);
      }
    }
  }

  /** No list of known pages without repetition is longer than the document. */
  lemma KnownPagesFit(pages: seq<DocumentPage>, ids: seq<string>)
    requires Distinct(ids) && KnownPages(pages, ids)
    ensures |ids| <= |pages|
  {
    var all := Elements(seq(|pages|, i requires 0 <= i < |pages| => pages[i].id));
    DistinctSize(seq(|pages|, i requires 0 <= i < |pages| => pages[i].id));
    DistinctSize(ids);
    forall id | id in Elements(ids)
      ensures id in all
    {
      assert HasPage(pages, id);
      var i :| 0 <= i < |pages| && pages[i].id == id;
      assert seq(|pages|, i requires 0 <= i < |pages| => pages[i].id)[i] == id;
    }
    CardinalityOfSubset(Elements(ids), all);
  }

  lemma EntryIsValid(d: Document, ws: seq<Warning>, k: Identity)
    requires |d.pages| <= MAX_COUNT && k in Identities(ws)
    requires forall i | 0 <= i < |ws| :: Reported(d, ws[i])
    ensures ValidWarning(d, EntryFor(ws, k))
  {
    var pages := Union([], AllPages(ws, k));
    PagesWithinCount(d, ws, k);
    PagesAreKnown(d, ws, k);
    UnionMembers([], AllPages(ws, k));
    KnownPagesFit(d.pages, pages);
    var i :| 0 <= i < |ws| && Identities(ws)[i] == k;
    assert Reported(d, ws[i]) && ws[i].identity == k;
    if |pages| == 1 {
      assert pages[0] in pages;
    }
  }

  lemma WarningsAreValid(d: Document, ws: seq<Warning>)
    requires |d.pages| <= MAX_COUNT && d.warnings == Aggregated(ws)
    requires forall i | 0 <= i < |ws| :: Reported(d, ws[i])
    ensures forall i | 0 <= i < |d.warnings| :: ValidWarning(d, d.warnings[i])
    ensures ws != [] ==> d.warnings != []
  {
    EntriesAreDistinct(ws);
    forall i | 0 <= i < |d.warnings|
      ensures ValidWarning(d, d.warnings[i])
    {
      assert Order(ws)[i] in Order(ws);
      EntryIsValid(d, ws, Order(ws)[i]);
    }
    if ws != [] {
      assert Identities(ws)[0] in Identities(ws);
    }
  }

  lemma ValidPagesAreProper(pages: seq<Page>)
    requires ValidPages(PagesOfDocument(pages))
    ensures ProperPages(pages)
  {
    var listed := PagesOfDocument(pages);
    forall i | 0 <= i < |pages|
      ensures pages[i].number > 0 && pages[i].width > 0 && pages[i].height > 0
    {
      assert ValidPage(listed[i]);
    }
    forall i, j | 0 <= i < j < |pages|
      ensures pages[i].number != pages[j].number
    {
      assert listed[i].number != listed[j].number;
    }
  }

  /**
    What an assembled document with warnings about known places can be refused for: its
    pages, its digest, or being partial without a warning. Its blocks and relations never.
   */
  lemma AssembledDocumentIsAccepted(pages: seq<Page>, warnings: seq<Warning>, d: Document)
    requires |pages| <= MAX_COUNT && Numbered(d.blocks) && ReferencesResolve(d.blocks)
    requires d == Document(d.partial, d.sha256, PagesOfDocument(pages), d.blocks, RelationsOf(d.blocks), Aggregated(warnings))
    requires forall i | 0 <= i < |warnings| :: Reported(d, warnings[i])
    ensures ValidCoreModel(d) <==> ProperPages(pages) && ValidDigest(d.sha256) && (d.partial ==> warnings != [])
  {
    NumberedIsValid(d.blocks);
    RelationsAreValid(d.blocks, |d.blocks|);
    assert d.blocks[..|d.blocks|] == d.blocks;
    WarningsAreValid(d, warnings);
    if ProperPages(pages) {
      PagesAreValid(pages);
    }
    if ValidPages(PagesOfDocument(pages)) {
      ValidPagesAreProper(pages);
    }
  }
}
