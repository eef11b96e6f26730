/**
  Ordering a page: headers, then the body, then footers; the items that name the
  blocks, and the trace that places them.
 */
module PageOrder {
  import opened Wrappers
  import opened LayoutModel
  import opened ReadingOrderModel
  import opened Sequences
  import opened Sorting
  import opened BandOrder
  import opened BandDivision
  import opened GroupTrace
  import opened GroupOrder
  import opened BodyOrder

  /** A coordinate as the layout backend delivers it. */
  datatype Coordinate = Finite(value: real) | NotFinite

  datatype DetectedBlock = DetectedBlock(
    id: string,
    kind: BlockType,
    sourceLabel: string,
    relatedBlockId: string,
    readingOrderHint: int,
    x0: Coordinate,
    y0: Coordinate,
    x1: Coordinate,
    y1: Coordinate,
    lines: seq<int>)
  {
    predicate AllFinite() { x0.Finite? && y0.Finite? && x1.Finite? && y1.Finite? }

    function Located(): LayoutBlock
      requires AllFinite()
    {
      LayoutBlock(id, kind, sourceLabel, relatedBlockId, readingOrderHint,
                  BBox(x0.value, y0.value, x1.value, y1.value), lines)
    }
  }

  datatype OrderItem = OrderItem(blockId: string, layoutBlockIndex: nat, sequenceIndex: nat)

  datatype PageReadingOrder = PageReadingOrder(items: seq<OrderItem>, trace: Trace)

  datatype Part = HeaderPart | BodyPart | FooterPart

  function PartOf(kind: BlockType): Part {
    match kind
    case Header => HeaderPart
    case Footer => FooterPart
    case _ => BodyPart
  }

  /** The elements of one part, in layout order. */
  ghost predicate Collected(blocks: seq<LayoutBlock>, part: Part, elements: seq<PageElement>, upTo: nat)
    requires upTo <= |blocks|
  {
    && (forall i | 0 <= i < |elements| :: IsElementOf(blocks, part, elements[i], upTo))
    && (forall i, j | 0 <= i < j < |elements| :: elements[i].layoutBlockIndex < elements[j].layoutBlockIndex)
    && forall b: nat | b < upTo && PartOf(blocks[b].kind) == part :: HasElement(elements, b)
  }

  ghost predicate IsElementOf(blocks: seq<LayoutBlock>, part: Part, e: PageElement, upTo: nat)
    requires upTo <= |blocks|
  {
    && 0 <= e.layoutBlockIndex < upTo
    && e.block == blocks[e.layoutBlockIndex] && e.bbox == e.block.bbox && PartOf(e.block.kind) == part
  }

  ghost predicate HasElement(elements: seq<PageElement>, b: nat) {
    exists i | 0 <= i < |elements| :: elements[i].layoutBlockIndex == b
  }

  method CollectElements(blocks: seq<LayoutBlock>, part: Part) returns (elements: seq<PageElement>)
    ensures Collected(blocks, part, elements, |blocks|)
    ensures DistinctIndices(elements)
  {
    elements := [];
    for b := 0 to |blocks|
      invariant Collected(blocks, part, elements, b)
    {
      ghost var before := elements;
      if PartOf(blocks[b].kind) == part {
        elements := elements + [PageElement(b, blocks[b], blocks[b].bbox)];
        assert elements[|before|].layoutBlockIndex == b;
      }
      forall k: nat | k < b && PartOf(blocks[k].kind) == part
        ensures HasElement(elements, k)
      {
        assert HasElement(before, k);
        var i :| 0 <= i < |before| && before[i].layoutBlockIndex == k;
        assert elements[i].layoutBlockIndex == k;
      }
    }
  }

  /** The layout block indices the items name, in reading order. */
  ghost function BlockIndices(items: seq<OrderItem>): seq<nat> {
    seq(|items|, i requires 0 <= i < |items| => items[i].layoutBlockIndex)
  }

  /** The layout block indices of the elements, in the given order. */
  ghost function Chosen(elements: seq<PageElement>, order: seq<nat>): (chosen: seq<int>)
    requires forall i | 0 <= i < |order| :: order[i] < |elements|
    ensures |chosen| == |order| && forall i | 0 <= i < |order| :: chosen[i] == elements[order[i]].layoutBlockIndex
  {
    seq(|order|, i requires 0 <= i < |order| => elements[order[i]].layoutBlockIndex)
  }

  ghost predicate WellNumbered(blocks: seq<LayoutBlock>, items: seq<OrderItem>) {
    forall i | 0 <= i < |items| ::
      && items[i].sequenceIndex == i && items[i].layoutBlockIndex < |blocks|
      && items[i].blockId == blocks[items[i].layoutBlockIndex].id
  }

  method AppendItems(blocks: seq<LayoutBlock>, part: Part, elements: seq<PageElement>, order: seq<nat>, items: seq<OrderItem>)
    returns (items': seq<OrderItem>)
    requires Collected(blocks, part, elements, |blocks|) && forall i | 0 <= i < |order| :: order[i] < |elements|
    requires WellNumbered(blocks, items)
    ensures WellNumbered(blocks, items') && items <= items'
    ensures BlockIndices(items') == BlockIndices(items) + Chosen(elements, order)
  {
    items' := items;
    for i := 0 to |order|
      invariant |items'| == |items| + i && items <= items' && WellNumbered(blocks, items')
      invariant forall k | 0 <= k < i :: items'[|items| + k].layoutBlockIndex == elements[order[k]].layoutBlockIndex
    {
      var element := elements[order[i]];
      assert IsElementOf(blocks, part, element, |blocks|);
      items' := items' + [OrderItem(element.block.id, element.layoutBlockIndex, |items'|)];
    }
  }

  /** Headers, then the body, then the footers, each part in the order found for it. */
  ghost predicate PageLayout(blocks: seq<LayoutBlock>, infer: ColumnInference, items: seq<OrderItem>,
                             headers: seq<PageElement>, body: seq<PageElement>, footers: seq<PageElement>,
                             h: seq<nat>, b: seq<nat>, f: seq<nat>)
  {
    && Collected(blocks, HeaderPart, headers, |blocks|) && GroupOrdered(headers, infer, h)
    && Collected(blocks, BodyPart, body, |blocks|) && BodyOrdered(body, infer, b)
    && Collected(blocks, FooterPart, footers, |blocks|) && GroupOrdered(footers, infer, f)
    && IsPermutation(h, |headers|) && IsPermutation(b, |body|) && IsPermutation(f, |footers|)
    && BlockIndices(items) == Chosen(headers, h) + Chosen(body, b) + Chosen(footers, f)
  }

  ghost predicate PageOrdered(blocks: seq<LayoutBlock>, infer: ColumnInference, items: seq<OrderItem>) {
    exists headers, body, footers, h, b, f :: PageLayout(blocks, infer, items, headers, body, footers, h, b, f)
  }

  lemma ChosenIsDistinct(blocks: seq<LayoutBlock>, part: Part, elements: seq<PageElement>, order: seq<nat>)
    requires Collected(blocks, part, elements, |blocks|) && IsPermutation(order, |elements|)
    ensures Distinct(Chosen(elements, order))
    ensures forall k: int :: k in Chosen(elements, order) <==> 0 <= k < |blocks| && PartOf(blocks[k].kind) == part
  {
    PermutationCovers(order, |elements|);
    var chosen := Chosen(elements, order);
    forall k: int
      ensures k in chosen <==> 0 <= k < |blocks| && PartOf(blocks[k].kind) == part
    {
      if k in chosen {
        var i :| 0 <= i < |chosen| && chosen[i] == k;
        assert IsElementOf(blocks, part, elements[order[i]], |blocks|);
      }
      if 0 <= k < |blocks| && PartOf(blocks[k].kind) == part {
        assert HasElement(elements, k);
        var e :| 0 <= e < |elements| && elements[e].layoutBlockIndex == k;
        assert e in order;
        var i :| 0 <= i < |order| && order[i] == e;
        assert chosen[i] == k;
      }
    }
  }

  /** Every layout block appears exactly once, headers first and footers last. */
  lemma PageIsPermutation(blocks: seq<LayoutBlock>, infer: ColumnInference, items: seq<OrderItem>)
    requires PageOrdered(blocks, infer, items)
    ensures IsPermutation(BlockIndices(items), |blocks|)
    ensures PartsInOrder(blocks, items)
  {
    var headers, body, footers, h, b, f :| PageLayout(blocks, infer, items, headers, body, footers, h, b, f);
    ChosenIsDistinct(blocks, HeaderPart, headers, h);
    ChosenIsDistinct(blocks, BodyPart, body, b);
    ChosenIsDistinct(blocks, FooterPart, footers, f);
    PartsMakeThePage(blocks, items, Chosen(headers, h), Chosen(body, b), Chosen(footers, f));
  }

  /** Headers stand before everything else, footers behind everything else. */
  ghost predicate PartsInOrder(blocks: seq<LayoutBlock>, items: seq<OrderItem>) {
    forall i, j | 0 <= i < |items| && 0 <= j < |items| ::
      && items[i].layoutBlockIndex < |blocks| && items[j].layoutBlockIndex < |blocks|
      && KindsInOrder(blocks[items[i].layoutBlockIndex].kind, blocks[items[j].layoutBlockIndex].kind, i, j)
  }

  predicate KindsInOrder(first: BlockType, second: BlockType, i: int, j: int) {
    (first == Header && second != Header ==> i < j) && (first != Footer && second == Footer ==> i < j)
  }

  ghost predicate HoldsPart(blocks: seq<LayoutBlock>, part: Part, chosen: seq<int>) {
    Distinct(chosen) && forall k: int :: k in chosen <==> 0 <= k < |blocks| && PartOf(blocks[k].kind) == part
  }

  lemma PartsAreDisjoint(blocks: seq<LayoutBlock>, p: Part, a: seq<int>, q: Part, b: seq<int>)
    requires p != q && HoldsPart(blocks, p, a) && HoldsPart(blocks, q, b)
    ensures forall i, j | 0 <= i < |a| && 0 <= j < |b| :: a[i] != b[j]
  {
    forall i, j | 0 <= i < |a| && 0 <= j < |b|
      ensures a[i] != b[j]
    {
      assert a[i] in a && b[j] in b;
    }
  }

  lemma PartsCoverThePage(blocks: seq<LayoutBlock>, h: seq<int>, b: seq<int>, f: seq<int>)
    requires HoldsPart(blocks, HeaderPart, h) && HoldsPart(blocks, BodyPart, b) && HoldsPart(blocks, FooterPart, f)
    ensures Distinct(h + b + f)
    ensures forall k :: k in h + b + f <==> 0 <= k < |blocks|
  {
    PartsAreDisjoint(blocks, HeaderPart, h, BodyPart, b);
    PartsAreDisjoint(blocks, HeaderPart, h, FooterPart, f);
    PartsAreDisjoint(blocks, BodyPart, b, FooterPart, f);
    DistinctConcatByIndex(h, b);
    DistinctConcatByIndex(h + b, f);
    forall k
      ensures k in h + b + f <==> 0 <= k < |blocks|
    {
      assert k in h + b + f <==> k in h || k in b || k in f;
      if 0 <= k < |blocks| {
        var part := PartOf(blocks[k].kind);
        assert part == HeaderPart || part == BodyPart || part == FooterPart;
      }
    }
  }

  lemma PartsMakeThePage(blocks: seq<LayoutBlock>, items: seq<OrderItem>, h: seq<int>, b: seq<int>, f: seq<int>)
    requires BlockIndices(items) == h + b + f
    requires HoldsPart(blocks, HeaderPart, h) && HoldsPart(blocks, BodyPart, b) && HoldsPart(blocks, FooterPart, f)
    ensures IsPermutation(BlockIndices(items), |blocks|)
    ensures PartsInOrder(blocks, items)
  {
    PartsCoverThePage(blocks, h, b, f);
    CoverIsPermutation(BlockIndices(items), h + b + f, |blocks|);
    forall i, j | 0 <= i < |items| && 0 <= j < |items|
      ensures items[i].layoutBlockIndex < |blocks| && items[j].layoutBlockIndex < |blocks|
      ensures KindsInOrder(blocks[items[i].layoutBlockIndex].kind, blocks[items[j].layoutBlockIndex].kind, i, j)
    {
      PartAt(blocks, h, b, f, i);
      PartAt(blocks, h, b, f, j);
      assert BlockIndices(items)[i] == items[i].layoutBlockIndex && BlockIndices(items)[j] == items[j].layoutBlockIndex;
    }
  }

  lemma CoverIsPermutation(indices: seq<nat>, all: seq<int>, n: nat)
    requires indices == all && Distinct(all) && forall k :: k in all <==> 0 <= k < n
    ensures IsPermutation(indices, n)
  {
    assert forall i | 0 <= i < |indices| :: all[i] in all;
    forall k: nat
      ensures k in indices <==> k < n
    {
      assert k in indices <==> k in all;
    }
    DistinctSize(indices);
    assert Elements(indices) == Range(n);
  }

  lemma PartAt(blocks: seq<LayoutBlock>, h: seq<int>, b: seq<int>, f: seq<int>, i: nat)
    requires HoldsPart(blocks, HeaderPart, h) && HoldsPart(blocks, BodyPart, b) && HoldsPart(blocks, FooterPart, f)
    requires i < |h + b + f|
    ensures 0 <= (h + b + f)[i] < |blocks|
    ensures blocks[(h + b + f)[i]].kind == Header <==> i < |h|
    ensures blocks[(h + b + f)[i]].kind == Footer <==> i >= |h| + |b|
  {
    var k := (h + b + f)[i];
    if i < |h| {
      assert k in h;
    } else if i < |h| + |b| {
      assert k == b[i - |h|] && k in b;
    } else {
      assert k == f[i - |h| - |b|] && k in f;
    }
  }

  ghost predicate LocatedBlocks(detected: seq<DetectedBlock>, blocks: seq<LayoutBlock>) {
    && |blocks| == |detected|
    && forall i | 0 <= i < |detected| :: detected[i].AllFinite() && blocks[i] == detected[i].Located()
  }

  /** The detected blocks with real coordinates, or nothing when some coordinate is not finite. */
  method LocateBlocks(detected: seq<DetectedBlock>) returns (blocks: Option<seq<LayoutBlock>>)
    ensures blocks.None? <==> exists i | 0 <= i < |detected| :: !detected[i].AllFinite()
    ensures blocks.Some? ==> LocatedBlocks(detected, blocks.value)
  {
    var located: seq<LayoutBlock> := [];
    for i := 0 to |detected|
      invariant |located| == i
      invariant forall k | 0 <= k < i :: detected[k].AllFinite() && located[k] == detected[k].Located()
    {
      if !detected[i].AllFinite() {
        return None;
      }
      located := located + [detected[i].Located()];
    }
    return Some(located);
  }

  const EMPTY_TRACE: Trace := Trace([], map[], [])

  ghost predicate OnlyWeakEdgesBroken(trace: Trace) {
    forall i | 0 <= i < |trace.cycleBreaks| :: trace.cycleBreaks[i].confidence <= COLUMN_FLOW_CONFIDENCE
  }

  /** Orders the three parts one after the other, threading the trace through. */
  method OrderParts(headers: seq<PageElement>, body: seq<PageElement>, footers: seq<PageElement>, infer: ColumnInference)
    returns (h: seq<nat>, b: seq<nat>, f: seq<nat>, trace: Trace)
    requires DistinctIndices(headers) && DistinctIndices(body) && DistinctIndices(footers)
    ensures GroupOrdered(headers, infer, h) && IsPermutation(h, |headers|)
    ensures BodyOrdered(body, infer, b) && IsPermutation(b, |body|)
    ensures GroupOrdered(footers, infer, f) && IsPermutation(f, |footers|)
    ensures PartsTraced(headers, body, footers, infer, h, b, f, trace) && OnlyWeakEdgesBroken(trace)
  {
    var headerBand, bodyBand, footerBand, headerTrace, bodyTrace;
    h, headerBand, headerTrace := PredictGroupOrder(headers, "header", infer, 0, EMPTY_TRACE);
    b, bodyBand, bodyTrace := OrderBody(body, infer, headerBand, headerTrace);
    f, footerBand, trace := PredictGroupOrder(footers, "footer", infer, bodyBand, bodyTrace);
    WeakThroughout(headerTrace, bodyTrace, trace);
    PartsJoin(headers, body, footers, infer, h, b, f, Mark(headerBand, headerTrace), Mark(bodyBand, bodyTrace),
              Mark(footerBand, trace));
  }

  lemma WeakThroughout(afterHeaders: Trace, afterBody: Trace, trace: Trace)
    requires TraceGrows(EMPTY_TRACE, afterHeaders) && TraceGrows(afterHeaders, afterBody) && TraceGrows(afterBody, trace)
    ensures OnlyWeakEdgesBroken(trace)
  {
    WeakBreaksCompose(EMPTY_TRACE, afterHeaders, afterBody);
    WeakBreaksCompose(EMPTY_TRACE, afterBody, trace);
  }

  lemma PartsJoin(headers: seq<PageElement>, body: seq<PageElement>, footers: seq<PageElement>, infer: ColumnInference,
                  h: seq<nat>, b: seq<nat>, f: seq<nat>, afterHeaders: Mark, afterBody: Mark, end: Mark)
    requires GroupRun(headers, infer, "header", Mark(0, EMPTY_TRACE), h, afterHeaders)
    requires BodyRun(body, infer, afterHeaders, b, afterBody)
    requires GroupRun(footers, infer, "footer", afterBody, f, end)
    ensures PartsTraced(headers, body, footers, infer, h, b, f, end.trace)
  {
    assert PartsTracedBy(headers, body, footers, infer, h, b, f, afterHeaders, afterBody, end);
  }

  /** Band numbers run on from one part to the next. */
  ghost predicate PartsTracedBy(headers: seq<PageElement>, body: seq<PageElement>, footers: seq<PageElement>,
                                infer: ColumnInference, h: seq<nat>, b: seq<nat>, f: seq<nat>,
                                afterHeaders: Mark, afterBody: Mark, end: Mark)
  {
    && GroupRun(headers, infer, "header", Mark(0, EMPTY_TRACE), h, afterHeaders)
    && BodyRun(body, infer, afterHeaders, b, afterBody)
    && GroupRun(footers, infer, "footer", afterBody, f, end)
  }

  ghost predicate PartsTraced(headers: seq<PageElement>, body: seq<PageElement>, footers: seq<PageElement>,
                              infer: ColumnInference, h: seq<nat>, b: seq<nat>, f: seq<nat>, trace: Trace)
  {
    exists afterHeaders: Mark, afterBody: Mark, end: Mark ::
      PartsTracedBy(headers, body, footers, infer, h, b, f, afterHeaders, afterBody, end) && end.trace == trace
  }

  lemma IdsOfPart(a: seq<Placement>, b: seq<Placement>)
    requires a <= b
    ensures PlacedIds(b) == PlacedIds(a) + PlacedIds(b[|a|..])
  {
    assert b == a + b[|a|..];
    MapConcat(a, b[|a|..], (p: Placement) => p.blockId);
  }

  /** The trace of the three parts places each of their elements once. */
  lemma PartsPlacedOnce(headers: seq<PageElement>, body: seq<PageElement>, footers: seq<PageElement>,
                        infer: ColumnInference, h: seq<nat>, b: seq<nat>, f: seq<nat>, trace: Trace)
    requires PartsTraced(headers, body, footers, infer, h, b, f, trace)
    ensures multiset(PlacedIds(trace.placements)) == multiset(Ids(headers) + Ids(body) + Ids(footers))
  {
    var afterHeaders: Mark, afterBody: Mark, end: Mark :|
      PartsTracedBy(headers, body, footers, infer, h, b, f, afterHeaders, afterBody, end) && end.trace == trace;
    GroupPlacedOnce(headers, infer, "header", Mark(0, EMPTY_TRACE), h, afterHeaders);
    BodyPlacedOnce(body, infer, afterHeaders, b, afterBody);
    GroupPlacedOnce(footers, infer, "footer", afterBody, f, end);
    IdsOfPart([], afterHeaders.trace.placements);
    IdsOfPart(afterHeaders.trace.placements, afterBody.trace.placements);
    IdsOfPart(afterBody.trace.placements, trace.placements);
  }

  method ListItems(blocks: seq<LayoutBlock>, headers: seq<PageElement>, body: seq<PageElement>, footers: seq<PageElement>,
                   h: seq<nat>, b: seq<nat>, f: seq<nat>) returns (items: seq<OrderItem>)
    requires Collected(blocks, HeaderPart, headers, |blocks|) && IsPermutation(h, |headers|)
    requires Collected(blocks, BodyPart, body, |blocks|) && IsPermutation(b, |body|)
    requires Collected(blocks, FooterPart, footers, |blocks|) && IsPermutation(f, |footers|)
    ensures WellNumbered(blocks, items)
    ensures BlockIndices(items) == Chosen(headers, h) + Chosen(body, b) + Chosen(footers, f)
  {
    items := AppendItems(blocks, HeaderPart, headers, h, []);
    items := AppendItems(blocks, BodyPart, body, b, items);
    items := AppendItems(blocks, FooterPart, footers, f, items);
  }

  // ---- the trace of a page ----

  function NameAt(blocks: seq<LayoutBlock>): int -> string { (i: int) => if 0 <= i < |blocks| then blocks[i].id else "" }

  function Names(blocks: seq<LayoutBlock>): seq<string> { Map(blocks, (b: LayoutBlock) => b.id) }

  function IndicesOf(elements: seq<PageElement>): seq<int> { Map(elements, (e: PageElement) => e.layoutBlockIndex) }

  lemma PartHolds(blocks: seq<LayoutBlock>, part: Part, elements: seq<PageElement>)
    requires Collected(blocks, part, elements, |blocks|)
    ensures HoldsPart(blocks, part, IndicesOf(elements))
    ensures Ids(elements) == Map(IndicesOf(elements), NameAt(blocks))
  {
    var indices := IndicesOf(elements);
    forall i | 0 <= i < |elements|
      ensures IsElementOf(blocks, part, elements[i], |blocks|) && indices[i] == elements[i].layoutBlockIndex
      ensures NameAt(blocks)(indices[i]) == elements[i].block.id
    {
    }
    forall k: int | 0 <= k < |blocks| && PartOf(blocks[k].kind) == part
      ensures k in indices
    {
      assert HasElement(elements, k);
      var i :| 0 <= i < |elements| && elements[i].layoutBlockIndex == k;
      assert indices[i] == k;
    }
  }

  /** The elements of the three parts carry the names of the blocks, each once. */
  lemma PartsName(blocks: seq<LayoutBlock>, headers: seq<PageElement>, body: seq<PageElement>, footers: seq<PageElement>)
    requires Collected(blocks, HeaderPart, headers, |blocks|) && Collected(blocks, BodyPart, body, |blocks|)
    requires Collected(blocks, FooterPart, footers, |blocks|)
    ensures multiset(Ids(headers) + Ids(body) + Ids(footers)) == multiset(Names(blocks))
  {
    var h, b, f := IndicesOf(headers), IndicesOf(body), IndicesOf(footers);
    PartHolds(blocks, HeaderPart, headers);
    PartHolds(blocks, BodyPart, body);
    PartHolds(blocks, FooterPart, footers);
    PartsCoverThePage(blocks, h, b, f);
    MapConcat(h, b, NameAt(blocks));
    MapConcat(h + b, f, NameAt(blocks));
    EveryName(blocks, h + b + f);
  }

  /** All indices of a page, in order. */
  ghost function Indices(n: nat): (all: seq<int>)
    ensures |all| == n && forall i | 0 <= i < n :: all[i] == i
  {
    seq(n, i requires 0 <= i < n => i)
  }

  lemma AllIndices(indices: seq<int>, n: nat)
    requires Distinct(indices) && forall k :: k in indices <==> 0 <= k < n
    ensures multiset(indices) == multiset(Indices(n))
  {
    forall k
      ensures k in indices <==> k in Indices(n)
    {
      if 0 <= k < n {
        assert Indices(n)[k] == k;
      }
    }
    SameMembersSameMultiset(indices, Indices(n));
  }

  lemma EveryName(blocks: seq<LayoutBlock>, indices: seq<int>)
    requires Distinct(indices) && forall k :: k in indices <==> 0 <= k < |blocks|
    ensures multiset(Map(indices, NameAt(blocks))) == multiset(Names(blocks))
  {
    var all := Indices(|blocks|);
    AllIndices(indices, |blocks|);
    SameMultisetSameImages(indices, all, NameAt(blocks));
    assert Map(all, NameAt(blocks)) == Names(blocks);
  }

  /** Each block of the page has exactly one placement. */
  ghost predicate PlacesEachOnce(blocks: seq<LayoutBlock>, trace: Trace) {
    multiset(PlacedIds(trace.placements)) == multiset(Names(blocks))
  }

  // ---- the group each block is placed in ----

  /** The group that a kind of block belongs to. */
  function GroupFor(kind: BlockType): string {
    if kind == Header then "header" else if kind == Footer then "footer" else "body"
  }

  function Marked(group: string): string -> (string, string) { (id: string) => (id, group) }

  function MarkAt(blocks: seq<LayoutBlock>): int -> (string, string) {
    (i: int) => if 0 <= i < |blocks| then (blocks[i].id, GroupFor(blocks[i].kind)) else ("", "")
  }

  function Marks(placements: seq<Placement>): seq<(string, string)> { Map(placements, (p: Placement) => (p.blockId, p.group)) }

  function MarksOf(blocks: seq<LayoutBlock>): (marks: seq<(string, string)>)
    ensures |marks| == |blocks| && forall i | 0 <= i < |blocks| :: marks[i] == (blocks[i].id, GroupFor(blocks[i].kind))
  {
    seq(|blocks|, i requires 0 <= i < |blocks| => (blocks[i].id, GroupFor(blocks[i].kind)))
  }

  /** Each block is placed in the group of its kind. */
  ghost predicate GroupsFit(blocks: seq<LayoutBlock>, trace: Trace) {
    multiset(Marks(trace.placements)) == multiset(MarksOf(blocks))
  }

  predicate IsBody(b: LayoutBlock) { b.kind != Header && b.kind != Footer }

  /** Block c is a caption, and block t, a figure or table, is the first of the body under the id it names. */
  ghost predicate CaptionInBody(blocks: seq<LayoutBlock>, c: nat, t: nat) {
    && c < |blocks| && t < |blocks| && c != t && IsCaption(blocks[c]) && IsVisual(blocks[t])
    && blocks[t].id == blocks[c].relatedBlockId
    && forall k | 0 <= k < t && IsBody(blocks[k]) :: blocks[k].id != blocks[c].relatedBlockId
  }

  /** A captioned figure or table shares its id with a header. */
  ghost predicate TargetNamedLikeHeader(blocks: seq<LayoutBlock>) {
    exists c: nat, t: nat, h: nat ::
      h < |blocks| && CaptionInBody(blocks, c, t) && blocks[h].kind == Header && blocks[h].id == blocks[t].id
  }

  lemma MarksOfGroup(placements: seq<Placement>, ids: seq<string>, group: string)
    requires AllIn(placements, group) && multiset(PlacedIds(placements)) == multiset(ids)
    ensures multiset(Marks(placements)) == multiset(Map(ids, Marked(group)))
  {
    SameMultisetSameImages(PlacedIds(placements), ids, Marked(group));
    assert Map(PlacedIds(placements), Marked(group)) == Marks(placements);
  }

  /** Placements with the right ids but a wrong group among them do not carry the right marks. */
  lemma WrongGroupShows(placements: seq<Placement>, ids: seq<string>, group: string)
    requires !AllIn(placements, group)
    ensures multiset(Marks(placements)) != multiset(Map(ids, Marked(group)))
  {
    var i :| 0 <= i < |placements| && placements[i].group != group;
    var wrong := (placements[i].blockId, placements[i].group);
    assert Marks(placements)[i] == wrong;
    assert wrong in multiset(Marks(placements));
    assert wrong !in Map(ids, Marked(group));
    assert wrong !in multiset(Map(ids, Marked(group)));
  }

  /** The elements of a part, marked with the part's group, are its blocks marked by their kind. */
  lemma PartMarks(blocks: seq<LayoutBlock>, part: Part, elements: seq<PageElement>, group: string)
    requires Collected(blocks, part, elements, |blocks|)
    requires forall kind: BlockType | PartOf(kind) == part :: GroupFor(kind) == group
    ensures Map(Ids(elements), Marked(group)) == Map(IndicesOf(elements), MarkAt(blocks))
  {
    forall i | 0 <= i < |elements|
      ensures MarkAt(blocks)(IndicesOf(elements)[i]) == Marked(group)(Ids(elements)[i])
    {
      assert IsElementOf(blocks, part, elements[i], |blocks|);
    }
  }

  lemma EveryMark(blocks: seq<LayoutBlock>, indices: seq<int>)
    requires Distinct(indices) && forall k :: k in indices <==> 0 <= k < |blocks|
    ensures multiset(Map(indices, MarkAt(blocks))) ==
            multiset(MarksOf(blocks))
  {
    var all := Indices(|blocks|);
    AllIndices(indices, |blocks|);
    SameMultisetSameImages(indices, all, MarkAt(blocks));
    assert Map(all, MarkAt(blocks)) == MarksOf(blocks);
  }

  /** The blocks marked by kind are the three parts marked by group. */
  lemma PartsMark(blocks: seq<LayoutBlock>, headers: seq<PageElement>, body: seq<PageElement>, footers: seq<PageElement>)
    requires Collected(blocks, HeaderPart, headers, |blocks|) && Collected(blocks, BodyPart, body, |blocks|)
    requires Collected(blocks, FooterPart, footers, |blocks|)
    ensures multiset(MarksOf(blocks)) ==
            multiset(Map(Ids(headers), Marked("header")) + Map(Ids(body), Marked("body")) +
                     Map(Ids(footers), Marked("footer")))
  {
    var h, b, f := IndicesOf(headers), IndicesOf(body), IndicesOf(footers);
    PartHolds(blocks, HeaderPart, headers);
    PartHolds(blocks, BodyPart, body);
    PartHolds(blocks, FooterPart, footers);
    PartsCoverThePage(blocks, h, b, f);
    PartMarks(blocks, HeaderPart, headers, "header");
    PartMarks(blocks, BodyPart, body, "body");
    PartMarks(blocks, FooterPart, footers, "footer");
    MapConcat(h, b, MarkAt(blocks));
    MapConcat(h + b, f, MarkAt(blocks));
    EveryMark(blocks, h + b + f);
  }

  lemma MarksJoin(a: seq<Placement>, b: seq<Placement>, c: seq<Placement>, all: seq<Placement>)
    requires a <= b <= c == all
    ensures multiset(Marks(all)) == multiset(Marks(a)) + multiset(Marks(b[|a|..])) + multiset(Marks(c[|b|..]))
  {
    var mark := (p: Placement) => (p.blockId, p.group);
    assert b == a + b[|a|..] && c == b + c[|b|..];
    MapConcat(a, b[|a|..], mark);
    MapConcat(b, c[|b|..], mark);
    assert Marks(a) == Map(a, mark) && Marks(b) == Map(b, mark) && Marks(c) == Map(c, mark);
    assert Marks(b[|a|..]) == Map(b[|a|..], mark) && Marks(c[|b|..]) == Map(c[|b|..], mark);
  }

  /** The trace carries the parts' marks exactly when the body's placements are all in the body. */
  lemma PartsMarked(headers: seq<PageElement>, body: seq<PageElement>, footers: seq<PageElement>, infer: ColumnInference,
                    h: seq<nat>, b: seq<nat>, f: seq<nat>, afterHeaders: Mark, afterBody: Mark, end: Mark)
    requires PartsTracedBy(headers, body, footers, infer, h, b, f, afterHeaders, afterBody, end)
    ensures multiset(Marks(end.trace.placements)) ==
              multiset(Map(Ids(headers), Marked("header")) + Map(Ids(body), Marked("body")) +
                       Map(Ids(footers), Marked("footer"))) <==>
            !TargetPlacedBefore(body, afterHeaders.trace.placements)
    ensures forall id :: HasPlacement(afterHeaders.trace.placements, id) <==> id in Ids(headers)
  {
    GroupPlacedOnce(headers, infer, "header", Mark(0, EMPTY_TRACE), h, afterHeaders);
    var first, second, third := afterHeaders.trace.placements, afterBody.trace.placements, end.trace.placements;
    assert first[|EMPTY_TRACE.placements|..] == first;
    BodyPlacedOnce(body, infer, afterHeaders, b, afterBody);
    BodyGroups(body, infer, afterHeaders, b, afterBody);
    GroupPlacedOnce(footers, infer, "footer", afterBody, f, end);
    MarksJoin(first, second, third, third);
    MarksOfGroup(first, Ids(headers), "header");
    MarksOfGroup(third[|second|..], Ids(footers), "footer");
    if AllIn(second[|first|..], "body") {
      MarksOfGroup(second[|first|..], Ids(body), "body");
    } else {
      WrongGroupShows(second[|first|..], Ids(body), "body");
      MiddleDiffers(multiset(Marks(first)), multiset(Marks(second[|first|..])), multiset(Map(Ids(body), Marked("body"))),
                    multiset(Marks(third[|second|..])));
    }
    PlacedIdsAre(first, Ids(headers));
  }

  lemma MiddleDiffers<T(!new)>(a: multiset<T>, b: multiset<T>, c: multiset<T>, d: multiset<T>)
    requires b != c
    ensures a + b + d != a + c + d
  {
    if a + b + d == a + c + d {
      forall x
        ensures b[x] == c[x]
      {
        assert (a + b + d)[x] == (a + c + d)[x];
      }
    }
  }

  lemma PlacedIdsAre(placements: seq<Placement>, ids: seq<string>)
    requires multiset(PlacedIds(placements)) == multiset(ids)
    ensures forall id :: HasPlacement(placements, id) <==> id in ids
  {
    SameMultisetSameMembers(PlacedIds(placements), ids);
    forall id
      ensures HasPlacement(placements, id) <==> id in ids
    {
      if HasPlacement(placements, id) {
        var p :| 0 <= p < |placements| && placements[p].blockId == id;
        assert PlacedIds(placements)[p] == id;
      }
      if id in ids {
        assert id in PlacedIds(placements);
        var p :| 0 <= p < |placements| && PlacedIds(placements)[p] == id;
        assert placements[p].blockId == id;
      }
    }
  }

  /** Where the body's blocks stand among its elements. */
  lemma ElementOfBlock(blocks: seq<LayoutBlock>, part: Part, elements: seq<PageElement>, k: nat) returns (e: nat)
    requires Collected(blocks, part, elements, |blocks|) && k < |blocks| && PartOf(blocks[k].kind) == part
    ensures e < |elements| && elements[e].layoutBlockIndex == k && elements[e].block == blocks[k]
  {
    assert HasElement(elements, k);
    e :| 0 <= e < |elements| && elements[e].layoutBlockIndex == k;
    assert IsElementOf(blocks, part, elements[e], |blocks|);
  }

  lemma CaptionsAgree(blocks: seq<LayoutBlock>, body: seq<PageElement>, i: nat, e: nat)
    requires Collected(blocks, BodyPart, body, |blocks|) && i < |body| && e < |body|
    requires 0 <= body[i].layoutBlockIndex && 0 <= body[e].layoutBlockIndex
    ensures CaptionOf(body, i, e) <==> CaptionInBody(blocks, body[i].layoutBlockIndex, body[e].layoutBlockIndex)
  {
    var c, t: nat := body[i].layoutBlockIndex, body[e].layoutBlockIndex;
    assert IsElementOf(blocks, BodyPart, body[i], |blocks|) && IsElementOf(blocks, BodyPart, body[e], |blocks|);
    if CaptionOf(body, i, e) {
      forall k | 0 <= k < t && IsBody(blocks[k])
        ensures blocks[k].id != blocks[c].relatedBlockId
      {
        var j := ElementOfBlock(blocks, BodyPart, body, k);
      }
    }
    if CaptionInBody(blocks, c, t) {
      forall j | 0 <= j < e
        ensures body[j].block.id != body[i].block.relatedBlockId
      {
        assert IsElementOf(blocks, BodyPart, body[j], |blocks|);
      }
    }
  }

  lemma HeaderIds(blocks: seq<LayoutBlock>, headers: seq<PageElement>, id: string)
    requires Collected(blocks, HeaderPart, headers, |blocks|)
    ensures id in Ids(headers) <==> exists h | 0 <= h < |blocks| :: blocks[h].kind == Header && blocks[h].id == id
  {
    if id in Ids(headers) {
      var i :| 0 <= i < |headers| && Ids(headers)[i] == id;
      assert IsElementOf(blocks, HeaderPart, headers[i], |blocks|);
    }
    if h :| 0 <= h < |blocks| && blocks[h].kind == Header && blocks[h].id == id {
      var e := ElementOfBlock(blocks, HeaderPart, headers, h);
      assert Ids(headers)[e] == id;
    }
  }

  lemma TargetsAgree(blocks: seq<LayoutBlock>, headers: seq<PageElement>, body: seq<PageElement>, before: seq<Placement>)
    requires Collected(blocks, HeaderPart, headers, |blocks|) && Collected(blocks, BodyPart, body, |blocks|)
    requires forall id :: HasPlacement(before, id) <==> id in Ids(headers)
    ensures TargetPlacedBefore(body, before) <==> TargetNamedLikeHeader(blocks)
  {
    if TargetPlacedBefore(body, before) {
      var i: nat, e: nat :| CaptionOf(body, i, e) && HasPlacement(before, body[e].block.id);
      assert IsElementOf(blocks, BodyPart, body[i], |blocks|) && IsElementOf(blocks, BodyPart, body[e], |blocks|);
      CaptionsAgree(blocks, body, i, e);
      HeaderIds(blocks, headers, body[e].block.id);
      var h :| 0 <= h < |blocks| && blocks[h].kind == Header && blocks[h].id == body[e].block.id;
    }
    if c: nat, t: nat, h: nat :|
      h < |blocks| && CaptionInBody(blocks, c, t) && blocks[h].kind == Header && blocks[h].id == blocks[t].id
    {
      var i := ElementOfBlock(blocks, BodyPart, body, c);
      var e := ElementOfBlock(blocks, BodyPart, body, t);
      CaptionsAgree(blocks, body, i, e);
      HeaderIds(blocks, headers, blocks[t].id);
      assert CaptionOf(body, i, e) && HasPlacement(before, body[e].block.id);
    }
  }

  /**
    Each block is placed in the group of its kind, exactly when no captioned figure or
    table shares its id with a header: the copy for such a caption is the header's placement.
   */
  lemma GroupsFitExactlyWhen(blocks: seq<LayoutBlock>, infer: ColumnInference, items: seq<OrderItem>, trace: Trace)
    requires PageTraced(blocks, infer, items, trace)
    ensures GroupsFit(blocks, trace) <==> !TargetNamedLikeHeader(blocks)
  {
    var headers, body, footers, h, b, f :| PageTracedBy(blocks, infer, items, headers, body, footers, h, b, f, trace);
    var afterHeaders: Mark, afterBody: Mark, end: Mark :|
      PartsTracedBy(headers, body, footers, infer, h, b, f, afterHeaders, afterBody, end) && end.trace == trace;
    PartsMarked(headers, body, footers, infer, h, b, f, afterHeaders, afterBody, end);
    PartsMark(blocks, headers, body, footers);
    TargetsAgree(blocks, headers, body, afterHeaders.trace.placements);
  }

  ghost predicate DistinctNames(blocks: seq<LayoutBlock>) {
    forall i, j | 0 <= i < j < |blocks| :: blocks[i].id != blocks[j].id
  }

  lemma NamesApart(blocks: seq<LayoutBlock>)
    requires DistinctNames(blocks)
    ensures !TargetNamedLikeHeader(blocks)
  {
  }

  lemma GroupNames(kind: BlockType)
    ensures GroupFor(kind) == "header" <==> kind == Header
    ensures GroupFor(kind) == "footer" <==> kind == Footer
    ensures GroupFor(kind) == "body" <==> kind != Header && kind != Footer
  {
    assert |"header"| == 6 && |"body"| == 4 && "header"[0] != "footer"[0];
  }

  lemma FittingMark(blocks: seq<LayoutBlock>, trace: Trace, i: nat, p: nat)
    requires GroupsFit(blocks, trace) && DistinctNames(blocks)
    requires i < |blocks| && p < |trace.placements| && trace.placements[p].blockId == blocks[i].id
    ensures trace.placements[p].group == GroupFor(blocks[i].kind)
  {
    var marks := Marks(trace.placements);
    assert marks[p] in multiset(marks);
    assert marks[p] in MarksOf(blocks);
    var k :| 0 <= k < |blocks| && MarksOf(blocks)[k] == marks[p];
  }

  /** With distinct ids a placement under a block's id carries the group of that block's kind. */
  lemma PlacementShowsKind(blocks: seq<LayoutBlock>, infer: ColumnInference, items: seq<OrderItem>, trace: Trace, i: nat,
                           p: nat)
    requires PageTraced(blocks, infer, items, trace) && DistinctNames(blocks)
    requires i < |blocks| && p < |trace.placements| && trace.placements[p].blockId == blocks[i].id
    ensures trace.placements[p].group == "header" <==> blocks[i].kind == Header
    ensures trace.placements[p].group == "footer" <==> blocks[i].kind == Footer
    ensures trace.placements[p].group == "body" <==> blocks[i].kind != Header && blocks[i].kind != Footer
  {
    GroupsFitExactlyWhen(blocks, infer, items, trace);
    NamesApart(blocks);
    FittingMark(blocks, trace, i, p);
    GroupNames(blocks[i].kind);
  }

  /** A header and a figure called "x", and the figure's caption. */
  function MisleadingPage(box: BBox): seq<LayoutBlock> {
    [LayoutBlock("x", Header, "", "", -1, box, []), LayoutBlock("x", Figure, "", "", -1, box, []),
     LayoutBlock("c", Text, "Caption", "x", -1, box, [])]
  }

  lemma NamesAreShared(box: BBox)
    ensures TargetNamedLikeHeader(MisleadingPage(box))
  {
    assert CaptionInBody(MisleadingPage(box), 2, 1) && MisleadingPage(box)[0].kind == Header;
  }

  /** The caption of that page is placed among the headers. */
  lemma SharedNameMisleads(infer: ColumnInference, items: seq<OrderItem>, trace: Trace, blocks: seq<LayoutBlock>, box: BBox)
    requires blocks == MisleadingPage(box) && PageTraced(blocks, infer, items, trace)
    ensures !GroupsFit(blocks, trace)
  {
    assert TargetNamedLikeHeader(blocks) by {
      NamesAreShared(box);
    }
    GroupsFitExactlyWhen(blocks, infer, items, trace);
  }

  method OrderBlocks(blocks: seq<LayoutBlock>, infer: ColumnInference) returns (result: PageReadingOrder)
    ensures PageOrdered(blocks, infer, result.items) && WellNumbered(blocks, result.items)
    ensures IsPermutation(BlockIndices(result.items), |blocks|) && PartsInOrder(blocks, result.items)
    ensures PageTraced(blocks, infer, result.items, result.trace)
    ensures PlacesEachOnce(blocks, result.trace) && OnlyWeakEdgesBroken(result.trace)
    ensures GroupsFit(blocks, result.trace) <==> !TargetNamedLikeHeader(blocks)
  {
    var headers := CollectElements(blocks, HeaderPart);
    var body := CollectElements(blocks, BodyPart);
    var footers := CollectElements(blocks, FooterPart);
    var h, b, f, trace := OrderParts(headers, body, footers, infer);
    var items := ListItems(blocks, headers, body, footers, h, b, f);
    ConcludePage(blocks, infer, items, headers, body, footers, h, b, f);
    assert PageTracedBy(blocks, infer, items, headers, body, footers, h, b, f, trace);
    PartsPlacedOnce(headers, body, footers, infer, h, b, f, trace);
    PartsName(blocks, headers, body, footers);
    PageIsPermutation(blocks, infer, items);
    GroupsFitExactlyWhen(blocks, infer, items, trace);
    return PageReadingOrder(items, trace);
  }

  /** The trace is that of the very runs that gave the items. */
  ghost predicate PageTracedBy(blocks: seq<LayoutBlock>, infer: ColumnInference, items: seq<OrderItem>,
                               headers: seq<PageElement>, body: seq<PageElement>, footers: seq<PageElement>,
                               h: seq<nat>, b: seq<nat>, f: seq<nat>, trace: Trace)
  {
    && PageLayout(blocks, infer, items, headers, body, footers, h, b, f)
    && PartsTraced(headers, body, footers, infer, h, b, f, trace)
  }

  ghost predicate PageTraced(blocks: seq<LayoutBlock>, infer: ColumnInference, items: seq<OrderItem>, trace: Trace) {
    exists headers, body, footers, h, b, f :: PageTracedBy(blocks, infer, items, headers, body, footers, h, b, f, trace)
  }

  /** The page's reading order, or nothing when some coordinate is not finite. */
  method Order(detected: seq<DetectedBlock>, infer: ColumnInference) returns (result: Option<PageReadingOrder>)
    ensures result.None? <==> exists i | 0 <= i < |detected| :: !detected[i].AllFinite()
    ensures result.Some? ==> exists blocks: seq<LayoutBlock> ::
      && LocatedBlocks(detected, blocks)
      && PageOrdered(blocks, infer, result.value.items)
      && WellNumbered(blocks, result.value.items)
      && IsPermutation(BlockIndices(result.value.items), |blocks|) && PartsInOrder(blocks, result.value.items)
      && PageTraced(blocks, infer, result.value.items, result.value.trace)
      && PlacesEachOnce(blocks, result.value.trace)
      && (GroupsFit(blocks, result.value.trace) <==> !TargetNamedLikeHeader(blocks))
    ensures result.Some? ==> OnlyWeakEdgesBroken(result.value.trace)
  {
    var blocks := LocateBlocks(detected);
    if blocks.None? {
      return None;
    }
    var order := OrderBlocks(blocks.value, infer);
    return Some(order);
  }

  lemma ConcludePage(blocks: seq<LayoutBlock>, infer: ColumnInference, items: seq<OrderItem>,
                     headers: seq<PageElement>, body: seq<PageElement>, footers: seq<PageElement>,
                     h: seq<nat>, b: seq<nat>, f: seq<nat>)
    requires PageLayout(blocks, infer, items, headers, body, footers, h, b, f)
    ensures PageOrdered(blocks, infer, items)
  {
  }
}
