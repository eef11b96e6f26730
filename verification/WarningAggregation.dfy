/**
  Warnings that differ only in their pages and counts are joined. The result is
  stated directly, identity by identity, and does not depend on how the warnings
  were collected.
 */
module WarningAggregation {
  import opened Sequences
  import opened FirstSeen

  /** The largest std::size_t. */
  const MAX_COUNT: nat := 0xffff_ffff_ffff_ffff

  datatype Identity = Identity(code: string, message: string, stage: string, blockId: string, details: map<string, string>)

  datatype Warning = Warning(identity: Identity, pageId: string, pageIds: seq<string>, count: nat)

  // ---- what the result says ----

  function NonEmpty(pages: seq<string>): seq<string> {
    if pages == [] then []
    else NonEmpty(pages[..|pages| - 1]) + (if pages[|pages| - 1] == "" then [] else [pages[|pages| - 1]])
  }

  function PagesOf(w: Warning): seq<string> { NonEmpty([w.pageId] + w.pageIds) }

  function Identities(ws: seq<Warning>): seq<Identity> { seq(|ws|, i requires 0 <= i < |ws| => ws[i].identity) }

  /** All the pages given with an identity, in order. */
  function AllPages(ws: seq<Warning>, k: Identity): seq<string> {
    if ws == [] then []
    else AllPages(ws[..|ws| - 1], k) + (if ws[|ws| - 1].identity == k then PagesOf(ws[|ws| - 1]) else [])
  }

  function Total(ws: seq<Warning>, k: Identity): nat {
    if ws == [] then 0 else Total(ws[..|ws| - 1], k) + (if ws[|ws| - 1].identity == k then ws[|ws| - 1].count else 0)
  }

  function Saturated(n: nat): nat { if n > MAX_COUNT then MAX_COUNT else n }

  /** A single page is named by itself, several in a list. */
  function Entry(k: Identity, pages: seq<string>, count: nat): Warning {
    if |pages| == 1 then Warning(k, pages[0], [], count) else Warning(k, "", pages, count)
  }

  function EntryFor(ws: seq<Warning>, k: Identity): Warning {
    Entry(k, Union([], AllPages(ws, k)), Saturated(Total(ws, k)))
  }

  function Order(ws: seq<Warning>): seq<Identity> { Union([], Identities(ws)) }

  /** One entry for each identity in first-seen order: the saturated sum, and the first-seen union of the pages. */
  function Aggregated(ws: seq<Warning>): seq<Warning> {
    seq(|Order(ws)|, i requires 0 <= i < |Order(ws)| => EntryFor(ws, Order(ws)[i]))
  }

  ghost predicate CountsFit(ws: seq<Warning>) { forall i | 0 <= i < |ws| :: ws[i].count <= MAX_COUNT }

  // ---- the loop ----

  function SaturatedAdd(left: nat, right: nat): nat
    requires left <= MAX_COUNT && right <= MAX_COUNT
  {
    if right > MAX_COUNT - left then MAX_COUNT else left + right
  }

  method AppendPage(pages: seq<string>, page: string) returns (appended: seq<string>)
    ensures appended == Union(pages, NonEmpty([page]))
  {
    assert [page][..0] == [] && NonEmpty([page]) == if page == "" then [] else [page];
    appended := if page != "" && page !in pages then pages + [page] else pages;
    assert page != "" ==> NonEmpty([page])[..0] == [];
  }

  lemma {:induction false} NonEmptyConcat(a: seq<string>, b: seq<string>)
    ensures NonEmpty(a + b) == NonEmpty(a) + NonEmpty(b)
  {
    if b == [] {
      assert a + b == a;
    } else {
      NonEmptyConcat(a, b[..|b| - 1]);
      assert (a + b)[..|a + b| - 1] == a + b[..|b| - 1];
    }
  }

  lemma PageStep(pages: seq<string>, list: seq<string>, page: string)
    ensures Union(Union(pages, NonEmpty(list)), NonEmpty([page])) == Union(pages, NonEmpty(list + [page]))
  {
    NonEmptyConcat(list, [page]);
    UnionConcat(pages, NonEmpty(list), NonEmpty([page]));
  }

  method AppendPages(pages: seq<string>, w: Warning) returns (appended: seq<string>)
    ensures appended == Union(pages, PagesOf(w))
  {
    var given := [w.pageId] + w.pageIds;
    appended := pages;
    for i := 0 to |given|
      invariant appended == Union(pages, NonEmpty(given[..i]))
    {
      PageStep(pages, given[..i], given[i]);
      assert given[..i + 1] == given[..i] + [given[i]];
      appended := AppendPage(appended, given[i]);
    }
    assert given[..|given|] == given;
  }

  /** The entry of one identity while collecting, before a single page is moved to its own field. */
  predicate Collects(ws: seq<Warning>, k: Identity, w: Warning) {
    w == Warning(k, "", Union([], AllPages(ws, k)), Saturated(Total(ws, k)))
  }

  ghost predicate AllCollect(ws: seq<Warning>, order: seq<Identity>, entries: seq<Warning>) {
    |entries| == |order| && forall i | 0 <= i < |order| :: Collects(ws, order[i], entries[i])
  }

  ghost predicate Indexed(order: seq<Identity>, index: map<Identity, nat>) {
    && (forall k :: k in index <==> k in order)
    && (forall k | k in index :: index[k] < |order| && order[index[k]] == k)
  }

  ghost predicate Collected(ws: seq<Warning>, entries: seq<Warning>, index: map<Identity, nat>) {
    AllCollect(ws, Order(ws), entries) && Indexed(Order(ws), index) && Distinct(Order(ws))
  }

  lemma OneMore(ws: seq<Warning>, w: Warning)
    ensures Order(ws + [w]) == AddNew(Order(ws), w.identity)
    ensures forall k :: AllPages(ws + [w], k) == AllPages(ws, k) + (if w.identity == k then PagesOf(w) else [])
    ensures forall k :: Total(ws + [w], k) == Total(ws, k) + (if w.identity == k then w.count else 0)
  {
    assert (ws + [w])[..|ws|] == ws;
    assert Identities(ws + [w]) == Identities(ws) + [w.identity];
    assert (Identities(ws) + [w.identity])[..|ws|] == Identities(ws);
  }

  /** An identity that has not occurred has no pages and no count. */
  lemma {:induction false} NotSeen(ws: seq<Warning>, k: Identity)
    requires k !in Identities(ws)
    ensures AllPages(ws, k) == [] && Total(ws, k) == 0
  {
    if ws != [] {
      assert Identities(ws)[|ws| - 1] == ws[|ws| - 1].identity;
      assert Identities(ws[..|ws| - 1]) == Identities(ws)[..|ws| - 1];
      NotSeen(ws[..|ws| - 1], k);
    }
  }

  lemma CollectOther(ws: seq<Warning>, w: Warning, k: Identity, entry: Warning)
    requires Collects(ws, k, entry) && k != w.identity
    ensures Collects(ws + [w], k, entry)
  {
    OneMore(ws, w);
    assert AllPages(ws, k) + [] == AllPages(ws, k);
  }

  lemma CollectFirst(ws: seq<Warning>, w: Warning)
    requires w.identity !in Order(ws) && w.count <= MAX_COUNT
    ensures Collects(ws + [w], w.identity, Warning(w.identity, "", Union([], PagesOf(w)), w.count))
  {
    UnionMembers([], Identities(ws));
    NotSeen(ws, w.identity);
    OneMore(ws, w);
    assert [] + PagesOf(w) == PagesOf(w);
  }

  lemma CollectAgain(ws: seq<Warning>, w: Warning, entry: Warning)
    requires Collects(ws, w.identity, entry) && w.count <= MAX_COUNT
    ensures Collects(ws + [w], w.identity,
                     entry.(count := SaturatedAdd(entry.count, w.count), pageIds := Union(entry.pageIds, PagesOf(w))))
  {
    OneMore(ws, w);
    UnionConcat([], AllPages(ws, w.identity), PagesOf(w));
  }

  lemma OthersCollect(ws: seq<Warning>, w: Warning, order: seq<Identity>, entries: seq<Warning>)
    requires AllCollect(ws, order, entries)
    ensures forall i | 0 <= i < |order| && order[i] != w.identity :: Collects(ws + [w], order[i], entries[i])
  {
    forall i | 0 <= i < |order| && order[i] != w.identity
      ensures Collects(ws + [w], order[i], entries[i])
    {
      CollectOther(ws, w, order[i], entries[i]);
    }
  }

  lemma OrderGrows(order: seq<Identity>, index: map<Identity, nat>, k: Identity)
    requires Indexed(order, index) && Distinct(order) && k !in index
    ensures AddNew(order, k) == order + [k]
    ensures Indexed(order + [k], index[k := |order|]) && Distinct(order + [k])
  {
  }

  lemma NewEntry(ws: seq<Warning>, w: Warning, entries: seq<Warning>, index: map<Identity, nat>)
    requires Collected(ws, entries, index) && w.identity !in index && w.count <= MAX_COUNT
    ensures Collected(ws + [w], entries + [Warning(w.identity, "", Union([], PagesOf(w)), w.count)],
                      index[w.identity := |entries|])
  {
    var order := Order(ws);
    OrderGrows(order, index, w.identity);
    OneMore(ws, w);
    CollectFirst(ws, w);
    OthersCollect(ws, w, order, entries);
    NewEntryCollects(ws + [w], order, entries, Warning(w.identity, "", Union([], PagesOf(w)), w.count));
  }

  lemma NewEntryCollects(ws: seq<Warning>, order: seq<Identity>, entries: seq<Warning>, e: Warning)
    requires |entries| == |order| && Collects(ws, e.identity, e)
    requires e.identity !in order
    requires forall i | 0 <= i < |order| && order[i] != e.identity :: Collects(ws, order[i], entries[i])
    ensures AllCollect(ws, order + [e.identity], entries + [e])
  {
  }

  lemma GrownEntryCollects(ws: seq<Warning>, order: seq<Identity>, entries: seq<Warning>, i: nat, e: Warning)
    requires |entries| == |order| && i < |order| && Distinct(order) && Collects(ws, order[i], e)
    requires forall j | 0 <= j < |order| && order[j] != order[i] :: Collects(ws, order[j], entries[j])
    ensures AllCollect(ws, order, entries[i := e])
  {
  }

  lemma GrownEntry(ws: seq<Warning>, w: Warning, entries: seq<Warning>, index: map<Identity, nat>)
    requires Collected(ws, entries, index) && w.identity in index && w.count <= MAX_COUNT
    ensures index[w.identity] < |entries| && entries[index[w.identity]].count <= MAX_COUNT
    ensures var i := index[w.identity];
            var grown := entries[i].(count := SaturatedAdd(entries[i].count, w.count),
                                     pageIds := Union(entries[i].pageIds, PagesOf(w)));
            Collected(ws + [w], entries[i := grown], index)
  {
    var order, i := Order(ws), index[w.identity];
    assert Collects(ws, order[i], entries[i]);
    var grown := entries[i].(count := SaturatedAdd(entries[i].count, w.count),
                             pageIds := Union(entries[i].pageIds, PagesOf(w)));
    OneMore(ws, w);
    OthersCollect(ws, w, order, entries);
    CollectAgain(ws, w, entries[i]);
    GrownEntryCollects(ws + [w], order, entries, i, grown);
  }

  /** One warning more: a new entry, or the one entry of its identity grows. */
  method Collect(ghost ws: seq<Warning>, entries: seq<Warning>, index: map<Identity, nat>, w: Warning)
    returns (entries': seq<Warning>, index': map<Identity, nat>)
    requires Collected(ws, entries, index) && w.count <= MAX_COUNT
    ensures Collected(ws + [w], entries', index')
  {
    if w.identity !in index {
      NewEntry(ws, w, entries, index);
      var pages := AppendPages([], w);
      entries', index' := entries + [Warning(w.identity, "", pages, w.count)], index[w.identity := |entries|];
    } else {
      GrownEntry(ws, w, entries, index);
      var i := index[w.identity];
      var pages := AppendPages(entries[i].pageIds, w);
      entries' := entries[i := entries[i].(count := SaturatedAdd(entries[i].count, w.count), pageIds := pages)];
      index' := index;
    }
  }

  /** A single page moves to its own field. */
  method Finish(ghost ws: seq<Warning>, ghost order: seq<Identity>, entries: seq<Warning>) returns (result: seq<Warning>)
    requires AllCollect(ws, order, entries)
    ensures |result| == |order| && forall j | 0 <= j < |order| :: result[j] == EntryFor(ws, order[j])
  {
    result := [];
    for i := 0 to |entries|
      invariant |result| == i && forall j | 0 <= j < i :: result[j] == EntryFor(ws, order[j])
    {
      assert Collects(ws, order[i], entries[i]);
      var w := entries[i];
      if |w.pageIds| == 1 {
        w := w.(pageId := w.pageIds[0], pageIds := []);
      }
      result := result + [w];
    }
  }

  method AggregateWarnings(warnings: seq<Warning>) returns (result: seq<Warning>)
    requires CountsFit(warnings)
    ensures result == Aggregated(warnings)
  {
    var entries, index := [], map[];
    for n := 0 to |warnings|
      invariant Collected(warnings[..n], entries, index)
    {
      assert warnings[..n + 1] == warnings[..n] + [warnings[n]];
      entries, index := Collect(warnings[..n], entries, index, warnings[n]);
    }
    assert warnings[..|warnings|] == warnings;
    result := Finish(warnings, Order(warnings), entries);
  }

  // ---- the laws ----

  /** No identity appears twice, and exactly the ones given appear. */
  lemma EntriesAreDistinct(ws: seq<Warning>)
    ensures Distinct(Order(ws)) && Identities(Aggregated(ws)) == Order(ws)
    ensures forall k :: k in Order(ws) <==> k in Identities(ws)
  {
    UnionMembers([], Identities(ws));
    assert forall i | 0 <= i < |Order(ws)| :: Aggregated(ws)[i].identity == Order(ws)[i];
  }

  lemma {:induction false} NonEmptyIsKept(pages: seq<string>)
    requires "" !in pages
    ensures NonEmpty(pages) == pages
  {
    if pages != [] {
      NonEmptyIsKept(pages[..|pages| - 1]);
    }
  }

  lemma {:induction false} PagesAreNonEmpty(ws: seq<Warning>, k: Identity)
    ensures "" !in AllPages(ws, k)
  {
    if ws != [] {
      PagesAreNonEmpty(ws[..|ws| - 1], k);
      NothingEmpty([ws[|ws| - 1].pageId] + ws[|ws| - 1].pageIds);
    }
  }

  lemma {:induction false} NothingEmpty(pages: seq<string>)
    ensures "" !in NonEmpty(pages)
  {
    if pages != [] {
      NothingEmpty(pages[..|pages| - 1]);
    }
  }

  /** An entry gives back the pages it was made from, whichever field they are in. */
  lemma EntryPages(k: Identity, pages: seq<string>, count: nat)
    requires "" !in pages
    ensures PagesOf(Entry(k, pages, count)) == pages
  {
    if |pages| == 1 {
      assert [pages[0]] + [] == pages;
      NonEmptyIsKept(pages);
    } else {
      NonEmptyConcat([""], pages);
      NonEmptyIsKept(pages);
      assert [""][..0] == [] && NonEmpty([""]) == [];
    }
  }

  /** In a list with one entry for an identity, that entry decides its pages and its count. */
  lemma {:induction false} OneEntryDecides(ws: seq<Warning>, i: nat)
    requires i < |ws| && Distinct(Identities(ws))
    ensures AllPages(ws, ws[i].identity) == PagesOf(ws[i]) && Total(ws, ws[i].identity) == ws[i].count
  {
    var last, k := |ws| - 1, ws[i].identity;
    var front := ws[..last];
    assert Identities(front) == Identities(ws)[..last];
    if i == last {
      forall j | 0 <= j < last
        ensures Identities(front)[j] != k
      {
        assert Identities(ws)[j] != Identities(ws)[last];
      }
      NotSeen(front, k);
      assert [] + PagesOf(ws[i]) == PagesOf(ws[i]);
    } else {
      assert Identities(ws)[i] != Identities(ws)[last];
      OneEntryDecides(front, i);
      assert front[i] == ws[i];
      assert PagesOf(ws[i]) + [] == PagesOf(ws[i]);
    }
  }

  /** What the aggregate says of one identity: the pages once each, and the saturated count. */
  lemma AggregateSays(ws: seq<Warning>, k: Identity)
    ensures AllPages(Aggregated(ws), k) == Union([], AllPages(ws, k))
    ensures Total(Aggregated(ws), k) == Saturated(Total(ws, k))
  {
    EntriesAreDistinct(ws);
    if k in Order(ws) {
      var i :| 0 <= i < |Order(ws)| && Order(ws)[i] == k;
      OneEntryDecides(Aggregated(ws), i);
      PagesAreNonEmpty(ws, k);
      UnionMembers([], AllPages(ws, k));
      EntryPages(k, Union([], AllPages(ws, k)), Saturated(Total(ws, k)));
    } else {
      NotSeen(Aggregated(ws), k);
      NotSeen(ws, k);
    }
  }

  lemma {:induction false} PagesConcat(a: seq<Warning>, b: seq<Warning>, k: Identity)
    ensures AllPages(a + b, k) == AllPages(a, k) + AllPages(b, k)
    ensures Total(a + b, k) == Total(a, k) + Total(b, k)
  {
    if b == [] {
      assert a + b == a;
    } else {
      PagesConcat(a, b[..|b| - 1], k);
      assert (a + b)[..|a + b| - 1] == a + b[..|b| - 1];
    }
  }

  /** Aggregating two aggregates is aggregating everything at once. */
  lemma SplitDoesNotMatter(a: seq<Warning>, b: seq<Warning>)
    ensures Aggregated(Aggregated(a) + Aggregated(b)) == Aggregated(a + b)
  {
    var joined := Aggregated(a) + Aggregated(b);
    OrderOfAggregates(a, b);
    forall i | 0 <= i < |Order(a + b)|
      ensures EntryFor(joined, Order(a + b)[i]) == EntryFor(a + b, Order(a + b)[i])
    {
      EntryOfAggregates(a, b, Order(a + b)[i]);
    }
  }

  lemma IdentitiesConcat(a: seq<Warning>, b: seq<Warning>)
    ensures Identities(a + b) == Identities(a) + Identities(b)
  {
  }

  lemma OrderOfAggregates(a: seq<Warning>, b: seq<Warning>)
    ensures Order(Aggregated(a) + Aggregated(b)) == Order(a + b)
  {
    EntriesAreDistinct(a);
    EntriesAreDistinct(b);
    IdentitiesConcat(Aggregated(a), Aggregated(b));
    IdentitiesConcat(a, b);
    UnionOfUnions(Identities(a), Identities(b));
  }

  lemma EntryOfAggregates(a: seq<Warning>, b: seq<Warning>, k: Identity)
    ensures EntryFor(Aggregated(a) + Aggregated(b), k) == EntryFor(a + b, k)
  {
    AggregateSays(a, k);
    AggregateSays(b, k);
    PagesConcat(Aggregated(a), Aggregated(b), k);
    PagesConcat(a, b, k);
    UnionOfUnions(AllPages(a, k), AllPages(b, k));
  }

  /** Aggregating again changes nothing. */
  lemma AggregationIsIdempotent(ws: seq<Warning>)
    ensures Aggregated(Aggregated(ws)) == Aggregated(ws)
  {
    SplitDoesNotMatter(ws, []);
    assert Aggregated([]) == [] && ws + [] == ws && Aggregated(ws) + [] == Aggregated(ws);
  }
}
