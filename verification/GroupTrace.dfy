/**
  What ordering a group leaves in the trace: band after band, the placements of the band
  and of the separator that closes it, the counts of its edges and its breaks.
 */
module GroupTrace {
  import opened LayoutModel
  import opened ReadingOrderModel
  import opened Sequences
  import opened Sorting
  import opened BandOrder
  import opened BandDivision

  /** The band number due next and the trace so far. */
  datatype Mark = Mark(number: nat, trace: Trace)

  /** One placement for each element of the band; an empty band leaves no trace. */
  ghost predicate BandTraced(elements: seq<PageElement>, infer: ColumnInference, group: string, band: seq<nat>,
                             number: nat, result: seq<nat>, before: Trace, after: Trace)
  {
    && (forall i | 0 <= i < |band| :: band[i] < |elements|)
    && if band == [] then result == [] && after == before
       else
         var local, columns := Local(elements, band), infer(Local(elements, band));
         && before.placements <= after.placements
         && PlacedInBand(local, columns, after.placements[|before.placements|..], group, number)
         && RecordsBand(local, band, columns, result, before, after)
  }

  /** A separator reaches across all columns of the group. */
  function SeparatorPlacement(e: PageElement, columnCount: nat, group: string, number: nat): (p: Placement)
    ensures p.columnStart == 0 && (columnCount > 0 ==> p.columnEnd + 1 == columnCount)
  {
    Placement(e.block.id, group, number, 0, if columnCount > 0 then columnCount - 1 else 0, "")
  }

  function WithPlacement(t: Trace, p: Placement): Trace { t.(placements := t.placements + [p]) }

  /** Only a band that holds something takes a number. */
  function NextNumber(band: seq<nat>, number: nat): nat { if band == [] then number else number + 1 }

  /** The band before separator k, and the separator. */
  ghost predicate PartTraced(elements: seq<PageElement>, infer: ColumnInference, group: string, separator: nat,
                             band: seq<nat>, result: seq<nat>, before: Mark, after: Mark)
  {
    separator < |elements| &&
    exists mid: Trace ::
      && BandTraced(elements, infer, group, band, before.number, result, before.trace, mid)
      && after == PastSeparator(elements[separator], |infer(elements)|, group, NextNumber(band, before.number), mid)
  }

  /** The separator takes a number of its own. */
  function PastSeparator(e: PageElement, columnCount: nat, group: string, number: nat, t: Trace): Mark {
    Mark(number + 1, WithPlacement(t, SeparatorPlacement(e, columnCount, group, number)))
  }

  /** From one mark to the next, the band before separator i and the separator are recorded. */
  ghost predicate PartStep(elements: seq<PageElement>, infer: ColumnInference, group: string, separators: seq<nat>,
                           bands: seq<seq<nat>>, results: seq<seq<nat>>, marks: seq<Mark>, i: nat)
  {
    && i < |separators| && i < |bands| && i < |results| && i + 1 < |marks|
    && PartTraced(elements, infer, group, separators[i], bands[i], results[i], marks[i], marks[i + 1])
  }

  ghost predicate MarkedUpTo(elements: seq<PageElement>, infer: ColumnInference, group: string, separators: seq<nat>,
                             bands: seq<seq<nat>>, results: seq<seq<nat>>, marks: seq<Mark>, start: Mark, k: nat)
  {
    && k < |marks| && marks[0] == start
    && forall i | 0 <= i < k :: PartStep(elements, infer, group, separators, bands, results, marks, i)
  }

  /** All parts, then the band below the last separator. */
  ghost predicate GroupTraced(elements: seq<PageElement>, infer: ColumnInference, group: string, separators: seq<nat>,
                              bands: seq<seq<nat>>, results: seq<seq<nat>>, start: Mark, end: Mark)
  {
    var k := |separators|;
    && |bands| == |results| == k + 1
    && exists marks: seq<Mark> ::
      && MarkedUpTo(elements, infer, group, separators, bands, results, marks, start, k)
      && BandTraced(elements, infer, group, bands[k], marks[k].number, results[k], marks[k].trace, end.trace)
      && end.number == NextNumber(bands[k], marks[k].number)
  }

  ghost predicate BandsListed(elements: seq<PageElement>, separators: seq<nat>, bands: seq<seq<nat>>) {
    && (forall i | 0 <= i < |separators| :: separators[i] < |elements|)
    && forall k | 0 <= k < |bands| :: BandMembers(elements, separators, k, bands[k])
  }

  ghost predicate GroupLaidOut(elements: seq<PageElement>, infer: ColumnInference, group: string, separators: seq<nat>,
                               bands: seq<seq<nat>>, results: seq<seq<nat>>, start: Mark, order: seq<nat>, end: Mark)
  {
    && GroupLayout(elements, infer, separators, results, order) && BandsListed(elements, separators, bands)
    && GroupTraced(elements, infer, group, separators, bands, results, start, end)
  }

  /** The separators and bands of the group, the group's order, and the trace of ordering it. */
  ghost predicate GroupRun(elements: seq<PageElement>, infer: ColumnInference, group: string, start: Mark,
                           order: seq<nat>, end: Mark)
  {
    if elements == [] then order == [] && end == start
    else
      exists separators: seq<nat>, bands: seq<seq<nat>>, results: seq<seq<nat>> ::
        GroupLaidOut(elements, infer, group, separators, bands, results, start, order, end)
  }

  // ---- one placement each ----

  function PlacedIds(placements: seq<Placement>): seq<string> { Map(placements, (p: Placement) => p.blockId) }

  function IdAt(elements: seq<PageElement>): nat -> string {
    (i: nat) => if i < |elements| then elements[i].block.id else ""
  }

  /** The ids of the elements at some positions. */
  function IdsAt(elements: seq<PageElement>, s: seq<nat>): seq<string> { Map(s, IdAt(elements)) }

  function Ids(elements: seq<PageElement>): seq<string> { Map(elements, (e: PageElement) => e.block.id) }

  /** The placements belong to the group, their band numbers never fall and lie in a range. */
  ghost predicate NumbersRise(placements: seq<Placement>, group: string, first: nat, next: nat) {
    && (forall i | 0 <= i < |placements| ::
          placements[i].group == group && placements[i].parentId == "" && first <= placements[i].bandIndex < next)
    && forall i, j | 0 <= i < j < |placements| :: placements[i].bandIndex <= placements[j].bandIndex
  }

  /** From one mark to another the trace has grown by placements of these elements, in this order. */
  ghost predicate Places(elements: seq<PageElement>, group: string, s: seq<nat>, start: Mark, end: Mark) {
    && start.trace.placements <= end.trace.placements && start.number <= end.number
    && var added := end.trace.placements[|start.trace.placements|..];
       PlacedIds(added) == IdsAt(elements, s) && NumbersRise(added, group, start.number, end.number)
  }

  lemma PlacesNothing(elements: seq<PageElement>, group: string, start: Mark)
    ensures Places(elements, group, [], start, start)
  {
    assert start.trace.placements[|start.trace.placements|..] == [];
  }

  lemma PlacesBoth(elements: seq<PageElement>, group: string, s: seq<nat>, t: seq<nat>, a: Mark, b: Mark, c: Mark)
    requires Places(elements, group, s, a, b) && Places(elements, group, t, b, c)
    ensures Places(elements, group, s + t, a, c)
  {
    var one, two := b.trace.placements[|a.trace.placements|..], c.trace.placements[|b.trace.placements|..];
    assert c.trace.placements[|a.trace.placements|..] == one + two;
    MapConcat(one, two, (p: Placement) => p.blockId);
    MapConcat(s, t, IdAt(elements));
  }

  /** What the run of a non-empty band adds to the trace. */
  ghost predicate AddedForBand(elements: seq<PageElement>, group: string, band: seq<nat>, number: nat,
                               added: seq<Placement>)
  {
    && |added| == |band|
    && forall k | 0 <= k < |band| ::
         && added[k].blockId == IdAt(elements)(band[k]) && added[k].group == group
         && added[k].bandIndex == number && added[k].parentId == ""
  }

  lemma BandAdds(elements: seq<PageElement>, infer: ColumnInference, group: string, band: seq<nat>, result: seq<nat>,
                 start: Mark, after: Trace)
    requires band != [] && BandTraced(elements, infer, group, band, start.number, result, start.trace, after)
    ensures start.trace.placements <= after.placements
    ensures AddedForBand(elements, group, band, start.number, after.placements[|start.trace.placements|..])
  {
    var added := after.placements[|start.trace.placements|..];
    var local, columns := Local(elements, band), infer(Local(elements, band));
    forall k | 0 <= k < |band|
      ensures added[k].blockId == IdAt(elements)(band[k]) && added[k].group == group
      ensures added[k].bandIndex == start.number && added[k].parentId == ""
    {
      assert IsPlacement(local[k], columns, group, start.number, added[k]);
    }
  }

  lemma BandPlaces(elements: seq<PageElement>, infer: ColumnInference, group: string, band: seq<nat>, result: seq<nat>,
                   start: Mark, after: Trace)
    requires BandTraced(elements, infer, group, band, start.number, result, start.trace, after)
    ensures Places(elements, group, band, start, Mark(NextNumber(band, start.number), after))
  {
    if band == [] {
      PlacesNothing(elements, group, start);
    } else {
      BandAdds(elements, infer, group, band, result, start, after);
      assert PlacedIds(after.placements[|start.trace.placements|..]) == IdsAt(elements, band);
    }
  }

  lemma SeparatorPlaces(elements: seq<PageElement>, columnCount: nat, group: string, separator: nat, number: nat, t: Trace)
    requires separator < |elements|
    ensures Places(elements, group, [separator], Mark(number, t),
                   PastSeparator(elements[separator], columnCount, group, number, t))
  {
    var p := SeparatorPlacement(elements[separator], columnCount, group, number);
    assert WithPlacement(t, p).placements[|t.placements|..] == [p];
    assert PlacedIds([p]) == IdsAt(elements, [separator]);
  }

  lemma PartPlaces(elements: seq<PageElement>, infer: ColumnInference, group: string, separator: nat, band: seq<nat>,
                   result: seq<nat>, before: Mark, after: Mark)
    requires PartTraced(elements, infer, group, separator, band, result, before, after)
    ensures Places(elements, group, band + [separator], before, after)
  {
    var number := NextNumber(band, before.number);
    var mid: Trace :|
      && BandTraced(elements, infer, group, band, before.number, result, before.trace, mid)
      && after == PastSeparator(elements[separator], |infer(elements)|, group, number, mid);
    BandPlaces(elements, infer, group, band, result, before, mid);
    SeparatorPlaces(elements, |infer(elements)|, group, separator, number, mid);
    PlacesBoth(elements, group, band, [separator], before, Mark(number, mid), after);
  }

  lemma {:induction false} MarksPlace(elements: seq<PageElement>, infer: ColumnInference, group: string, separators: seq<nat>,
                                      bands: seq<seq<nat>>, results: seq<seq<nat>>, marks: seq<Mark>, start: Mark, k: nat)
    requires MarkedUpTo(elements, infer, group, separators, bands, results, marks, start, k)
    requires k <= |separators| && k <= |bands|
    ensures Places(elements, group, Joined(bands, separators, k), start, marks[k])
  {
    if k == 0 {
      PlacesNothing(elements, group, start);
    } else {
      MarksPlace(elements, infer, group, separators, bands, results, marks, start, k - 1);
      assert PartStep(elements, infer, group, separators, bands, results, marks, k - 1);
      PartPlaces(elements, infer, group, separators[k - 1], bands[k - 1], results[k - 1], marks[k - 1], marks[k]);
      PlacesBoth(elements, group, Joined(bands, separators, k - 1), bands[k - 1] + [separators[k - 1]], start,
                 marks[k - 1], marks[k]);
      JoinedStep(bands, separators, k);
    }
  }

  lemma JoinedStep(bands: seq<seq<nat>>, separators: seq<nat>, k: nat)
    requires 0 < k <= |separators| && k <= |bands|
    ensures Joined(bands, separators, k) == Joined(bands, separators, k - 1) + (bands[k - 1] + [separators[k - 1]])
  {
  }

  lemma PartStepKept(elements: seq<PageElement>, infer: ColumnInference, group: string, separators: seq<nat>,
                     bands: seq<seq<nat>>, results: seq<seq<nat>>, marks: seq<Mark>, i: nat,
                     band: seq<nat>, result: seq<nat>, next: Mark)
    requires PartStep(elements, infer, group, separators, bands, results, marks, i)
    ensures PartStep(elements, infer, group, separators, bands + [band], results + [result], marks + [next], i)
  {
    assert (bands + [band])[i] == bands[i] && (results + [result])[i] == results[i];
    assert (marks + [next])[i] == marks[i] && (marks + [next])[i + 1] == marks[i + 1];
  }

  lemma PartStepNew(elements: seq<PageElement>, infer: ColumnInference, group: string, separators: seq<nat>,
                    bands: seq<seq<nat>>, results: seq<seq<nat>>, marks: seq<Mark>, k: nat,
                    band: seq<nat>, result: seq<nat>, next: Mark)
    requires |bands| == |results| == k < |separators| && |marks| == k + 1
    requires PartTraced(elements, infer, group, separators[k], band, result, marks[k], next)
    ensures PartStep(elements, infer, group, separators, bands + [band], results + [result], marks + [next], k)
  {
    assert (bands + [band])[k] == band && (results + [result])[k] == result;
    assert (marks + [next])[k] == marks[k] && (marks + [next])[k + 1] == next;
  }

  /** One part more, with the lists grown behind. */
  lemma MarkedOneMore(elements: seq<PageElement>, infer: ColumnInference, group: string, separators: seq<nat>,
                      bands: seq<seq<nat>>, results: seq<seq<nat>>, marks: seq<Mark>, start: Mark, k: nat,
                      band: seq<nat>, result: seq<nat>, next: Mark)
    requires |bands| == |results| == k < |separators| && |marks| == k + 1
    requires MarkedUpTo(elements, infer, group, separators, bands, results, marks, start, k)
    requires PartTraced(elements, infer, group, separators[k], band, result, marks[k], next)
    ensures MarkedUpTo(elements, infer, group, separators, bands + [band], results + [result], marks + [next], start, k + 1)
  {
    var moreBands, moreResults, moreMarks := bands + [band], results + [result], marks + [next];
    forall i | 0 <= i < k + 1
      ensures PartStep(elements, infer, group, separators, moreBands, moreResults, moreMarks, i)
    {
      if i < k {
        PartStepKept(elements, infer, group, separators, bands, results, marks, i, band, result, next);
      } else {
        PartStepNew(elements, infer, group, separators, bands, results, marks, k, band, result, next);
      }
    }
  }

  /** The lists may grow further behind what has been marked. */
  lemma MarkedWithTail(elements: seq<PageElement>, infer: ColumnInference, group: string, separators: seq<nat>,
                       bands: seq<seq<nat>>, results: seq<seq<nat>>, marks: seq<Mark>, start: Mark, k: nat,
                       band: seq<nat>, result: seq<nat>)
    requires MarkedUpTo(elements, infer, group, separators, bands, results, marks, start, k)
    ensures MarkedUpTo(elements, infer, group, separators, bands + [band], results + [result], marks, start, k)
  {
    var moreBands, moreResults := bands + [band], results + [result];
    forall i | 0 <= i < k
      ensures PartStep(elements, infer, group, separators, moreBands, moreResults, marks, i)
    {
      assert PartStep(elements, infer, group, separators, bands, results, marks, i);
    }
  }

  lemma BandsHoldGroup(elements: seq<PageElement>, separators: seq<nat>, bands: seq<seq<nat>>)
    requires BandsListed(elements, separators, bands) && Distinct(separators) && |bands| == |separators| + 1
    ensures IsPermutation(Joined(bands, separators, |separators|) + bands[|separators|], |elements|)
  {
    forall k | 0 <= k < |bands|
      ensures BandContents(elements, separators, k, bands[k])
    {
      assert BandMembers(elements, separators, k, bands[k]);
    }
    ContentsArePermuted(elements, separators, bands);
  }

  /** The range of positions, as a list. */
  function Positions(n: nat): seq<nat> { seq(n, i requires 0 <= i < n => i) }

  /** Positions in any order name the same ids. */
  lemma PermutedIds(elements: seq<PageElement>, order: seq<nat>)
    requires IsPermutation(order, |elements|)
    ensures multiset(IdsAt(elements, order)) == multiset(Ids(elements))
  {
    var all := Positions(|elements|);
    PermutationCovers(order, |elements|);
    forall i: nat
      ensures i in order <==> i in all
    {
      if i < |elements| {
        assert all[i] == i;
      }
    }
    SameMembersSameMultiset(order, all);
    SameMultisetSameImages(order, all, IdAt(elements));
    assert Map(all, IdAt(elements)) == Ids(elements);
  }

  /** Exactly one placement for each element, in the group's own range of band numbers. */
  ghost predicate PlacedOnce(elements: seq<PageElement>, group: string, start: Mark, end: Mark) {
    && start.trace.placements <= end.trace.placements
    && var added := end.trace.placements[|start.trace.placements|..];
       multiset(PlacedIds(added)) == multiset(Ids(elements)) && NumbersRise(added, group, start.number, end.number)
  }

  lemma GroupPlacedOnce(elements: seq<PageElement>, infer: ColumnInference, group: string, start: Mark, order: seq<nat>,
                        end: Mark)
    requires GroupRun(elements, infer, group, start, order, end)
    ensures PlacedOnce(elements, group, start, end)
  {
    if elements == [] {
      PlacesNothing(elements, group, start);
      assert Ids(elements) == [] == IdsAt(elements, []);
    } else {
      var separators: seq<nat>, bands: seq<seq<nat>>, results: seq<seq<nat>> :|
        GroupLaidOut(elements, infer, group, separators, bands, results, start, order, end);
      DivisionPlacedOnce(elements, infer, group, separators, bands, results, start, end);
    }
  }

  lemma DivisionPlacedOnce(elements: seq<PageElement>, infer: ColumnInference, group: string, separators: seq<nat>,
                           bands: seq<seq<nat>>, results: seq<seq<nat>>, start: Mark, end: Mark)
    requires BandsListed(elements, separators, bands) && Distinct(separators)
    requires GroupTraced(elements, infer, group, separators, bands, results, start, end)
    ensures PlacedOnce(elements, group, start, end)
  {
    var k := |separators|;
    var marks: seq<Mark> :|
      && MarkedUpTo(elements, infer, group, separators, bands, results, marks, start, k)
      && BandTraced(elements, infer, group, bands[k], marks[k].number, results[k], marks[k].trace, end.trace)
      && end.number == NextNumber(bands[k], marks[k].number);
    MarksPlace(elements, infer, group, separators, bands, results, marks, start, k);
    BandPlaces(elements, infer, group, bands[k], results[k], marks[k], end.trace);
    PlacesBoth(elements, group, Joined(bands, separators, k), bands[k], start, marks[k], end);
    BandsHoldGroup(elements, separators, bands);
    PermutedIds(elements, Joined(bands, separators, k) + bands[k]);
  }
}
