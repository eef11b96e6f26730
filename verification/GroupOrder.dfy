/**
  Ordering one group of elements: the separators are found, each band is collected and
  ordered on its own, and the trace records every placement.
 */
module GroupOrder {
  import opened LayoutModel
  import opened ReadingOrderModel
  import opened Sequences
  import opened BandGraph
  import opened BandOrder
  import opened BandDivision
  import opened GroupTrace

  ghost predicate TraceGrows(before: Trace, after: Trace) {
    && before.placements <= after.placements
    && OnlyWeakBreaks(before.cycleBreaks, after.cycleBreaks)
  }

  method FindSeparators(elements: seq<PageElement>, columns: seq<Column>)
    returns (separators: seq<nat>, remaining: seq<nat>)
    requires DistinctIndices(elements)
    ensures Separators(elements, columns, separators)
    ensures Ascending(remaining)
    ensures forall i: nat :: i in remaining <==> i < |elements| && !Separator(elements[i].bbox, columns)
  {
    separators, remaining := [], [];
    for index := 0 to |elements|
      invariant forall i: nat :: i in separators <==> i < index && Separator(elements[i].bbox, columns)
      invariant Distinct(separators)
      invariant forall i: nat :: i in remaining <==> i < index && !Separator(elements[i].bbox, columns)
      invariant Ascending(remaining)
    {
      assert index !in separators && forall i | 0 <= i < |remaining| :: remaining[i] in remaining;
      var spans := SpansAllColumns(elements[index].bbox, columns);
      if spans {
        separators := separators + [index];
      } else {
        remaining := remaining + [index];
      }
    }
    assert forall i | 0 <= i < |separators| :: separators[i] in separators;
    separators := SortByPosition(elements, separators);
  }

  /** Which remaining elements have been taken into one of the first k bands. */
  ghost predicate ConsumedUpTo(elements: seq<PageElement>, separators: seq<nat>, consumed: seq<bool>, k: nat)
    requires forall i | 0 <= i < |separators| :: separators[i] < |elements|
  {
    && |consumed| == |elements|
    && forall b: nat | b < |elements| && b !in separators :: consumed[b] <==> BandOf(elements, separators, b) < k
  }

  /** The not yet consumed elements above the k-th separator are exactly the k-th band. */
  lemma BandIsGuarded(elements: seq<PageElement>, separators: seq<nat>, k: nat, b: nat)
    requires forall i | 0 <= i < |separators| :: separators[i] < |elements|
    requires k < |separators| && b < |elements|
    ensures BandOf(elements, separators, b) == k <==>
            BandOf(elements, separators, b) >= k && Above(elements, b, separators[k])
  {
    BandOfIsFirstBelow(elements, separators, b);
  }

  /** Collects band k; with `last` it takes whatever is left. */
  method CollectBand(elements: seq<PageElement>, ghost columns: seq<Column>, separators: seq<nat>, remaining: seq<nat>,
                     consumed: seq<bool>, k: nat) returns (band: seq<nat>, consumed': seq<bool>)
    requires Separators(elements, columns, separators) && k <= |separators|
    requires Ascending(remaining)
    requires forall i: nat :: i in remaining <==> i < |elements| && i !in separators
    requires ConsumedUpTo(elements, separators, consumed, k)
    ensures BandMembers(elements, separators, k, band)
    ensures forall i | 0 <= i < |band| :: band[i] < |elements|
    ensures ConsumedUpTo(elements, separators, consumed', k + 1)
  {
    band, consumed' := [], consumed;
    for r := 0 to |remaining|
      invariant |consumed'| == |elements|
      invariant Ascending(band)
      invariant forall b: nat :: b in band <==> b in remaining[..r] && InBand(elements, separators, k, b)
      invariant forall b: nat | b < |elements| :: consumed'[b] <==> consumed[b] || b in band
    {
      var index := remaining[r];
      assert index in remaining && index !in remaining[..r] && remaining[..r + 1] == remaining[..r] + [index];
      assert forall i | 0 <= i < |band| :: band[i] in band;
      if k < |separators| {
        BandIsGuarded(elements, separators, k, index);
      }
      if !consumed'[index] && (k == |separators| || CenterY(elements[index].bbox) < CenterY(elements[separators[k]].bbox)) {
        band := band + [index];
        consumed' := consumed'[index := true];
      }
    }
    assert remaining[..|remaining|] == remaining;
    assert forall i | 0 <= i < |band| :: band[i] in band;
  }

  lemma EmptyBandIsOrdered(elements: seq<PageElement>, columns: seq<Column>)
    ensures OrdersBand(elements, [], columns, [])
  {
    var ranges: seq<ColumnRange>, order: seq<nat> := [], [];
    assert BandRanges(Local(elements, []), columns, ranges) && IsPermutation(order, 0);
    NothingToSort(ColumnCount(columns));
    assert OrdersBandBy(Local(elements, []), [], columns, ranges, order, [], []);
  }

  /** Orders one band and appends its answer; an empty band leaves no trace. */
  method AppendOrderedBand(elements: seq<PageElement>, band: seq<nat>, group: string, infer: ColumnInference,
                           nextBand: nat, trace: Trace, order: seq<nat>)
    returns (result: seq<nat>, order': seq<nat>, nextBand': nat, trace': Trace)
    requires DistinctIndices(elements) && Distinct(band)
    requires forall i | 0 <= i < |band| :: band[i] < |elements|
    ensures OrdersBand(elements, band, infer(Local(elements, band)), result)
    ensures order' == order + result && nextBand' == NextNumber(band, nextBand)
    ensures BandTraced(elements, infer, group, band, nextBand, result, trace, trace') && TraceGrows(trace, trace')
  {
    if band == [] {
      EmptyBandIsOrdered(elements, infer(Local(elements, band)));
      return [], order, nextBand, trace;
    }
    result, trace' := OrderBand(elements, band, group, nextBand, infer, trace);
    order', nextBand' := order + result, nextBand + 1;
  }

  lemma WeakBreaksCompose(a: Trace, b: Trace, c: Trace)
    requires TraceGrows(a, b) && TraceGrows(b, c)
    ensures TraceGrows(a, c)
  {
  }

  /** Appends a separator after the band above it. */
  method AppendSeparator(elements: seq<PageElement>, separator: nat, columnCount: nat, group: string, nextBand: nat,
                         trace: Trace, order: seq<nat>) returns (order': seq<nat>, nextBand': nat, trace': Trace)
    requires separator < |elements|
    ensures order' == order + [separator] && TraceGrows(trace, trace')
    ensures Mark(nextBand', trace') == PastSeparator(elements[separator], columnCount, group, nextBand, trace)
  {
    var placement := Placement(elements[separator].block.id, group, nextBand, 0,
                               if columnCount > 0 then columnCount - 1 else 0, "");
    trace' := trace.(placements := trace.placements + [placement]);
    order', nextBand' := order + [separator], nextBand + 1;
  }

  /** Collects and orders band k. */
  method TakeBand(elements: seq<PageElement>, group: string, infer: ColumnInference, separators: seq<nat>,
                  remaining: seq<nat>, consumed: seq<bool>, k: nat, nextBand: nat, trace: Trace, order: seq<nat>)
    returns (result: seq<nat>, consumed': seq<bool>, order': seq<nat>, nextBand': nat, trace': Trace, ghost band: seq<nat>)
    requires DistinctIndices(elements)
    requires Separators(elements, infer(elements), separators) && k <= |separators|
    requires Ascending(remaining)
    requires forall i: nat :: i in remaining <==> i < |elements| && i !in separators
    requires ConsumedUpTo(elements, separators, consumed, k)
    ensures ConsumedUpTo(elements, separators, consumed', k + 1)
    ensures BandMembers(elements, separators, k, band) && BandResult(elements, infer, separators, k, result)
    ensures order' == order + result && nextBand' == NextNumber(band, nextBand)
    ensures BandTraced(elements, infer, group, band, nextBand, result, trace, trace') && TraceGrows(trace, trace')
  {
    var taken;
    taken, consumed' := CollectBand(elements, infer(elements), separators, remaining, consumed, k);
    band := taken;
    result, order', nextBand', trace' := AppendOrderedBand(elements, taken, group, infer, nextBand, trace, order);
  }

  /** Band k, and the separator below it. */
  method TakePart(elements: seq<PageElement>, group: string, infer: ColumnInference, separators: seq<nat>,
                  remaining: seq<nat>, consumed: seq<bool>, k: nat, columnCount: nat, nextBand: nat, trace: Trace,
                  order: seq<nat>)
    returns (result: seq<nat>, consumed': seq<bool>, order': seq<nat>, nextBand': nat, trace': Trace, ghost band: seq<nat>)
    requires DistinctIndices(elements) && columnCount == |infer(elements)|
    requires Separators(elements, infer(elements), separators) && k < |separators|
    requires Ascending(remaining)
    requires forall i: nat :: i in remaining <==> i < |elements| && i !in separators
    requires ConsumedUpTo(elements, separators, consumed, k)
    ensures ConsumedUpTo(elements, separators, consumed', k + 1)
    ensures BandMembers(elements, separators, k, band) && BandResult(elements, infer, separators, k, result)
    ensures order' == order + result + [separators[k]] && TraceGrows(trace, trace')
    ensures PartTraced(elements, infer, group, separators[k], band, result, Mark(nextBand, trace), Mark(nextBand', trace'))
  {
    var number, grown;
    result, consumed', order', number, grown, band :=
      TakeBand(elements, group, infer, separators, remaining, consumed, k, nextBand, trace, order);
    order', nextBand', trace' := AppendSeparator(elements, separators[k], columnCount, group, number, grown, order');
    WeakBreaksCompose(trace, grown, trace');
  }

  /** What has been done when the first k bands and separators have been taken. */
  ghost predicate TakenUpTo(elements: seq<PageElement>, infer: ColumnInference, group: string, separators: seq<nat>,
                            bands: seq<seq<nat>>, results: seq<seq<nat>>, marks: seq<Mark>, k: nat)
  {
    && k <= |separators| && |bands| == |results| == k && |marks| == k + 1
    && BandsListed(elements, separators, bands) && BandResults(elements, infer, separators, results)
    && MarkedUpTo(elements, infer, group, separators, bands, results, marks, marks[0], k)
  }

  /** The order and the trace of the first k parts. */
  ghost predicate Progress(elements: seq<PageElement>, infer: ColumnInference, group: string, separators: seq<nat>,
                           bands: seq<seq<nat>>, results: seq<seq<nat>>, marks: seq<Mark>, k: nat, start: Mark, now: Mark,
                           order: seq<nat>)
  {
    && TakenUpTo(elements, infer, group, separators, bands, results, marks, k)
    && marks[0] == start && marks[k] == now && order == Joined(results, separators, k)
  }

  lemma ProgressOneMore(elements: seq<PageElement>, infer: ColumnInference, group: string, separators: seq<nat>,
                        bands: seq<seq<nat>>, results: seq<seq<nat>>, marks: seq<Mark>, k: nat, start: Mark, now: Mark,
                        order: seq<nat>, band: seq<nat>, result: seq<nat>, next: Mark)
    requires k < |separators|
    requires Progress(elements, infer, group, separators, bands, results, marks, k, start, now, order)
    requires BandMembers(elements, separators, k, band) && BandResult(elements, infer, separators, k, result)
    requires PartTraced(elements, infer, group, separators[k], band, result, now, next)
    ensures Progress(elements, infer, group, separators, bands + [band], results + [result], marks + [next], k + 1, start,
                     next, order + result + [separators[k]])
  {
    ExtendResults(elements, infer, separators, results, result);
    ExtendBands(elements, separators, bands, band);
    MarkedOneMore(elements, infer, group, separators, bands, results, marks, marks[0], k, band, result, next);
    JoinedPrefix(results, result, separators, k);
  }

  /** Every band that has a separator below it, one after the other. */
  method TakeParts(elements: seq<PageElement>, group: string, infer: ColumnInference, separators: seq<nat>,
                   remaining: seq<nat>, columnCount: nat, nextBand: nat, trace: Trace)
    returns (order: seq<nat>, consumed: seq<bool>, nextBand': nat, trace': Trace,
             ghost bands: seq<seq<nat>>, ghost results: seq<seq<nat>>, ghost marks: seq<Mark>)
    requires DistinctIndices(elements) && columnCount == |infer(elements)|
    requires Separators(elements, infer(elements), separators) && Ascending(remaining)
    requires forall i: nat :: i in remaining <==> i < |elements| && i !in separators
    ensures ConsumedUpTo(elements, separators, consumed, |separators|) && TraceGrows(trace, trace')
    ensures Progress(elements, infer, group, separators, bands, results, marks, |separators|, Mark(nextBand, trace),
                     Mark(nextBand', trace'), order)
  {
    order, nextBand', trace' := [], nextBand, trace;
    results, bands, marks := [], [], [Mark(nextBand, trace)];
    consumed := seq(|elements|, _ => false);
    for k := 0 to |separators|
      invariant ConsumedUpTo(elements, separators, consumed, k) && TraceGrows(trace, trace')
      invariant Progress(elements, infer, group, separators, bands, results, marks, k, Mark(nextBand, trace),
                         Mark(nextBand', trace'), order)
    {
      ghost var now, before := Mark(nextBand', trace'), order;
      var result, number, grown;
      ghost var band;
      result, consumed, order, number, grown, band :=
        TakePart(elements, group, infer, separators, remaining, consumed, k, columnCount, nextBand', trace', order);
      WeakBreaksCompose(trace, trace', grown);
      ProgressOneMore(elements, infer, group, separators, bands, results, marks, k, Mark(nextBand, trace), now, before,
                      band, result, Mark(number, grown));
      nextBand', trace' := number, grown;
      results, bands, marks := results + [result], bands + [band], marks + [Mark(number, grown)];
    }
  }

  method PredictGroupOrder(elements: seq<PageElement>, group: string, infer: ColumnInference, nextBand: nat, trace: Trace)
    returns (order: seq<nat>, nextBand': nat, trace': Trace)
    requires DistinctIndices(elements)
    ensures GroupOrdered(elements, infer, order) && IsPermutation(order, |elements|)
    ensures GroupRun(elements, infer, group, Mark(nextBand, trace), order, Mark(nextBand', trace'))
    ensures TraceGrows(trace, trace')
  {
    if elements == [] {
      return [], nextBand, trace;
    }
    var columns := infer(elements);
    var separators, remaining := FindSeparators(elements, columns);
    var consumed, number, grown, result;
    ghost var bands, results, marks, band;
    order, consumed, number, grown, bands, results, marks :=
      TakeParts(elements, group, infer, separators, remaining, |columns|, nextBand, trace);
    ghost var joined := order;
    result, consumed, order, nextBand', trace', band :=
      TakeBand(elements, group, infer, separators, remaining, consumed, |separators|, number, grown, order);
    WeakBreaksCompose(trace, grown, trace');
    ConcludeGroup(elements, infer, group, separators, bands, results, marks, Mark(nextBand, trace), Mark(number, grown),
                  joined, band, result, Mark(nextBand', trace'));
  }

  lemma ExtendBands(elements: seq<PageElement>, separators: seq<nat>, bands: seq<seq<nat>>, last: seq<nat>)
    requires BandsListed(elements, separators, bands) && BandMembers(elements, separators, |bands|, last)
    ensures BandsListed(elements, separators, bands + [last])
  {
    forall k | 0 <= k < |bands| + 1
      ensures BandMembers(elements, separators, k, (bands + [last])[k])
    {
      if k < |bands| {
        assert (bands + [last])[k] == bands[k];
      }
    }
  }

  lemma ExtendResults(elements: seq<PageElement>, infer: ColumnInference, separators: seq<nat>,
                      results: seq<seq<nat>>, last: seq<nat>)
    requires forall i | 0 <= i < |separators| :: separators[i] < |elements|
    requires BandResults(elements, infer, separators, results)
    requires BandResult(elements, infer, separators, |results|, last)
    ensures BandResults(elements, infer, separators, results + [last])
  {
    forall k | 0 <= k < |results| + 1
      ensures BandResult(elements, infer, separators, k, (results + [last])[k])
    {
      if k < |results| {
        assert (results + [last])[k] == results[k];
        assert BandResult(elements, infer, separators, k, results[k]);
      } else {
        assert (results + [last])[k] == last;
      }
    }
  }

  lemma ConcludeOrder(elements: seq<PageElement>, infer: ColumnInference, separators: seq<nat>, results: seq<seq<nat>>,
                      result: seq<nat>, order: seq<nat>)
    requires Separators(elements, infer(elements), separators) && |results| == |separators|
    requires BandResults(elements, infer, separators, results)
    requires BandResult(elements, infer, separators, |separators|, result)
    requires order == Joined(results + [result], separators, |separators|) + result
    ensures GroupLayout(elements, infer, separators, results + [result], order) && IsPermutation(order, |elements|)
  {
    ExtendResults(elements, infer, separators, results, result);
    GroupIsPermuted(elements, infer, separators, results + [result], order);
  }

  lemma ConcludeTrace(elements: seq<PageElement>, infer: ColumnInference, group: string, separators: seq<nat>,
                      bands: seq<seq<nat>>, results: seq<seq<nat>>, marks: seq<Mark>, band: seq<nat>, result: seq<nat>,
                      end: Mark)
    requires |bands| == |results| == |separators| && |marks| == |separators| + 1
    requires MarkedUpTo(elements, infer, group, separators, bands, results, marks, marks[0], |separators|)
    requires var mark := marks[|separators|];
             BandTraced(elements, infer, group, band, mark.number, result, mark.trace, end.trace) &&
             end.number == NextNumber(band, mark.number)
    ensures GroupTraced(elements, infer, group, separators, bands + [band], results + [result], marks[0], end)
  {
    MarkedWithTail(elements, infer, group, separators, bands, results, marks, marks[0], |separators|, band, result);
  }

  /** With the band below the last separator the group is complete. */
  lemma ConcludeGroup(elements: seq<PageElement>, infer: ColumnInference, group: string, separators: seq<nat>,
                      bands: seq<seq<nat>>, results: seq<seq<nat>>, marks: seq<Mark>, start: Mark, now: Mark,
                      joined: seq<nat>, band: seq<nat>, result: seq<nat>, end: Mark)
    requires elements != [] && Separators(elements, infer(elements), separators)
    requires Progress(elements, infer, group, separators, bands, results, marks, |separators|, start, now, joined)
    requires BandMembers(elements, separators, |separators|, band)
    requires BandResult(elements, infer, separators, |separators|, result)
    requires BandTraced(elements, infer, group, band, now.number, result, now.trace, end.trace)
    requires end.number == NextNumber(band, now.number)
    ensures GroupOrdered(elements, infer, joined + result) && IsPermutation(joined + result, |elements|)
    ensures GroupRun(elements, infer, group, start, joined + result, end)
  {
    JoinedPrefix(results, result, separators, |separators|);
    ConcludeOrder(elements, infer, separators, results, result, joined + result);
    ConcludeTrace(elements, infer, group, separators, bands, results, marks, band, result, end);
    ExtendBands(elements, separators, bands, band);
    LaidOutIsRun(elements, infer, group, separators, bands + [band], results + [result], start, joined + result, end);
  }

  lemma LaidOutIsRun(elements: seq<PageElement>, infer: ColumnInference, group: string, separators: seq<nat>,
                     bands: seq<seq<nat>>, results: seq<seq<nat>>, start: Mark, order: seq<nat>, end: Mark)
    requires elements != [] && GroupLayout(elements, infer, separators, results, order)
    requires BandsListed(elements, separators, bands)
    requires GroupTraced(elements, infer, group, separators, bands, results, start, end)
    ensures GroupOrdered(elements, infer, order) && GroupRun(elements, infer, group, start, order, end)
  {
    assert GroupLaidOut(elements, infer, group, separators, bands, results, start, order, end);
  }

  lemma {:induction false} JoinedPrefix(results: seq<seq<nat>>, more: seq<nat>, separators: seq<nat>, k: nat)
    requires k <= |separators| && k <= |results|
    ensures Joined(results + [more], separators, k) == Joined(results, separators, k)
  {
    if k > 0 {
      JoinedPrefix(results, more, separators, k - 1);
    }
  }
}
