/**
  How full-width separators divide a group of elements (headers, body or footers) into
  bands, and what an order made of ordered bands and separators satisfies.
 */
module BandDivision {
  import opened LayoutModel
  import opened ReadingOrderModel
  import opened Sequences
  import opened Sorting
  import opened BandGraph
  import opened BandOrder

  /** Page position: top edge, left edge, block index. */
  predicate PositionLess(elements: seq<PageElement>, lhs: nat, rhs: nat)
    requires lhs < |elements| && rhs < |elements|
  {
    var left, right := elements[lhs], elements[rhs];
    if left.bbox.y0 != right.bbox.y0 then left.bbox.y0 < right.bbox.y0
    else if left.bbox.x0 != right.bbox.x0 then left.bbox.x0 < right.bbox.x0
    else left.layoutBlockIndex < right.layoutBlockIndex
  }

  ghost predicate PositionSorted(elements: seq<PageElement>, s: seq<nat>) {
    && (forall i | 0 <= i < |s| :: s[i] < |elements|)
    && forall i, j | 0 <= i < j < |s| :: PositionLess(elements, s[i], s[j])
  }

  method SortByPosition(elements: seq<PageElement>, s: seq<nat>) returns (sorted: seq<nat>)
    requires DistinctIndices(elements) && Distinct(s) && forall i | 0 <= i < |s| :: s[i] < |elements|
    ensures PositionSorted(elements, sorted) && Distinct(sorted)
    ensures |sorted| == |s| && forall i :: i in sorted <==> i in s
  {
    var less := (a: nat, b: nat) => a < |elements| && b < |elements| && PositionLess(elements, a, b);
    sorted := StableSort(s, less);
    SortMembers(s, less);
    SortSorted(s, less);
    assert forall i | 0 <= i < |sorted| :: sorted[i] in s;
    forall i, j | 0 <= i < j < |sorted|
      ensures PositionLess(elements, sorted[i], sorted[j])
    {
      assert sorted[i] in s && sorted[j] in s;
      assert !less(sorted[j], sorted[i]) && sorted[i] != sorted[j];
    }
  }

  predicate WideEnough(b: BBox, columns: seq<Column>, r: ColumnRange)
    requires |columns| >= 2
  {
    r.first == 0 && r.last == |columns| - 1 &&
    Width(b) >= (columns[|columns| - 1].x1 - columns[0].x0) * 0.55
  }

  /** The block covers every column of the group and most of its width. */
  ghost predicate Separator(b: BBox, columns: seq<Column>) {
    |columns| >= 2 && exists r :: Located(b, columns, r) && WideEnough(b, columns, r)
  }

  method SpansAllColumns(b: BBox, columns: seq<Column>) returns (spans: bool)
    ensures spans <==> Separator(b, columns)
  {
    if |columns| < 2 {
      return false;
    }
    var range := LocateColumns(b, columns);
    spans := WideEnough(b, columns, range);
    forall r | Located(b, columns, r)
      ensures r == range
    {
      LocatedIsUnique(b, columns, r, range);
    }
  }

  ghost predicate Ascending(s: seq<nat>) {
    forall i, j | 0 <= i < j < |s| :: s[i] < s[j]
  }

  /** The first separator whose centre lies below that of b; the number of separators when there is none. */
  ghost function BandOf(elements: seq<PageElement>, separators: seq<nat>, b: nat): (k: nat)
    requires b < |elements| && forall i | 0 <= i < |separators| :: separators[i] < |elements|
    ensures k <= |separators|
  {
    if separators == [] then 0
    else
      var front := separators[..|separators| - 1];
      var k := BandOf(elements, front, b);
      if k < |front| || Above(elements, b, separators[|front|]) then k else |separators|
  }

  lemma {:induction false} BandOfIsFirstBelow(elements: seq<PageElement>, separators: seq<nat>, b: nat)
    requires b < |elements| && forall i | 0 <= i < |separators| :: separators[i] < |elements|
    ensures var k := BandOf(elements, separators, b);
      && (k < |separators| ==> Above(elements, b, separators[k]))
      && forall i | 0 <= i < k :: !Above(elements, b, separators[i])
  {
    if separators != [] {
      BandOfIsFirstBelow(elements, separators[..|separators| - 1], b);
    }
  }

  ghost predicate InBand(elements: seq<PageElement>, separators: seq<nat>, k: nat, b: nat)
    requires forall i | 0 <= i < |separators| :: separators[i] < |elements|
  {
    b < |elements| && b !in separators && BandOf(elements, separators, b) == k
  }

  ghost predicate Separators(elements: seq<PageElement>, columns: seq<Column>, separators: seq<nat>) {
    && PositionSorted(elements, separators) && Distinct(separators)
    && forall i: nat :: i in separators <==> i < |elements| && Separator(elements[i].bbox, columns)
  }

  /** Band k holds, in index order, the other elements whose first separator below is the k-th. */
  ghost predicate BandMembers(elements: seq<PageElement>, separators: seq<nat>, k: nat, band: seq<nat>)
    requires forall i | 0 <= i < |separators| :: separators[i] < |elements|
  {
    && Ascending(band)
    && forall b: nat :: b in band <==> InBand(elements, separators, k, b)
  }

  /** The first k bands, each followed by its separator. */
  ghost function Joined(results: seq<seq<nat>>, separators: seq<nat>, k: nat): seq<nat>
    requires k <= |separators| && k <= |results|
  {
    if k == 0 then [] else Joined(results, separators, k - 1) + results[k - 1] + [separators[k - 1]]
  }

  ghost predicate BandResult(elements: seq<PageElement>, infer: ColumnInference, separators: seq<nat>, k: nat,
                             result: seq<nat>)
    requires forall i | 0 <= i < |separators| :: separators[i] < |elements|
  {
    exists band ::
      && BandMembers(elements, separators, k, band)
      && (forall i | 0 <= i < |band| :: band[i] < |elements|)
      && OrdersBand(elements, band, infer(Local(elements, band)), result)
  }

  ghost predicate BandResults(elements: seq<PageElement>, infer: ColumnInference, separators: seq<nat>,
                              results: seq<seq<nat>>)
    requires forall i | 0 <= i < |separators| :: separators[i] < |elements|
  {
    forall k | 0 <= k < |results| :: BandResult(elements, infer, separators, k, results[k])
  }

  ghost predicate GroupLayout(elements: seq<PageElement>, infer: ColumnInference, separators: seq<nat>,
                              results: seq<seq<nat>>, order: seq<nat>)
  {
    && Separators(elements, infer(elements), separators)
    && |results| == |separators| + 1
    && BandResults(elements, infer, separators, results)
    && order == Joined(results, separators, |separators|) + results[|separators|]
  }

  ghost predicate GroupOrdered(elements: seq<PageElement>, infer: ColumnInference, order: seq<nat>) {
    if elements == [] then order == []
    else exists separators, results :: GroupLayout(elements, infer, separators, results, order)
  }

  lemma RearrangedMembers(band: seq<nat>, order: seq<nat>, result: seq<nat>)
    requires IsPermutation(order, |band|) && |result| == |order| && Distinct(band)
    requires forall i | 0 <= i < |order| :: result[i] == band[order[i]]
    ensures Distinct(result) && forall b :: b in result <==> b in band
  {
    PermutationCovers(order, |band|);
    forall b | b in band
      ensures b in result
    {
      var i :| 0 <= i < |band| && band[i] == b;
      assert i in order;
      var p :| 0 <= p < |order| && order[p] == i;
      assert result[p] == b;
    }
  }

  ghost predicate BandContents(elements: seq<PageElement>, separators: seq<nat>, k: nat, result: seq<nat>)
    requires forall i | 0 <= i < |separators| :: separators[i] < |elements|
  {
    Distinct(result) && forall b: nat :: b in result <==> InBand(elements, separators, k, b)
  }

  lemma BandResultMembers(elements: seq<PageElement>, infer: ColumnInference, separators: seq<nat>, k: nat,
                          result: seq<nat>)
    requires forall i | 0 <= i < |separators| :: separators[i] < |elements|
    requires BandResult(elements, infer, separators, k, result)
    ensures BandContents(elements, separators, k, result)
  {
    var band :|
      && BandMembers(elements, separators, k, band)
      && (forall i | 0 <= i < |band| :: band[i] < |elements|)
      && OrdersBand(elements, band, infer(Local(elements, band)), result);
    OrdersBandMembers(elements, band, infer(Local(elements, band)), result);
  }

  lemma OrdersBandMembers(elements: seq<PageElement>, band: seq<nat>, columns: seq<Column>, result: seq<nat>)
    requires forall i | 0 <= i < |band| :: band[i] < |elements|
    requires Distinct(band) && OrdersBand(elements, band, columns, result)
    ensures Distinct(result) && forall b :: b in result <==> b in band
  {
    var ranges, order :|
      && BandRanges(Local(elements, band), columns, ranges)
      && IsPermutation(order, |band|)
      && BandOrdered(Local(elements, band), ranges, order)
      && |result| == |order|
      && forall i | 0 <= i < |order| :: result[i] == band[order[i]];
    RearrangedMembers(band, order, result);
  }

  /** What the first k bands and separators contain. */
  ghost predicate JoinedMembers(elements: seq<PageElement>, separators: seq<nat>, k: nat, joined: seq<nat>)
    requires k <= |separators| && forall i | 0 <= i < |separators| :: separators[i] < |elements|
  {
    && Distinct(joined)
    && forall b: nat :: b in joined <==>
         b in separators[..k] || (b < |elements| && b !in separators && BandOf(elements, separators, b) < k)
  }

  ghost predicate InSequence(joined: seq<nat>, separators: seq<nat>, k: nat)
    requires k <= |separators|
  {
    forall i, j | 0 <= i < j < k :: Precedes(joined, separators[i], separators[j])
  }

  ghost predicate Divides(elements: seq<PageElement>, separators: seq<nat>, joined: seq<nat>, i: nat, b: nat)
    requires i < |separators| && b < |elements| && forall i | 0 <= i < |separators| :: separators[i] < |elements|
  {
    if BandOf(elements, separators, b) <= i then Precedes(joined, b, separators[i])
    else Precedes(joined, separators[i], b)
  }

  ghost predicate Divided(elements: seq<PageElement>, separators: seq<nat>, k: nat, joined: seq<nat>)
    requires k <= |separators| && forall i | 0 <= i < |separators| :: separators[i] < |elements|
  {
    forall b: nat, i: nat | b < |elements| && b !in separators && i < k :: Divides(elements, separators, joined, i, b)
  }

  lemma PrecedesInExtension(s: seq<nat>, t: seq<nat>, a: nat, b: nat)
    requires Precedes(s, a, b) && a !in t
    ensures Precedes(s + t, a, b)
  {
  }

  lemma PrecedesAcross(s: seq<nat>, t: seq<nat>, a: nat, b: nat)
    requires a !in t && b !in s
    ensures Precedes(s + t, a, b)
  {
  }

  lemma {:induction false} JoinedIsInOrder(elements: seq<PageElement>, separators: seq<nat>, results: seq<seq<nat>>, k: nat)
    requires forall i | 0 <= i < |separators| :: separators[i] < |elements|
    requires Distinct(separators) && k <= |separators| && k <= |results|
    requires forall i | 0 <= i < k :: BandContents(elements, separators, i, results[i])
    ensures JoinedMembers(elements, separators, k, Joined(results, separators, k))
    ensures InSequence(Joined(results, separators, k), separators, k)
    ensures Divided(elements, separators, k, Joined(results, separators, k))
  {
    if k > 0 {
      var before, tail := Joined(results, separators, k - 1), results[k - 1] + [separators[k - 1]];
      JoinedIsInOrder(elements, separators, results, k - 1);
      TailMembers(elements, separators, k - 1, results[k - 1]);
      AppendTail(elements, separators, k - 1, before, tail);
      assert Joined(results, separators, k) == before + tail;
    }
  }

  lemma AppendTail(elements: seq<PageElement>, separators: seq<nat>, k: nat, before: seq<nat>, tail: seq<nat>)
    requires k < |separators| && forall i | 0 <= i < |separators| :: separators[i] < |elements|
    requires Distinct(separators) && IsTail(elements, separators, k, tail)
    requires JoinedMembers(elements, separators, k, before)
    requires InSequence(before, separators, k) && Divided(elements, separators, k, before)
    ensures JoinedMembers(elements, separators, k + 1, before + tail)
    ensures InSequence(before + tail, separators, k + 1) && Divided(elements, separators, k + 1, before + tail)
  {
    AppendMembers(elements, separators, k, before, tail);
    AppendInSequence(elements, separators, k, before, tail);
    AppendDivided(elements, separators, k, before, tail);
  }

  /** A band together with the separator that closes it. */
  ghost predicate IsTail(elements: seq<PageElement>, separators: seq<nat>, k: nat, tail: seq<nat>)
    requires k < |separators| && forall i | 0 <= i < |separators| :: separators[i] < |elements|
  {
    && Distinct(tail)
    && (forall b: nat :: b in tail <==> b == separators[k] || InBand(elements, separators, k, b))
    && tail != [] && tail[|tail| - 1] == separators[k]
  }

  lemma TailMembers(elements: seq<PageElement>, separators: seq<nat>, k: nat, band: seq<nat>)
    requires k < |separators| && forall i | 0 <= i < |separators| :: separators[i] < |elements|
    requires BandContents(elements, separators, k, band)
    ensures IsTail(elements, separators, k, band + [separators[k]])
  {
    assert separators[k] in separators && !InBand(elements, separators, k, separators[k]);
  }

  lemma AppendMembers(elements: seq<PageElement>, separators: seq<nat>, k: nat, before: seq<nat>, tail: seq<nat>)
    requires k < |separators| && forall i | 0 <= i < |separators| :: separators[i] < |elements|
    requires Distinct(separators)
    requires JoinedMembers(elements, separators, k, before) && IsTail(elements, separators, k, tail)
    ensures JoinedMembers(elements, separators, k + 1, before + tail)
    ensures forall b :: !(b in before && b in tail)
  {
    assert separators[..k + 1] == separators[..k] + [separators[k]];
    assert separators[k] !in separators[..k];
    forall b | b in tail
      ensures b !in before
    {
      assert b == separators[k] || InBand(elements, separators, k, b);
    }
    forall b: nat
      ensures b in before + tail <==>
        (b in separators[..k + 1] || (b < |elements| && b !in separators && BandOf(elements, separators, b) < k + 1))
    {
      assert b in before + tail <==> b in before || b in tail;
    }
    DistinctConcat(before, tail);
  }

  lemma AppendInSequence(elements: seq<PageElement>, separators: seq<nat>, k: nat, before: seq<nat>, tail: seq<nat>)
    requires k < |separators| && forall i | 0 <= i < |separators| :: separators[i] < |elements|
    requires Distinct(separators)
    requires JoinedMembers(elements, separators, k, before) && IsTail(elements, separators, k, tail)
    requires InSequence(before, separators, k)
    ensures InSequence(before + tail, separators, k + 1)
  {
    AppendMembers(elements, separators, k, before, tail);
    forall i, j | 0 <= i < j < k + 1
      ensures Precedes(before + tail, separators[i], separators[j])
    {
      assert separators[i] in separators[..k];
      if j < k {
        PrecedesInExtension(before, tail, separators[i], separators[j]);
      } else {
        assert separators[k] in tail;
        PrecedesAcross(before, tail, separators[i], separators[k]);
      }
    }
  }

  lemma LastComesLast(before: seq<nat>, tail: seq<nat>, b: nat)
    requires tail != [] && Distinct(before + tail) && b != tail[|tail| - 1]
    ensures Precedes(before + tail, b, tail[|tail| - 1])
  {
    var joined := before + tail;
    assert joined[|joined| - 1] == tail[|tail| - 1];
  }

  lemma AppendDivided(elements: seq<PageElement>, separators: seq<nat>, k: nat, before: seq<nat>, tail: seq<nat>)
    requires k < |separators| && forall i | 0 <= i < |separators| :: separators[i] < |elements|
    requires Distinct(separators)
    requires JoinedMembers(elements, separators, k, before) && IsTail(elements, separators, k, tail)
    requires Divided(elements, separators, k, before)
    ensures Divided(elements, separators, k + 1, before + tail)
  {
    AppendMembers(elements, separators, k, before, tail);
    forall b: nat, i: nat | b < |elements| && b !in separators && i < k + 1
      ensures Divides(elements, separators, before + tail, i, b)
    {
      var n := BandOf(elements, separators, b);
      if i < k {
        assert separators[i] in separators[..k];
        assert Divides(elements, separators, before, i, b);
        if n <= i {
          assert b in before;
          PrecedesInExtension(before, tail, b, separators[i]);
        } else {
          PrecedesInExtension(before, tail, separators[i], b);
        }
      } else if n <= k {
        LastComesLast(before, tail, b);
      } else {
        assert b !in before && !InBand(elements, separators, k, b) && b != separators[k];
        assert b !in before + tail;
      }
    }
  }

  lemma GroupContents(elements: seq<PageElement>, infer: ColumnInference, separators: seq<nat>,
                      results: seq<seq<nat>>, order: seq<nat>)
    requires GroupLayout(elements, infer, separators, results, order)
    ensures forall k | 0 <= k < |results| :: BandContents(elements, separators, k, results[k])
  {
    forall k | 0 <= k < |results|
      ensures BandContents(elements, separators, k, results[k])
    {
      BandResultMembers(elements, infer, separators, k, results[k]);
    }
  }

  /** A group's order contains each of its elements exactly once. */
  lemma GroupIsPermuted(elements: seq<PageElement>, infer: ColumnInference, separators: seq<nat>,
                        results: seq<seq<nat>>, order: seq<nat>)
    requires GroupLayout(elements, infer, separators, results, order)
    ensures IsPermutation(order, |elements|)
  {
    GroupContents(elements, infer, separators, results, order);
    ContentsArePermuted(elements, separators, results);
  }

  /** Lists that hold the bands, joined by the separators, hold the group. */
  lemma ContentsArePermuted(elements: seq<PageElement>, separators: seq<nat>, lists: seq<seq<nat>>)
    requires forall i | 0 <= i < |separators| :: separators[i] < |elements|
    requires Distinct(separators) && |lists| == |separators| + 1
    requires forall k | 0 <= k < |lists| :: BandContents(elements, separators, k, lists[k])
    ensures IsPermutation(Joined(lists, separators, |separators|) + lists[|separators|], |elements|)
  {
    var k := |separators|;
    var joined := Joined(lists, separators, k);
    var order := joined + lists[k];
    JoinedIsInOrder(elements, separators, lists, k);
    assert separators[..k] == separators;
    GroupMembers(elements, separators, joined, lists[k]);
    MembersMakePermutation(order, |elements|);
  }

  lemma GroupMembers(elements: seq<PageElement>, separators: seq<nat>, joined: seq<nat>, tail: seq<nat>)
    requires forall i | 0 <= i < |separators| :: separators[i] < |elements|
    requires JoinedMembers(elements, separators, |separators|, joined)
    requires BandContents(elements, separators, |separators|, tail)
    ensures Distinct(joined + tail)
    ensures forall b: nat :: b in joined + tail <==> b < |elements|
  {
    assert separators[..|separators|] == separators;
    forall b | b in tail
      ensures b !in joined
    {
      assert InBand(elements, separators, |separators|, b);
    }
    forall b: nat
      ensures b in joined + tail <==> b < |elements|
    {
      assert b in joined + tail <==> b in joined || b in tail;
      assert b in separators ==> b < |elements|;
    }
    DistinctConcat(joined, tail);
  }

  ghost predicate OnOrBefore(elements: seq<PageElement>, t: nat, s: nat)
    requires t < |elements| && s < |elements|
  {
    t == s || PositionLess(elements, t, s)
  }

  /**
    Another element comes before a separator exactly when its centre lies above that
    separator or an earlier one; separators keep their page order.
   */
  lemma SeparatorsDivideGroup(elements: seq<PageElement>, infer: ColumnInference, order: seq<nat>, s: nat, b: nat)
    requires elements != [] && GroupOrdered(elements, infer, order)
    requires s < |elements| && b < |elements| && s != b
    requires Separator(elements[s].bbox, infer(elements))
    ensures Separator(elements[b].bbox, infer(elements)) ==>
            (PositionLess(elements, b, s) ==> Precedes(order, b, s))
    ensures !Separator(elements[b].bbox, infer(elements)) ==>
            if exists t: nat :: t < |elements| && Separator(elements[t].bbox, infer(elements)) &&
                                OnOrBefore(elements, t, s) && Above(elements, b, t)
            then Precedes(order, b, s) else Precedes(order, s, b)
  {
    var separators, results :| GroupLayout(elements, infer, separators, results, order);
    GroupDivided(elements, infer, separators, results, order);
    DividedBySeparator(elements, infer(elements), separators, order, s, b);
  }

  lemma DividedBySeparator(elements: seq<PageElement>, columns: seq<Column>, separators: seq<nat>, order: seq<nat>,
                           s: nat, b: nat)
    requires Separators(elements, columns, separators)
    requires InSequence(order, separators, |separators|) && Divided(elements, separators, |separators|, order)
    requires s < |elements| && b < |elements| && s != b && Separator(elements[s].bbox, columns)
    ensures Separator(elements[b].bbox, columns) ==> (PositionLess(elements, b, s) ==> Precedes(order, b, s))
    ensures !Separator(elements[b].bbox, columns) ==>
            if exists t: nat :: t < |elements| && Separator(elements[t].bbox, columns) &&
                                OnOrBefore(elements, t, s) && Above(elements, b, t)
            then Precedes(order, b, s) else Precedes(order, s, b)
  {
    assert s in separators;
    var j :| 0 <= j < |separators| && separators[j] == s;
    if Separator(elements[b].bbox, columns) {
      assert b in separators;
      var i :| 0 <= i < |separators| && separators[i] == b;
      assert PositionLess(elements, b, s) ==> i < j;
    } else {
      assert b !in separators && Divides(elements, separators, order, j, b);
      FirstSeparatorBelow(elements, columns, separators, j, b);
    }
  }

  /** The band number of b compares with position j exactly as the guard on earlier separators says. */
  lemma FirstSeparatorBelow(elements: seq<PageElement>, columns: seq<Column>, separators: seq<nat>, j: nat, b: nat)
    requires Separators(elements, columns, separators) && j < |separators| && b < |elements|
    ensures BandOf(elements, separators, b) <= j <==>
            exists t: nat :: t < |elements| && Separator(elements[t].bbox, columns) &&
                             OnOrBefore(elements, t, separators[j]) && Above(elements, b, t)
  {
    BandOfIsFirstBelow(elements, separators, b);
    var n := BandOf(elements, separators, b);
    if n <= j {
      var t := separators[n];
      assert t in separators;
      assert OnOrBefore(elements, t, separators[j]) && Above(elements, b, t);
    }
    if t: nat :| t < |elements| && Separator(elements[t].bbox, columns) &&
                 OnOrBefore(elements, t, separators[j]) && Above(elements, b, t) {
      assert t in separators;
      var i :| 0 <= i < |separators| && separators[i] == t;
      assert i <= j;
    }
  }

  lemma GroupDivided(elements: seq<PageElement>, infer: ColumnInference, separators: seq<nat>,
                     results: seq<seq<nat>>, order: seq<nat>)
    requires GroupLayout(elements, infer, separators, results, order)
    ensures InSequence(order, separators, |separators|)
    ensures Divided(elements, separators, |separators|, order)
  {
    var k := |separators|;
    var joined := Joined(results, separators, k);
    GroupContents(elements, infer, separators, results, order);
    JoinedIsInOrder(elements, separators, results, k);
    forall i, j | 0 <= i < j < k
      ensures Precedes(order, separators[i], separators[j])
    {
      assert separators[i] in separators;
      PrecedesInExtension(joined, results[k], separators[i], separators[j]);
    }
    forall b: nat, i: nat | b < |elements| && b !in separators && i < k
      ensures Divides(elements, separators, order, i, b)
    {
      assert separators[i] in separators;
      assert Divides(elements, separators, joined, i, b);
      if BandOf(elements, separators, b) <= i {
        assert b !in results[k];
        PrecedesInExtension(joined, results[k], b, separators[i]);
      } else {
        PrecedesInExtension(joined, results[k], separators[i], b);
      }
    }
  }
}
