/** When groups are small, neighbours and aligned in a grid: the source's thresholds and its counting of clusters. */
module GridGeometry {
  import opened Sorting
  import opened LayoutModel
  import opened PageGeometry
  import opened LineGroups

  datatype GridRules = GridRules(
    compact: Group -> bool,
    neighbours: (Group, Group) -> bool,
    inside: (Group, BBox) -> bool,
    rowTolerance: real,
    columnTolerance: real)

  // ---- the source's thresholds ----

  predicate Compact(g: Group, size: PageSize, medianHeight: real) {
    && g.bbox.x1 - g.bbox.x0 <= AtLeastOne(size.width) * 0.45
    && g.bbox.y1 - g.bbox.y0 <= Max(medianHeight * 3.25, AtLeastOne(size.height) * 0.06)
  }

  function RowReach(size: PageSize, medianHeight: real): real { Max(medianHeight * 1.5, AtLeastOne(size.height) * 0.012) }

  function ColumnReach(size: PageSize, medianHeight: real): real { Max(medianHeight * 2.5, AtLeastOne(size.width) * 0.025) }

  /** In one row and not too far apart, or in one column and not too far apart. */
  predicate Neighbours(a: Group, b: Group, size: PageSize, medianHeight: real) {
    || (Abs(CenterY(a.bbox) - CenterY(b.bbox)) <= RowReach(size, medianHeight) &&
        IntervalGap(a.bbox.x0, a.bbox.x1, b.bbox.x0, b.bbox.x1) <= AtLeastOne(size.width) * 0.35)
    || (Abs(a.bbox.x0 - b.bbox.x0) <= ColumnReach(size, medianHeight) &&
        IntervalGap(a.bbox.y0, a.bbox.y1, b.bbox.y0, b.bbox.y1) <= Max(medianHeight * 8.0, AtLeastOne(size.height) * 0.18))
  }

  predicate Inside(g: Group, box: BBox, medianHeight: real) {
    && g.bbox.y1 - g.bbox.y0 <= medianHeight * 6.0
    && box.x0 - medianHeight * 2.0 <= CenterX(g.bbox) <= box.x1 + medianHeight * 2.0
    && box.y0 - medianHeight * 2.0 <= CenterY(g.bbox) <= box.y1 + medianHeight * 2.0
  }

  function PageGridRules(size: PageSize, medianHeight: real): GridRules {
    GridRules((g: Group) => Compact(g, size, medianHeight),
              (a: Group, b: Group) => Neighbours(a, b, size, medianHeight),
              (g: Group, box: BBox) => Inside(g, box, medianHeight),
              RowReach(size, medianHeight), ColumnReach(size, medianHeight))
  }

  predicate Proper(g: Group) { g.bbox.x0 <= g.bbox.x1 && g.bbox.y0 <= g.bbox.y1 }

  ghost predicate AllProper(groups: seq<Group>) { forall i | 0 <= i < |groups| :: Proper(groups[i]) }

  /** Neighbourhood goes both ways between groups with proper boxes. */
  ghost predicate Symmetric(rules: GridRules) {
    forall a, b | Proper(a) && Proper(b) && rules.neighbours(a, b) :: rules.neighbours(b, a)
  }

  lemma PageGridRulesAreSymmetric(size: PageSize, medianHeight: real)
    ensures Symmetric(PageGridRules(size, medianHeight))
  {
    forall a: Group, b: Group | Proper(a) && Proper(b) && Neighbours(a, b, size, medianHeight)
      ensures Neighbours(b, a, size, medianHeight)
    {
    }
  }

  // ---- alignment ----

  ghost predicate InRange(indices: seq<nat>, n: nat) { forall i | 0 <= i < |indices| :: indices[i] < n }

  function Values(groups: seq<Group>, indices: seq<nat>, coordinate: Group -> real): seq<real>
    requires InRange(indices, |groups|)
  {
    Map(indices, CoordinateAt(groups, coordinate))
  }

  function CoordinateAt(groups: seq<Group>, coordinate: Group -> real): nat -> real {
    (i: nat) => if i < |groups| then coordinate(groups[i]) else 0.0
  }

  /** Where the cluster ends that has reached `end` with the given mean. */
  function ClusterEnd(values: seq<real>, begin: nat, end: nat, mean: real, tolerance: real): (r: nat)
    requires begin < end <= |values|
    ensures end <= r <= |values|
    decreases |values| - end
  {
    if end < |values| && Abs(values[end] - mean) <= tolerance then
      ClusterEnd(values, begin, end + 1, WithNext(mean, end - begin, values[end]), tolerance)
    else end
  }

  /** The mean of one value more. */
  function WithNext(mean: real, count: nat, value: real): real { (mean * count as real + value) / (count + 1) as real }

  ghost function SumOf(values: seq<real>, begin: nat, end: nat): real
    requires begin <= end <= |values|
  {
    if begin == end then 0.0 else SumOf(values, begin, end - 1) + values[end - 1]
  }

  /** The value lies within the tolerance of the mean of those from `begin` to it. */
  ghost predicate NearMean(values: seq<real>, begin: nat, i: nat, tolerance: real)
    requires begin < i < |values|
  {
    var mean := SumOf(values, begin, i) / (i - begin) as real;
    mean - tolerance <= values[i] <= mean + tolerance
  }

  lemma MeanOfOneMore(sum: real, mean: real, count: nat, value: real)
    requires count > 0 && mean == sum / count as real
    ensures WithNext(mean, count, value) == (sum + value) / (count + 1) as real
  {
    assert mean * count as real == sum;
  }

  /** A cluster goes on exactly as long as each value is near the mean of the cluster so far. */
  lemma {:induction false} ClusterStaysNearMean(values: seq<real>, begin: nat, end: nat, mean: real, tolerance: real)
    requires begin < end <= |values| && mean == SumOf(values, begin, end) / (end - begin) as real
    ensures var r := ClusterEnd(values, begin, end, mean, tolerance);
      && (forall i | end <= i < r :: NearMean(values, begin, i, tolerance))
      && (r < |values| ==> !NearMean(values, begin, r, tolerance))
    decreases |values| - end
  {
    if end < |values| && Abs(values[end] - mean) <= tolerance {
      MeanOfOneMore(SumOf(values, begin, end), mean, end - begin, values[end]);
      ClusterStaysNearMean(values, begin, end + 1, WithNext(mean, end - begin, values[end]), tolerance);
    }
  }

  /** So a cluster holds its first value and every further one near the mean of those before it. */
  lemma ClusterIsNearItsMean(values: seq<real>, begin: nat, tolerance: real)
    requires begin < |values|
    ensures var r := ClusterEnd(values, begin, begin + 1, values[begin], tolerance);
      && (forall i | begin < i < r :: NearMean(values, begin, i, tolerance))
      && (r < |values| ==> !NearMean(values, begin, r, tolerance))
  {
    assert SumOf(values, begin, begin + 1) == SumOf(values, begin, begin) + values[begin];
    ClusterStaysNearMean(values, begin, begin + 1, values[begin], tolerance);
  }

  /** The clusters of at least two values from one position on. */
  function Clusters(values: seq<real>, begin: nat, tolerance: real): nat
    requires begin <= |values|
    decreases |values| - begin
  {
    if begin == |values| then 0
    else
      var end := ClusterEnd(values, begin, begin + 1, values[begin], tolerance);
      (if end - begin >= 2 then 1 else 0) + Clusters(values, end, tolerance)
  }

  function ClusterCount(groups: seq<Group>, indices: seq<nat>, coordinate: Group -> real, tolerance: real): nat
    requires InRange(indices, |groups|)
  {
    Clusters(Ascending(Values(groups, indices, coordinate)), 0, tolerance)
  }

  method AlignedClusterCount(groups: seq<Group>, indices: seq<nat>, coordinate: Group -> real, tolerance: real)
    returns (count: nat)
    requires InRange(indices, |groups|)
    ensures count == ClusterCount(groups, indices, coordinate, tolerance)
  {
    var values := Ascending(Values(groups, indices, coordinate));
    count := 0;
    var begin := 0;
    while begin < |values|
      invariant begin <= |values| && count + Clusters(values, begin, tolerance) == Clusters(values, 0, tolerance)
    {
      var mean, end := values[begin], begin + 1;
      while end < |values| && Abs(values[end] - mean) <= tolerance
        invariant begin < end <= |values|
        invariant ClusterEnd(values, begin, end, mean, tolerance) ==
                  ClusterEnd(values, begin, begin + 1, values[begin], tolerance)
      {
        mean, end := WithNext(mean, end - begin, values[end]), end + 1;
      }
      count := count + if end - begin >= 2 then 1 else 0;
      begin := end;
    }
  }

  function MiddleY(g: Group): real { CenterY(g.bbox) }

  function Left(g: Group): real { g.bbox.x0 }

  /** At least two rows and two columns hold two groups or more. */
  predicate Aligned(groups: seq<Group>, indices: seq<nat>, rules: GridRules)
    requires InRange(indices, |groups|)
  {
    && ClusterCount(groups, indices, MiddleY, rules.rowTolerance) >= 2
    && ClusterCount(groups, indices, Left, rules.columnTolerance) >= 2
  }

  /** Sorting numbers leaves no choice. */
  lemma {:induction false} AscendingIsUnique(a: seq<real>, b: seq<real>)
    requires multiset(a) == multiset(b)
    requires SortedBy(a, (x: real, y: real) => x < y) && SortedBy(b, (x: real, y: real) => x < y)
    ensures a == b
    decreases |a|
  {
    SameMultisetSameMembers(a, b);
    if a != [] {
      SameLeast(a, b);
      SameWithoutOne(a, 0, b, 0);
      AscendingIsUnique(Without(a, 0), Without(b, 0));
      assert a == [a[0]] + Without(a, 0) && b == [b[0]] + Without(b, 0);
    }
  }

  lemma SameLeast(a: seq<real>, b: seq<real>)
    requires a != [] && b != [] && multiset(a) == multiset(b)
    requires SortedBy(a, (x: real, y: real) => x < y) && SortedBy(b, (x: real, y: real) => x < y)
    ensures a[0] == b[0]
  {
    var x, y := a[0], b[0];
    assert x in multiset(a) && y in multiset(b);
    assert x in b && y in a;
    var i, j :| 0 <= i < |b| && b[i] == x && 0 <= j < |a| && a[j] == y;
  }

  lemma SameValuesSameAscending(a: seq<real>, b: seq<real>)
    requires multiset(a) == multiset(b)
    ensures Ascending(a) == Ascending(b)
  {
    var less := (x: real, y: real) => x < y;
    SortMultiset(a, less);
    SortMultiset(b, less);
    SortSorted(a, less);
    SortSorted(b, less);
    AscendingIsUnique(Ascending(a), Ascending(b));
  }

  /** Alignment does not depend on the order in which the groups are listed. */
  lemma AlignedInAnyOrder(groups: seq<Group>, a: seq<nat>, b: seq<nat>, rules: GridRules)
    requires InRange(a, |groups|) && InRange(b, |groups|) && multiset(a) == multiset(b)
    ensures Aligned(groups, a, rules) <==> Aligned(groups, b, rules)
  {
    SameMultisetSameImages(a, b, CoordinateAt(groups, MiddleY));
    SameMultisetSameImages(a, b, CoordinateAt(groups, Left));
    SameValuesSameAscending(Values(groups, a, MiddleY), Values(groups, b, MiddleY));
    SameValuesSameAscending(Values(groups, a, Left), Values(groups, b, Left));
  }
}
