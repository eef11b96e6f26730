/**
  Sorting by a strict order. The sort is stable, so it stands for std::stable_sort,
  and for std::sort wherever the order leaves no ties.
 */
module Sorting {
  import opened Sequences

  function Insert<T>(x: T, s: seq<T>, less: (T, T) -> bool): seq<T> {
    if s == [] || !less(s[0], x) then [x] + s else [s[0]] + Insert(x, s[1..], less)
  }

  function StableSort<T>(s: seq<T>, less: (T, T) -> bool): seq<T> {
    if s == [] then [] else Insert(s[0], StableSort(s[1..], less), less)
  }

  ghost predicate SortedBy<T(!new)>(s: seq<T>, less: (T, T) -> bool) {
    forall i, j | 0 <= i < j < |s| :: !less(s[j], s[i])
  }

  /** Ties are transitive on the elements of s, and the order is asymmetric there. */
  ghost predicate WeakOrderOn<T(!new)>(s: seq<T>, less: (T, T) -> bool) {
    && (forall a, b, c | a in s && b in s && c in s && !less(a, b) && !less(b, c) :: !less(a, c))
    && (forall a, b | a in s && b in s && less(a, b) :: !less(b, a))
  }

  lemma {:induction false} InsertMultiset<T(!new)>(x: T, s: seq<T>, less: (T, T) -> bool)
    ensures multiset(Insert(x, s, less)) == multiset{x} + multiset(s)
    ensures |Insert(x, s, less)| == |s| + 1
  {
    if s == [] || !less(s[0], x) {
      assert [x] + s == Insert(x, s, less);
    } else {
      InsertMultiset(x, s[1..], less);
      assert s == [s[0]] + s[1..];
    }
  }

  lemma {:induction false} SortMultiset<T(!new)>(s: seq<T>, less: (T, T) -> bool)
    ensures multiset(StableSort(s, less)) == multiset(s)
    ensures |StableSort(s, less)| == |s|
  {
    if s != [] {
      SortMultiset(s[1..], less);
      InsertMultiset(s[0], StableSort(s[1..], less), less);
      assert s == [s[0]] + s[1..];
    }
  }

  lemma SameMultisetSameMembers<T(!new)>(s: seq<T>, t: seq<T>)
    requires multiset(s) == multiset(t)
    ensures |s| == |t|
    ensures forall x :: x in s <==> x in t
  {
    assert |s| == |multiset(s)| == |multiset(t)| == |t|;
    forall x
      ensures x in s <==> x in t
    {
      assert x in s <==> x in multiset(s);
      assert x in t <==> x in multiset(t);
    }
  }

  lemma {:induction false} DistinctIffSingleCounts<T(!new)>(s: seq<T>)
    ensures Distinct(s) <==> forall x | x in s :: multiset(s)[x] == 1
  {
    if s != [] {
      DistinctIffSingleCounts(s[1..]);
      assert s == [s[0]] + s[1..];
      assert multiset(s) == multiset{s[0]} + multiset(s[1..]);
      if Distinct(s) {
        assert s[0] !in s[1..];
        forall x | x in s ensures multiset(s)[x] == 1 {
          if x != s[0] { assert x in s[1..]; }
        }
      }
      if forall x | x in s :: multiset(s)[x] == 1 {
        assert s[0] in s && s[0] !in s[1..];
        forall x | x in s[1..] ensures multiset(s[1..])[x] == 1 {
          assert x in s;
        }
      }
    }
  }

  lemma CountsOf<T(!new)>(s: seq<T>, x: T)
    requires Distinct(s)
    ensures multiset(s)[x] == if x in s then 1 else 0
  {
    DistinctIffSingleCounts(s);
    assert x in s <==> x in multiset(s);
  }

  lemma DistinctSurvivesPermutation<T(!new)>(s: seq<T>, t: seq<T>)
    requires multiset(s) == multiset(t) && Distinct(s)
    ensures Distinct(t)
  {
    DistinctIffSingleCounts(s);
    DistinctIffSingleCounts(t);
    SameMultisetSameMembers(s, t);
  }

  lemma {:induction false} InsertSorted<T(!new)>(x: T, s: seq<T>, less: (T, T) -> bool)
    requires SortedBy(s, less) && WeakOrderOn([x] + s, less)
    ensures SortedBy(Insert(x, s, less), less)
  {
    if s == [] {
    } else if !less(s[0], x) {
      forall j | 0 <= j < |s| ensures !less(s[j], x) {
        assert s[j] in [x] + s && x in [x] + s && s[0] in [x] + s;
      }
    } else {
      assert forall y | y in [x] + s[1..] :: y in [x] + s;
      InsertSorted(x, s[1..], less);
      InsertMultiset(x, s[1..], less);
      var rest := Insert(x, s[1..], less);
      forall j | 0 <= j < |rest| ensures !less(rest[j], s[0]) {
        assert rest[j] in multiset(rest);
        if rest[j] == x {
          assert x in [x] + s && s[0] in [x] + s;
        } else {
          assert rest[j] in multiset(s[1..]);
        }
      }
    }
  }

  /** The result is sorted, whatever weak order it is sorted by. */
  lemma {:induction false} SortSorted<T(!new)>(s: seq<T>, less: (T, T) -> bool)
    requires WeakOrderOn(s, less)
    ensures SortedBy(StableSort(s, less), less)
  {
    if s != [] {
      SortSorted(s[1..], less);
      SortMultiset(s[1..], less);
      var rest := StableSort(s[1..], less);
      SameMultisetSameMembers(rest, s[1..]);
      assert forall y | y in [s[0]] + rest :: y in s;
      InsertSorted(s[0], rest, less);
    }
  }

  /** Sorting keeps members, length and distinctness. */
  lemma SortMembers<T(!new)>(s: seq<T>, less: (T, T) -> bool)
    ensures |StableSort(s, less)| == |s|
    ensures forall x :: x in StableSort(s, less) <==> x in s
    ensures Distinct(s) ==> Distinct(StableSort(s, less))
  {
    SortMultiset(s, less);
    SameMultisetSameMembers(s, StableSort(s, less));
    if Distinct(s) {
      DistinctSurvivesPermutation(s, StableSort(s, less));
    }
  }

  /** Sorted, and ties keep the order of the numbers themselves. */
  ghost predicate StablySorted(s: seq<nat>, less: (nat, nat) -> bool) {
    forall i, j | 0 <= i < j < |s| :: less(s[i], s[j]) || (!less(s[j], s[i]) && s[i] < s[j])
  }

  lemma {:induction false} InsertStable(x: nat, s: seq<nat>, less: (nat, nat) -> bool)
    requires StablySorted(s, less) && WeakOrderOn([x] + s, less)
    requires forall i | 0 <= i < |s| :: x < s[i]
    ensures StablySorted(Insert(x, s, less), less)
  {
    if s == [] {
    } else if !less(s[0], x) {
      forall j | 0 <= j < |s| ensures !less(s[j], x) {
        assert s[j] in [x] + s && x in [x] + s && s[0] in [x] + s;
      }
    } else {
      assert forall y | y in [x] + s[1..] :: y in [x] + s;
      InsertStable(x, s[1..], less);
      HeadStaysFirst(x, s, less);
    }
  }

  lemma HeadStaysFirst(x: nat, s: seq<nat>, less: (nat, nat) -> bool)
    requires s != [] && StablySorted(s, less) && less(s[0], x)
    ensures forall y | y in Insert(x, s[1..], less) :: less(s[0], y) || (!less(y, s[0]) && s[0] < y)
  {
    InsertMultiset(x, s[1..], less);
    forall y | y in Insert(x, s[1..], less)
      ensures less(s[0], y) || (!less(y, s[0]) && s[0] < y)
    {
      assert y in multiset(Insert(x, s[1..], less));
      if y != x {
        var i :| 0 <= i < |s[1..]| && s[1..][i] == y;
        assert y == s[i + 1];
      }
    }
  }

  /** Sorting ascending numbers is stable. */
  lemma {:induction false} SortIsStable(s: seq<nat>, less: (nat, nat) -> bool)
    requires WeakOrderOn(s, less) && forall i, j | 0 <= i < j < |s| :: s[i] < s[j]
    ensures StablySorted(StableSort(s, less), less)
  {
    if s != [] {
      var rest := StableSort(s[1..], less);
      SortIsStable(s[1..], less);
      SortMembers(s[1..], less);
      assert forall i | 0 <= i < |rest| :: rest[i] in rest;
      assert forall y | y in [s[0]] + rest :: y in s;
      InsertStable(s[0], rest, less);
    }
  }

  // ---- images ----

  function Map<S, T>(s: seq<S>, f: S -> T): seq<T> { seq(|s|, i requires 0 <= i < |s| => f(s[i])) }

  lemma MapConcat<S, T>(s: seq<S>, t: seq<S>, f: S -> T)
    ensures Map(s + t, f) == Map(s, f) + Map(t, f)
  {
  }

  lemma OneMoreTaken<T(!new)>(s: seq<T>, n: nat)
    requires 0 < n <= |s|
    ensures multiset(s[..n]) == multiset(s[..n - 1]) + multiset{s[n - 1]}
  {
    assert s[..n] == s[..n - 1] + [s[n - 1]];
  }

  function Without<T>(s: seq<T>, k: nat): seq<T>
    requires k < |s|
  {
    s[..k] + s[k + 1..]
  }

  lemma WithoutOne<T(!new)>(s: seq<T>, k: nat)
    requires k < |s|
    ensures multiset(s) == multiset(Without(s, k)) + multiset{s[k]}
  {
    assert s == s[..k] + [s[k]] + s[k + 1..];
  }

  /** Taking the same element out of equal contents, or putting it back, leaves equal contents. */
  lemma SameWithoutOne<T(!new)>(a: seq<T>, i: nat, b: seq<T>, j: nat)
    requires i < |a| && j < |b| && a[i] == b[j]
    ensures multiset(a) == multiset(b) <==> multiset(Without(a, i)) == multiset(Without(b, j))
  {
    WithoutOne(a, i);
    WithoutOne(b, j);
    var x, y := multiset(Without(a, i)), multiset(Without(b, j));
    assert x == (x + multiset{a[i]}) - multiset{a[i]} && y == (y + multiset{a[i]}) - multiset{a[i]};
  }

  lemma MapWithout<S, T>(s: seq<S>, k: nat, f: S -> T)
    requires k < |s|
    ensures Map(Without(s, k), f) == Without(Map(s, f), k)
  {
  }

  /** The same elements in any order have the same images. */
  lemma {:induction false} SameMultisetSameImages<S(!new), T(!new)>(a: seq<S>, b: seq<S>, f: S -> T)
    requires multiset(a) == multiset(b)
    ensures multiset(Map(a, f)) == multiset(Map(b, f))
    decreases |a|
  {
    SameMultisetSameMembers(a, b);
    if a == [] {
      assert b == [];
    } else {
      assert a[0] in b;
      var k: nat :| k < |b| && b[k] == a[0];
      SameWithoutOne(a, 0, b, k);
      MapWithout(a, 0, f);
      MapWithout(b, k, f);
      SameMultisetSameImages(Without(a, 0), Without(b, k), f);
      SameWithoutOne(Map(a, f), 0, Map(b, f), k);
    }
  }

  lemma SameMembersSameMultiset<T(!new)>(a: seq<T>, b: seq<T>)
    requires Distinct(a) && Distinct(b) && forall x :: x in a <==> x in b
    ensures multiset(a) == multiset(b)
  {
    DistinctIffSingleCounts(a);
    DistinctIffSingleCounts(b);
    forall x
      ensures multiset(a)[x] == multiset(b)[x]
    {
      assert x in a <==> x in b;
    }
  }
}
