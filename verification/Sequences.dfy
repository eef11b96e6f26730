/** Distinctness, permutations of an index range and counting. */
module Sequences {

  ghost predicate Distinct<T(!new)>(s: seq<T>) {
    forall i, j | 0 <= i < j < |s| :: s[i] != s[j]
  }

  ghost predicate IsPermutation(order: seq<nat>, n: nat) {
    && |order| == n
    && Distinct(order)
    && forall i | 0 <= i < |order| :: order[i] < n
  }

  /** a comes before b wherever both occur. */
  ghost predicate Precedes<T(!new)>(order: seq<T>, a: T, b: T) {
    forall i, j | 0 <= i < |order| && 0 <= j < |order| && order[i] == a && order[j] == b :: i < j
  }

  ghost function Range(n: nat): (r: set<nat>)
    ensures forall i: nat :: i in r <==> i < n
    ensures |r| == n
  {
    if n == 0 then {} else Range(n - 1) + {n - 1}
  }

  ghost function Elements<T(!new)>(s: seq<T>): (r: set<T>)
    ensures forall x :: x in r <==> x in s
  {
    if s == [] then {} else {s[0]} + Elements(s[1..])
  }

  lemma {:induction false} DistinctSize<T(!new)>(s: seq<T>)
    ensures |Elements(s)| <= |s|
    ensures Distinct(s) ==> |Elements(s)| == |s|
  {
    if s != [] {
      DistinctSize(s[1..]);
      if Distinct(s) {
        assert s[0] !in s[1..];
      }
    }
  }

  lemma {:induction false} CardinalityOfSubset<T>(a: set<T>, b: set<T>)
    requires a <= b
    ensures |a| <= |b|
  {
    if a != {} {
      var x :| x in a;
      CardinalityOfSubset(a - {x}, b - {x});
    }
  }

  lemma DistinctFits(s: seq<nat>, n: nat)
    requires Distinct(s) && forall i | 0 <= i < |s| :: s[i] < n
    ensures |s| <= n
  {
    DistinctSize(s);
    assert Elements(s) <= Range(n);
    CardinalityOfSubset(Elements(s), Range(n));
  }

  /** Fewer than n elements leave one index out. */
  lemma IndexLeft(n: nat, order: seq<nat>)
    requires |order| < n
    ensures exists v: nat :: v < n && v !in order
  {
    if !exists v: nat :: v < n && v !in order {
      assert Range(n) <= Elements(order);
      CardinalityOfSubset(Range(n), Elements(order));
      DistinctSize(order);
    }
  }

  /** A permutation of 0..n-1 contains every index. */
  lemma PermutationCovers(order: seq<nat>, n: nat)
    requires IsPermutation(order, n)
    ensures forall v: nat | v < n :: v in order
  {
    if exists v: nat :: v < n && v !in order {
      var v: nat :| v < n && v !in order;
      DistinctFits(order + [v], n);
    }
  }

  /** Distinct elements that are exactly the indices below n. */
  lemma MembersMakePermutation(order: seq<nat>, n: nat)
    requires Distinct(order) && forall v: nat :: v in order <==> v < n
    ensures IsPermutation(order, n)
  {
    assert forall i | 0 <= i < |order| :: order[i] in order;
    DistinctSize(order);
    assert Elements(order) == Range(n);
  }

  lemma DistinctConcat<T(!new)>(a: seq<T>, b: seq<T>)
    requires Distinct(a) && Distinct(b) && forall x | x in b :: x !in a
    ensures Distinct(a + b)
  {
    forall i, j | 0 <= i < j < |a + b|
      ensures (a + b)[i] != (a + b)[j]
    {
      if i < |a| <= j {
        assert (a + b)[j] in b && (a + b)[i] in a;
      }
    }
  }

  lemma DistinctConcatByIndex<T(!new)>(a: seq<T>, b: seq<T>)
    requires Distinct(a) && Distinct(b) && forall i, j | 0 <= i < |a| && 0 <= j < |b| :: a[i] != b[j]
    ensures Distinct(a + b)
  {
  }
}
