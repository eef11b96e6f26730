/** Lists without repetition, in the order in which their elements are first seen. */
module FirstSeen {
  import opened Sequences

  function AddNew<T(==)>(list: seq<T>, x: T): seq<T> { if x in list then list else list + [x] }

  function Union<T(==)>(list: seq<T>, more: seq<T>): seq<T> {
    if more == [] then list else AddNew(Union(list, more[..|more| - 1]), more[|more| - 1])
  }

  lemma {:induction false} UnionConcat<T>(list: seq<T>, a: seq<T>, b: seq<T>)
    ensures Union(list, a + b) == Union(Union(list, a), b)
  {
    if b == [] {
      assert a + b == a;
    } else {
      UnionConcat(list, a, b[..|b| - 1]);
      assert (a + b)[..|a + b| - 1] == a + b[..|b| - 1];
    }
  }

  lemma {:induction false} UnionMembers<T(!new)>(list: seq<T>, more: seq<T>)
    ensures forall x :: x in Union(list, more) <==> x in list || x in more
    ensures Distinct(list) ==> Distinct(Union(list, more))
  {
    if more != [] {
      UnionMembers(list, more[..|more| - 1]);
    }
  }

  ghost predicate FirstAt<T(!new)>(s: seq<T>, x: T, i: nat) {
    i < |s| && s[i] == x && forall k | 0 <= k < i :: s[k] != x
  }

  lemma {:induction false} HasFirst<T(!new)>(s: seq<T>, x: T) returns (i: nat)
    requires x in s
    ensures FirstAt(s, x, i)
  {
    if s[0] == x {
      i := 0;
    } else {
      i := HasFirst(s[1..], x);
      i := i + 1;
    }
  }

  /** What was listed stays in front; what is new follows in the order of its first occurrence. */
  lemma {:induction false} UnionIsInOrder<T(!new)>(list: seq<T>, more: seq<T>)
    ensures list <= Union(list, more)
    ensures var all := Union(list, more);
            forall i, j, a, b | |list| <= i < j < |all| && FirstAt(more, all[i], a) && FirstAt(more, all[j], b) :: a < b
  {
    if more != [] {
      var front, last := more[..|more| - 1], more[|more| - 1];
      var before, all := Union(list, front), Union(list, more);
      UnionIsInOrder(list, front);
      UnionMembers(list, front);
      forall i, j, a, b | |list| <= i < j < |all| && FirstAt(more, all[i], a) && FirstAt(more, all[j], b)
        ensures a < b
      {
        if j < |before| {
          NewIsMore(list, front, i);
          NewIsMore(list, front, j);
          var c := HasFirst(front, before[i]);
          var d := HasFirst(front, before[j]);
          assert FirstAt(more, all[i], c) && FirstAt(more, all[j], d);
          FirstIsOne(more, all[i], a, c);
          FirstIsOne(more, all[j], b, d);
        } else {
          NewIsMore(list, front, i);
          var c := HasFirst(front, before[i]);
          FirstIsOne(more, all[i], a, c);
          assert all[j] == last && last !in before;
        }
      }
    }
  }

  lemma FirstIsOne<T(!new)>(s: seq<T>, x: T, i: nat, j: nat)
    requires FirstAt(s, x, i) && FirstAt(s, x, j)
    ensures i == j
  {
  }

  /** What stands behind the listed elements came with the others. */
  lemma {:induction false} NewIsMore<T(!new)>(list: seq<T>, more: seq<T>, i: nat)
    requires |list| <= i < |Union(list, more)|
    ensures Union(list, more)[i] in more
  {
    var front := more[..|more| - 1];
    if i < |Union(list, front)| {
      NewIsMore(list, front, i);
    }
  }

  /** Adding what is already a union adds the same. */
  lemma {:induction false} UnionAbsorbs<T(!new)>(list: seq<T>, more: seq<T>)
    ensures Union(list, Union([], more)) == Union(list, more)
  {
    if more != [] {
      var front, last := more[..|more| - 1], more[|more| - 1];
      UnionAbsorbs(list, front);
      UnionMembers([], front);
      UnionMembers(list, front);
      if last !in front {
        UnionConcat(list, Union([], front), [last]);
        assert [last][..0] == [];
      }
    }
  }

  lemma {:induction false} UnionOfDistinct<T(!new)>(list: seq<T>)
    requires Distinct(list)
    ensures Union([], list) == list
  {
    if list != [] {
      UnionOfDistinct(list[..|list| - 1]);
    }
  }

  lemma UnionOfUnions<T(!new)>(a: seq<T>, b: seq<T>)
    ensures Union([], Union([], a) + Union([], b)) == Union([], a + b)
  {
    UnionConcat([], Union([], a), Union([], b));
    UnionMembers([], a);
    UnionOfDistinct(Union([], a));
    UnionAbsorbs(Union([], a), b);
    UnionConcat([], a, b);
  }
}
