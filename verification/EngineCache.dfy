/** The worker's cache of document engines, by recency of their successful lookups. */
module EngineCache {
  import opened Wrappers
  import opened Sequences

  /** The normalised backend options, and the engine made for them. */
  datatype Entry<K> = Entry(key: K, engine: nat)

  function Remove<K(==)>(keys: seq<K>, key: K): seq<K> {
    if keys == [] then [] else if keys[0] == key then Remove(keys[1..], key) else [keys[0]] + Remove(keys[1..], key)
  }

  /** The distinct keys of a history of lookups, the latest first. */
  function Recency<K(==)>(history: seq<K>): seq<K> {
    if history == [] then []
    else [history[|history| - 1]] + Remove(Recency(history[..|history| - 1]), history[|history| - 1])
  }

  function Take<K(==)>(keys: seq<K>, n: nat): (taken: seq<K>)
    ensures |taken| <= n && |taken| <= |keys|
    ensures |taken| < n ==> taken == keys
  {
    if n == 0 || keys == [] then [] else [keys[0]] + Take(keys[1..], n - 1)
  }

  function Keys<K>(entries: seq<Entry<K>>): seq<K> { seq(|entries|, i requires 0 <= i < |entries| => entries[i].key) }

  /** The position of the last lookup of a key, or -1. */
  function LastUse<K(==)>(history: seq<K>, key: K): int {
    if history == [] then -1
    else if history[|history| - 1] == key then |history| - 1
    else LastUse(history[..|history| - 1], key)
  }

  lemma {:induction false} RemoveRemoves<K(!new)>(keys: seq<K>, key: K)
    ensures forall k :: k in Remove(keys, key) <==> k in keys && k != key
    ensures |Remove(keys, key)| <= |keys|
    ensures Distinct(keys) ==> Distinct(Remove(keys, key))
  {
    if keys != [] {
      RemoveRemoves(keys[1..], key);
      assert keys == [keys[0]] + keys[1..];
      if Distinct(keys) {
        assert keys[0] !in keys[1..];
      }
    }
  }

  ghost predicate ByLastUse<K>(history: seq<K>, keys: seq<K>) {
    forall i, j | 0 <= i < j < |keys| :: LastUse(history, keys[i]) > LastUse(history, keys[j])
  }

  lemma {:induction false} RemoveKeepsOrder<K(!new)>(history: seq<K>, keys: seq<K>, key: K)
    requires ByLastUse(history, keys)
    ensures ByLastUse(history, Remove(keys, key))
  {
    if keys != [] {
      RemoveKeepsOrder(history, keys[1..], key);
      RemoveRemoves(keys[1..], key);
      var rest := Remove(keys[1..], key);
      forall j | 0 <= j < |rest|
        ensures LastUse(history, keys[0]) > LastUse(history, rest[j])
      {
        assert rest[j] in keys[1..];
      }
    }
  }

  lemma {:induction false} LastUseBound<K(!new)>(history: seq<K>, key: K)
    ensures LastUse(history, key) < |history|
  {
    if history != [] && history[|history| - 1] != key {
      LastUseBound(history[..|history| - 1], key);
    }
  }

  /** Recency lists each key looked up once, in the order of their last lookups. */
  lemma {:induction false} RecencyIsByLastUse<K(!new)>(history: seq<K>)
    ensures Distinct(Recency(history)) && ByLastUse(history, Recency(history))
    ensures forall k :: k in Recency(history) <==> k in history
  {
    if history != [] {
      var front, last := history[..|history| - 1], history[|history| - 1];
      var older := Remove(Recency(front), last);
      RecencyIsByLastUse(front);
      RemoveRemoves(Recency(front), last);
      RemoveKeepsOrder(front, Recency(front), last);
      assert history == front + [last];
      forall i | 0 <= i < |older|
        ensures LastUse(history, older[i]) == LastUse(front, older[i]) < |front|
      {
        assert older[i] in older;
        LastUseBound(front, older[i]);
      }
    }
  }

  lemma {:induction false} TakeMembers<K(!new)>(keys: seq<K>, n: nat)
    ensures forall k | k in Take(keys, n) :: k in keys
  {
    if n > 0 && keys != [] {
      TakeMembers(keys[1..], n - 1);
    }
  }

  lemma RemoveCons<K(!new)>(x: K, keys: seq<K>, key: K)
    ensures Remove([x] + keys, key) == if x == key then Remove(keys, key) else [x] + Remove(keys, key)
  {
    assert ([x] + keys)[1..] == keys;
  }

  /** A key among the first n moves away: the other n - 1 stay. */
  lemma {:induction false} TakeAfterHit<K(!new)>(keys: seq<K>, n: nat, key: K)
    requires Distinct(keys) && key in Take(keys, n)
    ensures n > 0 && Take(Remove(keys, key), n - 1) == Remove(Take(keys, n), key)
  {
    var x, rest := keys[0], keys[1..];
    HeadIsNew(keys);
    if x == key {
      HeadHit(x, rest, n);
    } else {
      TakenFromTail(x, rest, n, key);
      TakeAfterHit(rest, n - 1, key);
      TailHit(x, rest, n, key);
    }
  }

  lemma TakenFromTail<K(!new)>(x: K, rest: seq<K>, n: nat, key: K)
    requires n > 0 && x != key && key in [x] + Take(rest, n - 1)
    ensures n > 1 && key in Take(rest, n - 1)
  {
  }

  lemma HeadHit<K(!new)>(x: K, rest: seq<K>, n: nat)
    requires x !in rest && n > 0
    ensures Take(Remove(rest, x), n - 1) == Remove([x] + Take(rest, n - 1), x)
  {
    TakeMembers(rest, n - 1);
    RemoveAbsent(rest, x);
    RemoveAbsent(Take(rest, n - 1), x);
    RemoveCons(x, Take(rest, n - 1), x);
  }

  lemma {:induction false} RemoveAbsent<K(!new)>(keys: seq<K>, key: K)
    requires key !in keys
    ensures Remove(keys, key) == keys
  {
    if keys != [] {
      RemoveAbsent(keys[1..], key);
    }
  }

  lemma TailHit<K(!new)>(x: K, rest: seq<K>, n: nat, key: K)
    requires x != key && n > 1 && Take(Remove(rest, key), n - 2) == Remove(Take(rest, n - 1), key)
    ensures Take([x] + Remove(rest, key), n - 1) == Remove([x] + Take(rest, n - 1), key)
  {
    TakeCons(x, Remove(rest, key), n - 1);
    RemoveCons(x, Take(rest, n - 1), key);
  }

  lemma HeadIsNew<K(!new)>(keys: seq<K>)
    requires Distinct(keys) && keys != []
    ensures keys[0] !in keys[1..] && Distinct(keys[1..])
  {
  }

  lemma TakeCons<K(!new)>(x: K, keys: seq<K>, n: nat)
    requires n > 0
    ensures Take([x] + keys, n) == [x] + Take(keys, n - 1)
  {
    assert ([x] + keys)[1..] == keys;
  }

  /** A key that is not among them makes room for itself by the last. */
  lemma {:induction false} TakeAfterMiss<K(!new)>(keys: seq<K>, n: nat, key: K)
    requires n > 0 && key !in Take(keys, n)
    ensures Take(Remove(keys, key), n - 1) == Take(keys, n - 1)
  {
    if keys != [] && n > 1 {
      TakeAfterMiss(keys[1..], n - 1, key);
    }
  }

  lemma {:induction false} TakeFewer<K(!new)>(keys: seq<K>, n: nat)
    requires n > 0
    ensures Take(keys, n - 1) == if |Take(keys, n)| == n then Take(keys, n)[..n - 1] else Take(keys, n)
  {
    if keys != [] && n > 1 {
      TakeFewer(keys[1..], n - 1);
    }
  }

  lemma {:induction false} RemoveAt<K(!new)>(keys: seq<K>, i: nat)
    requires Distinct(keys) && i < |keys|
    ensures Remove(keys, keys[i]) == keys[..i] + keys[i + 1..]
  {
    if i > 0 {
      RemoveAt(keys[1..], i - 1);
      assert keys == [keys[0]] + keys[1..];
    } else {
      RemoveAbsent(keys[1..], keys[0]);
    }
  }

  lemma RecencyGrows<K(!new)>(history: seq<K>, capacity: nat, key: K)
    requires capacity > 0
    ensures Take(Recency(history + [key]), capacity) == [key] + Take(Remove(Recency(history), key), capacity - 1)
  {
    assert (history + [key])[..|history|] == history;
    TakeCons(key, Remove(Recency(history), key), capacity);
  }

  lemma RecencyAfterHit<K(!new)>(history: seq<K>, capacity: nat, key: K, keys: seq<K>, position: nat)
    requires capacity > 0 && keys == Take(Recency(history), capacity) && position < |keys| && keys[position] == key
    ensures Take(Recency(history + [key]), capacity) == [key] + (keys[..position] + keys[position + 1..])
  {
    RecencyIsByLastUse(history);
    TakeDistinct(Recency(history), capacity);
    RecencyGrows(history, capacity, key);
    TakeAfterHit(Recency(history), capacity, key);
    RemoveAt(keys, position);
  }

  lemma RecencyAfterMiss<K(!new)>(history: seq<K>, capacity: nat, key: K, keys: seq<K>)
    requires capacity > 0 && keys == Take(Recency(history), capacity) && key !in keys
    ensures Take(Recency(history + [key]), capacity) ==
            [key] + (if |keys| == capacity then keys[..capacity - 1] else keys)
  {
    RecencyGrows(history, capacity, key);
    TakeAfterMiss(Recency(history), capacity, key);
    TakeFewer(Recency(history), capacity);
  }

  lemma KeysMoved<K(!new)>(entries: seq<Entry<K>>, position: nat)
    requires position < |entries|
    ensures Keys([entries[position]] + (entries[..position] + entries[position + 1..])) ==
            [entries[position].key] + (Keys(entries)[..position] + Keys(entries)[position + 1..])
  {
  }

  /** The outcome of making an engine for a key; a failure keeps the cache as it is. */
  datatype Creation = Ready(engine: nat) | Rejected

  datatype Lookup = Lookup(engine: Option<nat>, hit: bool)

  class Cache<K(==, !new)> {
    const capacity: nat
    var entries: seq<Entry<K>>
    ghost var history: seq<K>

    /** The cache holds exactly the latest keys, up to its capacity. */
    ghost predicate Valid()
      reads this
    {
      capacity > 0 && Keys(entries) == Take(Recency(history), capacity)
    }

    constructor (capacity: nat)
      requires capacity > 0
      ensures Valid() && this.capacity == capacity && history == []
    {
      this.capacity, entries, history := capacity, [], [];
    }

    method Find(key: K) returns (position: int)
      ensures -1 <= position < |entries|
      ensures position >= 0 ==> entries[position].key == key
      ensures position < 0 ==> key !in Keys(entries)
    {
      for i := 0 to |entries|
        invariant forall k | 0 <= k < i :: entries[k].key != key
      {
        if entries[i].key == key { return i; }
      }
      position := -1;
    }

    /** An entry found moves to the front. */
    method Touch(position: nat)
      requires Valid() && position < |entries|
      modifies this
      ensures Valid() && entries != [] && entries[0] == old(entries)[position]
      ensures history == old(history) + [old(entries)[position].key]
      ensures forall e | e in entries :: e in old(entries)
    {
      var entry := entries[position];
      RecencyAfterHit(history, capacity, entry.key, Keys(entries), position);
      KeysMoved(entries, position);
      entries := [entry] + (entries[..position] + entries[position + 1..]);
      history := history + [entry.key];
    }

    /** A new entry joins at the front; when the cache is full the last one leaves. */
    method Insert(entry: Entry<K>)
      requires Valid() && entry.key !in Keys(entries)
      modifies this
      ensures Valid() && entries != [] && entries[0] == entry && history == old(history) + [entry.key]
      ensures forall e | e in entries :: e == entry || e in old(entries)
    {
      RecencyAfterMiss(history, capacity, entry.key, Keys(entries));
      ghost var keys := Keys(entries);
      if |entries| == capacity {
        entries := entries[..capacity - 1];
        assert Keys(entries) == keys[..capacity - 1];
      }
      ghost var left := Keys(entries);
      entries := [entry] + entries;
      assert Keys(entries) == [entry.key] + left;
      history := history + [entry.key];
    }

    /** A failed creation neither inserts nor evicts; the returned engine belongs to the front entry. */
    method Get(key: K, creation: Creation) returns (result: Lookup)
      requires Valid()
      modifies this
      ensures Valid()
      ensures result.hit <==> key in old(Keys(entries))
      ensures result.engine.Some? ==> history == old(history) + [key] && entries != [] &&
                                      entries[0] == Entry(key, result.engine.value)
      ensures result.hit ==> result.engine.Some? && Entry(key, result.engine.value) in old(entries)
      ensures !result.hit ==> result.engine == (if creation.Ready? then Some(creation.engine) else None)
      ensures result.engine.None? ==> entries == old(entries) && history == old(history)
      ensures forall e | e in entries :: e == entries[0] || e in old(entries)
    {
      var position := Find(key);
      if position >= 0 {
        var engine := entries[position].engine;
        assert Keys(entries)[position] == key;
        Touch(position);
        return Lookup(Some(engine), true);
      }
      if creation == Rejected { return Lookup(None, false); }
      Insert(Entry(key, creation.engine));
      result := Lookup(Some(creation.engine), false);
    }
  }

  lemma {:induction false} TakeDistinct<K(!new)>(keys: seq<K>, n: nat)
    requires Distinct(keys)
    ensures Distinct(Take(keys, n))
  {
    if n > 0 && keys != [] {
      TakeDistinct(keys[1..], n - 1);
      TakeMembers(keys[1..], n - 1);
      assert keys[0] !in keys[1..];
    }
  }
}
