/**
  The job stream and its enqueue script: an idempotency marker, a trim below what
  every consumer group still needs, and a bounded append.
 */
module JobQueue {
  import opened Wrappers

  datatype EntryId = EntryId(ms: nat, number: nat)

  datatype Entry = Entry(id: EntryId, jobId: string)

  /** Pending ids in ascending order. A late group was created after entries had been trimmed. */
  datatype Group = Group(lastDelivered: EntryId, pending: seq<EntryId>, late: bool)

  datatype Queue = Queue(entries: seq<Entry>, groups: seq<Group>, lastId: EntryId, markers: map<string, EntryId>)

  predicate Before(a: EntryId, b: EntryId) { a.ms < b.ms || (a.ms == b.ms && a.number < b.number) }

  function Successor(id: EntryId): EntryId { EntryId(id.ms, id.number + 1) }

  /** The oldest entry a group still needs, or the one after its last delivery. */
  function Bound(g: Group): EntryId { if g.pending != [] then g.pending[0] else Successor(g.lastDelivered) }

  /** A group needs an entry that is pending or not yet delivered. */
  predicate Needs(g: Group, id: EntryId) { id in g.pending || Before(g.lastDelivered, id) }

  function Floor(groups: seq<Group>): Option<EntryId> {
    if groups == [] then None
    else
      var floor := Floor(groups[..|groups| - 1]);
      var bound := Bound(groups[|groups| - 1]);
      if floor.None? || Before(bound, floor.value) then Some(bound) else floor
  }

  function TrimBelow(entries: seq<Entry>, floor: EntryId): seq<Entry> {
    if entries == [] || !Before(entries[0].id, floor) then entries else TrimBelow(entries[1..], floor)
  }

  function Trimmed(q: Queue): seq<Entry> {
    var floor := Floor(q.groups);
    if floor.Some? && floor.value != EntryId(0, 0) then TrimBelow(q.entries, floor.value) else q.entries
  }

  /** The id the server assigns: its clock, but always above the last one. */
  function NextId(q: Queue, clock: nat): EntryId {
    if clock > q.lastId.ms then EntryId(clock, 0) else Successor(q.lastId)
  }

  function Enqueued(q: Queue, jobId: string, limit: nat, clock: nat): (Queue, Option<EntryId>) {
    if jobId in q.markers then (q, Some(q.markers[jobId]))
    else if |Trimmed(q)| >= limit then (q.(entries := Trimmed(q)), None)
    else
      var id := NextId(q, clock);
      (q.(entries := Trimmed(q) + [Entry(id, jobId)], lastId := id, markers := q.markers[jobId := id]), Some(id))
  }

  // ---- what the queue keeps ----

  predicate AtMost(a: EntryId, b: EntryId) { a == b || Before(a, b) }

  ghost predicate Ascending(ids: seq<EntryId>) {
    forall i, j | 0 <= i < j < |ids| :: Before(ids[i], ids[j])
  }

  ghost predicate AscendingEntries(entries: seq<Entry>) {
    forall i, j | 0 <= i < j < |entries| :: Before(entries[i].id, entries[j].id)
  }

  ghost predicate UpTo(entries: seq<Entry>, bound: EntryId) {
    forall i | 0 <= i < |entries| :: AtMost(entries[i].id, bound)
  }

  ghost predicate Stored(entries: seq<Entry>, id: EntryId) {
    exists i | 0 <= i < |entries| :: entries[i].id == id
  }

  ghost predicate ValidGroup(g: Group, entries: seq<Entry>, lastId: EntryId) {
    && AtMost(g.lastDelivered, lastId) && Ascending(g.pending)
    && forall i | 0 <= i < |g.pending| :: AtMost(g.pending[i], g.lastDelivered) && Stored(entries, g.pending[i])
  }

  ghost predicate ValidGroups(groups: seq<Group>, entries: seq<Entry>, lastId: EntryId) {
    forall i | 0 <= i < |groups| :: ValidGroup(groups[i], entries, lastId)
  }

  ghost predicate Valid(q: Queue) {
    AscendingEntries(q.entries) && UpTo(q.entries, q.lastId) && ValidGroups(q.groups, q.entries, q.lastId)
  }

  /** The floor is below everything any group needs, and is the bound of one of them. */
  lemma {:induction false} FloorIsLeastBound(groups: seq<Group>)
    ensures Floor(groups).None? <==> groups == []
    ensures forall i | 0 <= i < |groups| :: AtMost(Floor(groups).value, Bound(groups[i]))
    ensures groups != [] ==> exists i | 0 <= i < |groups| :: Floor(groups).value == Bound(groups[i])
  {
    if groups != [] {
      var last := |groups| - 1;
      FloorIsLeastBound(groups[..last]);
      if last > 0 {
        var i :| 0 <= i < last && Floor(groups[..last]).value == Bound(groups[..last][i]);
        assert groups[i] == groups[..last][i];
        forall j | 0 <= j < |groups|
          ensures AtMost(Floor(groups).value, Bound(groups[j]))
        {
          assert j < last ==> groups[j] == groups[..last][j];
        }
      }
      assert Floor(groups).value == Bound(groups[last]) || Floor(groups) == Floor(groups[..last]);
    }
  }

  lemma BoundIsBelowNeeds(g: Group, id: EntryId)
    requires Ascending(g.pending) && Needs(g, id)
    requires forall i | 0 <= i < |g.pending| :: AtMost(g.pending[i], g.lastDelivered)
    ensures AtMost(Bound(g), id)
  {
    if id in g.pending {
      var i :| 0 <= i < |g.pending| && g.pending[i] == id;
      assert i > 0 ==> Before(g.pending[0], g.pending[i]);
    }
  }

  /** Trimming drops a prefix: exactly the entries below the floor. */
  lemma {:induction false} TrimDropsPrefix(entries: seq<Entry>, floor: EntryId)
    requires AscendingEntries(entries)
    ensures var kept := TrimBelow(entries, floor);
            && |kept| <= |entries| && kept == entries[|entries| - |kept|..]
            && (forall i | 0 <= i < |entries| - |kept| :: Before(entries[i].id, floor))
            && (forall i | |entries| - |kept| <= i < |entries| :: !Before(entries[i].id, floor))
  {
    if entries != [] && Before(entries[0].id, floor) {
      TrimDropsPrefix(entries[1..], floor);
    }
  }

  lemma TrimmedIsSuffix(q: Queue)
    requires Valid(q)
    ensures |Trimmed(q)| <= |q.entries| && Trimmed(q) == q.entries[|q.entries| - |Trimmed(q)|..]
    ensures q.groups == [] ==> Trimmed(q) == q.entries
  {
    FloorIsLeastBound(q.groups);
    if q.groups != [] {
      TrimDropsPrefix(q.entries, Floor(q.groups).value);
    }
  }

  /** Trimming never removes an entry some group has pending or has not been given. */
  lemma TrimKeepsNeeded(q: Queue, i: nat, g: nat)
    requires Valid(q) && i < |q.entries| && g < |q.groups| && Needs(q.groups[g], q.entries[i].id)
    ensures i >= |q.entries| - |Trimmed(q)| && q.entries[i] in Trimmed(q)
  {
    FloorIsLeastBound(q.groups);
    assert ValidGroup(q.groups[g], q.entries, q.lastId);
    BoundIsBelowNeeds(q.groups[g], q.entries[i].id);
    TrimDropsPrefix(q.entries, Floor(q.groups).value);
    TrimmedIsSuffix(q);
    assert Trimmed(q)[i - (|q.entries| - |Trimmed(q)|)] == q.entries[i];
  }

  /** And it removes everything below the oldest entry any group needs. */
  lemma TrimIsTight(q: Queue, i: nat)
    requires Valid(q) && q.groups != [] && i < |Trimmed(q)|
    ensures exists g | 0 <= g < |q.groups| :: AtMost(Bound(q.groups[g]), Trimmed(q)[i].id)
  {
    FloorIsLeastBound(q.groups);
    TrimDropsPrefix(q.entries, Floor(q.groups).value);
  }

  lemma TrimKeepsGroups(q: Queue)
    requires Valid(q)
    ensures AscendingEntries(Trimmed(q)) && UpTo(Trimmed(q), q.lastId)
    ensures ValidGroups(q.groups, Trimmed(q), q.lastId)
  {
    TrimmedIsSuffix(q);
    var cut := |q.entries| - |Trimmed(q)|;
    forall g | 0 <= g < |q.groups|
      ensures ValidGroup(q.groups[g], Trimmed(q), q.lastId)
    {
      assert ValidGroup(q.groups[g], q.entries, q.lastId);
      forall p | 0 <= p < |q.groups[g].pending|
        ensures Stored(Trimmed(q), q.groups[g].pending[p])
      {
        var i :| 0 <= i < |q.entries| && q.entries[i].id == q.groups[g].pending[p];
        TrimKeepsNeeded(q, i, g);
        assert Trimmed(q)[i - cut].id == q.groups[g].pending[p];
      }
    }
  }

  /** The script keeps the queue valid, within its limit, and every pending entry stored. */
  lemma EnqueueKeepsValid(q: Queue, jobId: string, limit: nat, clock: nat)
    requires Valid(q)
    ensures Valid(Enqueued(q, jobId, limit, clock).0)
    ensures |q.entries| <= limit ==> |Enqueued(q, jobId, limit, clock).0.entries| <= limit
  {
    TrimKeepsGroups(q);
    TrimmedIsSuffix(q);
    if jobId !in q.markers && |Trimmed(q)| < limit {
      var id := NextId(q, clock);
      AppendKeepsValid(q.(entries := Trimmed(q)), Entry(id, jobId), q.markers[jobId := id]);
    }
  }

  lemma AppendKeepsValid(q: Queue, e: Entry, markers: map<string, EntryId>)
    requires Valid(q) && Before(q.lastId, e.id)
    ensures Valid(Queue(q.entries + [e], q.groups, e.id, markers))
  {
    AppendKeepsGroups(q.groups, q.entries, q.lastId, e);
  }

  lemma AppendKeepsGroups(groups: seq<Group>, entries: seq<Entry>, lastId: EntryId, e: Entry)
    requires ValidGroups(groups, entries, lastId) && Before(lastId, e.id)
    ensures ValidGroups(groups, entries + [e], e.id)
  {
    forall g | 0 <= g < |groups|
      ensures ValidGroup(groups[g], entries + [e], e.id)
    {
      assert ValidGroup(groups[g], entries, lastId);
      forall p | 0 <= p < |groups[g].pending|
        ensures Stored(entries + [e], groups[g].pending[p])
      {
        var i :| 0 <= i < |entries| && entries[i].id == groups[g].pending[p];
        assert (entries + [e])[i] == entries[i];
      }
    }
  }

  // ---- the script, command by command ----

  class Stream {
    var entries: seq<Entry>
    var groups: seq<Group>
    var lastId: EntryId
    var markers: map<string, EntryId>

    function View(): Queue
      reads this
    {
      Queue(entries, groups, lastId, markers)
    }

    constructor ()
      ensures View() == Queue([], [], EntryId(0, 0), map[])
    {
      entries, groups, lastId, markers := [], [], EntryId(0, 0), map[];
    }

    /** The minimum over the groups. */
    method TrimFloor() returns (floor: Option<EntryId>)
      ensures floor == Floor(groups)
    {
      floor := None;
      for i := 0 to |groups|
        invariant floor == Floor(groups[..i])
      {
        assert groups[..i + 1][..i] == groups[..i];
        var bound := Bound(groups[i]);
        if floor.None? || Before(bound, floor.value) {
          floor := Some(bound);
        }
      }
      assert groups[..|groups|] == groups;
    }

    /** XTRIM MINID. */
    method Trim(floor: EntryId)
      modifies this`entries
      ensures entries == TrimBelow(old(entries), floor)
    {
      while entries != [] && Before(entries[0].id, floor)
        invariant TrimBelow(entries, floor) == TrimBelow(old(entries), floor)
        decreases |entries|
      {
        entries := entries[1..];
      }
    }

    /** The enqueue script: at most one append per marker, and never above the limit. */
    method Enqueue(jobId: string, limit: nat, clock: nat) returns (reply: Option<EntryId>)
      modifies this
      ensures (View(), reply) == Enqueued(old(View()), jobId, limit, clock)
    {
      if jobId in markers { return Some(markers[jobId]); }
      var floor := TrimFloor();
      if floor.Some? && floor.value != EntryId(0, 0) {
        Trim(floor.value);
      }
      if |entries| >= limit { return None; }
      var id := NextId(View(), clock);
      entries, lastId, markers := entries + [Entry(id, jobId)], id, markers[jobId := id];
      reply := Some(id);
    }
  }
}
