/**
  The durable outbox in front of the job stream: dispatcher transactions that crash,
  roll back or lose the reply of the enqueue script, marker cleanup, and consumer
  groups reading the stream, interleaved in any order.
 */
module Dispatch {
  import opened Wrappers
  import opened JobQueue

  datatype Row = Row(published: bool, cleaned: bool)

  /**
    `open`: transactions that hold a row's lock, with the script's reply once there is one.
    `sent`: jobs whose script was sent; it may still run after its transaction is gone.
    `appended`: every entry ever added to the stream.
   */
  datatype State = State(
    queue: Queue,
    rows: map<string, Row>,
    open: map<string, Option<EntryId>>,
    sent: set<string>,
    appended: seq<Entry>)

  datatype Step =
    | CreateRow(jobId: string)
    | Begin(jobId: string)
    | Execute(jobId: string, clock: nat)
    | Commit(jobId: string)
    | Rollback(jobId: string)
    | DropMarker(jobId: string)
    | MarkCleaned(jobId: string)
    | CreateGroup
    | Deliver(group: nat)
    | Acknowledge(group: nat, id: EntryId)

  predicate Published(s: State, jobId: string) { RowPublished(s.rows, jobId) }

  /** The script would add an entry now. */
  predicate Appends(s: State, jobId: string, limit: nat) {
    jobId in s.sent && jobId !in s.queue.markers && |Trimmed(s.queue)| < limit
  }

  function DoBegin(s: State, jobId: string): State {
    if jobId !in s.rows || s.rows[jobId].published || jobId in s.open then s
    else s.(open := s.open[jobId := None], sent := s.sent + {jobId})
  }

  function DoExecute(s: State, jobId: string, limit: nat, clock: nat): State {
    if jobId !in s.sent then s
    else
      var (queue, reply) := Enqueued(s.queue, jobId, limit, clock);
      s.(queue := queue,
         appended := if Appends(s, jobId, limit) then s.appended + [Entry(NextId(s.queue, clock), jobId)] else s.appended,
         open := if jobId in s.open && reply.Some? then s.open[jobId := reply] else s.open)
  }

  /** published_at is set only after the script answered with an id. */
  function DoCommit(s: State, jobId: string): State {
    if jobId !in s.open || s.open[jobId].None? || jobId !in s.rows then s
    else s.(rows := s.rows[jobId := s.rows[jobId].(published := true)], open := s.open - {jobId})
  }

  function DoDropMarker(s: State, jobId: string): State {
    if !Published(s, jobId) then s else s.(queue := s.queue.(markers := s.queue.markers - {jobId}))
  }

  function DoMarkCleaned(s: State, jobId: string): State {
    if !Published(s, jobId) then s else s.(rows := s.rows[jobId := s.rows[jobId].(cleaned := true)])
  }

  /** A group starts before the first entry; it is late when entries are already gone. */
  function NewGroup(q: Queue, appended: seq<Entry>): Group { Group(EntryId(0, 0), [], |q.entries| != |appended|) }

  function DoCreateGroup(s: State): State {
    s.(queue := s.queue.(groups := s.queue.groups + [NewGroup(s.queue, s.appended)]))
  }

  function NextUndelivered(entries: seq<Entry>, last: EntryId): Option<EntryId> {
    if entries == [] then None
    else if Before(last, entries[0].id) then Some(entries[0].id) else NextUndelivered(entries[1..], last)
  }

  function DoDeliver(s: State, g: nat): State {
    if g >= |s.queue.groups| then s
    else
      var group := s.queue.groups[g];
      var id := NextUndelivered(s.queue.entries, group.lastDelivered);
      if id.None? then s
      else
        var next := group.(lastDelivered := id.value, pending := group.pending + [id.value]);
        s.(queue := s.queue.(groups := s.queue.groups[g := next]))
  }

  function Without(ids: seq<EntryId>, id: EntryId): seq<EntryId> {
    if ids == [] then [] else if ids[0] == id then ids[1..] else [ids[0]] + Without(ids[1..], id)
  }

  function DoAcknowledge(s: State, g: nat, id: EntryId): State {
    if g >= |s.queue.groups| then s
    else
      var group := s.queue.groups[g];
      s.(queue := s.queue.(groups := s.queue.groups[g := group.(pending := Without(group.pending, id))]))
  }

  function Next(limit: nat, s: State, step: Step): State {
    match step
    case CreateRow(jobId) => if jobId in s.rows then s else s.(rows := s.rows[jobId := Row(false, false)])
    case Begin(jobId) => DoBegin(s, jobId)
    case Execute(jobId, clock) => DoExecute(s, jobId, limit, clock)
    case Commit(jobId) => DoCommit(s, jobId)
    case Rollback(jobId) => s.(open := s.open - {jobId})
    case DropMarker(jobId) => DoDropMarker(s, jobId)
    case MarkCleaned(jobId) => DoMarkCleaned(s, jobId)
    case CreateGroup => DoCreateGroup(s)
    case Deliver(g) => DoDeliver(s, g)
    case Acknowledge(g, id) => DoAcknowledge(s, g, id)
  }

  function Run(limit: nat, s: State, steps: seq<Step>): State {
    if steps == [] then s else Next(limit, Run(limit, s, steps[..|steps| - 1]), steps[|steps| - 1])
  }

  const EMPTY := State(Queue([], [], EntryId(0, 0), map[]), map[], map[], {}, [])

  /** The script runs for a job that is committed as published and whose marker is gone. */
  predicate Stale(s: State, step: Step) {
    step.Execute? && Published(s, step.jobId) && step.jobId !in s.queue.markers
  }

  /** A script that arrives so late and finds room in the stream. */
  predicate Duplicates(limit: nat, s: State, step: Step) { Stale(s, step) && Appends(s, step.jobId, limit) }

  predicate DuplicatesAt(limit: nat, steps: seq<Step>, k: nat) {
    k < |steps| && Duplicates(limit, Run(limit, EMPTY, steps[..k]), steps[k])
  }

  predicate NeverDuplicates(limit: nat, steps: seq<Step>) {
    forall k | 0 <= k < |steps| :: !DuplicatesAt(limit, steps, k)
  }

  // ---- invariants ----

  ghost predicate IsAppended(appended: seq<Entry>, jobId: string) {
    exists i | 0 <= i < |appended| :: appended[i].jobId == jobId
  }

  ghost predicate OnceEach(appended: seq<Entry>) {
    forall i, j | 0 <= i < j < |appended| :: appended[i].jobId != appended[j].jobId
  }

  /** The stream holds the newest of the entries ever appended. */
  ghost predicate Suffix(q: Queue, appended: seq<Entry>) {
    && |q.entries| <= |appended| && q.entries == appended[|appended| - |q.entries|..]
    && AscendingEntries(appended) && UpTo(appended, q.lastId)
  }

  /** What is no longer stored was delivered to the group and acknowledged by it. */
  ghost predicate Served(g: Group, gone: seq<Entry>) {
    g.late || forall i | 0 <= i < |gone| :: !Needs(g, gone[i].id)
  }

  ghost predicate NothingLost(groups: seq<Group>, gone: seq<Entry>) {
    && (groups == [] ==> gone == [])
    && forall g | 0 <= g < |groups| :: Served(groups[g], gone)
  }

  function Gone(q: Queue, appended: seq<Entry>): seq<Entry>
    requires |q.entries| <= |appended|
  {
    appended[..|appended| - |q.entries|]
  }

  ghost predicate QueueInv(limit: nat, q: Queue, appended: seq<Entry>) {
    && Valid(q) && |q.entries| <= limit
    && Suffix(q, appended) && NothingLost(q.groups, Gone(q, appended))
  }

  ghost predicate MarkersTrue(markers: map<string, EntryId>, appended: seq<Entry>) {
    forall jobId | jobId in markers :: IsAppended(appended, jobId)
  }

  ghost predicate RowsTrue(rows: map<string, Row>, open: map<string, Option<EntryId>>, appended: seq<Entry>) {
    && (forall jobId | jobId in rows && rows[jobId].published :: IsAppended(appended, jobId))
    && (forall jobId | jobId in open && open[jobId].Some? :: IsAppended(appended, jobId))
  }

  predicate RowPublished(rows: map<string, Row>, jobId: string) { jobId in rows && rows[jobId].published }

  /** Until the row is committed as published, an appended job keeps its marker. */
  ghost predicate MarkedUntilPublished(markers: map<string, EntryId>, rows: map<string, Row>, appended: seq<Entry>) {
    forall i | 0 <= i < |appended| :: appended[i].jobId in markers || RowPublished(rows, appended[i].jobId)
  }

  /** What markers, rows and open transactions say was appended was. */
  ghost predicate BooksTrue(s: State) {
    MarkersTrue(s.queue.markers, s.appended) && RowsTrue(s.rows, s.open, s.appended)
  }

  ghost predicate Inv(limit: nat, s: State) { QueueInv(limit, s.queue, s.appended) && BooksTrue(s) }

  /** No job twice, and none that could be queued again unnoticed. */
  ghost predicate Single(s: State) {
    OnceEach(s.appended) && MarkedUntilPublished(s.queue.markers, s.rows, s.appended)
  }

  lemma AppendedStays(appended: seq<Entry>, e: Entry, jobId: string)
    ensures IsAppended(appended + [e], jobId) <==> IsAppended(appended, jobId) || jobId == e.jobId
  {
    assert (appended + [e])[|appended|] == e;
    if IsAppended(appended, jobId) {
      var i :| 0 <= i < |appended| && appended[i].jobId == jobId;
      assert (appended + [e])[i] == appended[i];
    }
  }

  lemma BooksAfterAppend(markers: map<string, EntryId>, rows: map<string, Row>, open: map<string, Option<EntryId>>,
                         appended: seq<Entry>, e: Entry)
    requires MarkersTrue(markers, appended) && RowsTrue(rows, open, appended)
    ensures MarkersTrue(markers[e.jobId := e.id], appended + [e]) && RowsTrue(rows, open, appended + [e])
    ensures RowsTrue(rows, open[e.jobId := Some(e.id)], appended + [e])
  {
    forall jobId
      ensures IsAppended(appended + [e], jobId) <==> IsAppended(appended, jobId) || jobId == e.jobId
    {
      AppendedStays(appended, e, jobId);
    }
  }

  /** A job without a marker whose row is not published has not been appended. */
  lemma SingleAfterAppend(markers: map<string, EntryId>, rows: map<string, Row>, appended: seq<Entry>, e: Entry)
    requires OnceEach(appended) && MarkedUntilPublished(markers, rows, appended)
    requires e.jobId !in markers && !RowPublished(rows, e.jobId)
    ensures OnceEach(appended + [e]) && MarkedUntilPublished(markers[e.jobId := e.id], rows, appended + [e])
  {
  }

  /** Entries trimmed away were needed by no group that was there from the start. */
  lemma TrimLosesNothing(limit: nat, q: Queue, appended: seq<Entry>)
    requires QueueInv(limit, q, appended)
    ensures QueueInv(limit, q.(entries := Trimmed(q)), appended)
  {
    TrimmedIsSuffix(q);
    TrimKeepsGroups(q);
    var gone := appended[..|appended| - |Trimmed(q)|];
    forall g | 0 <= g < |q.groups|
      ensures Served(q.groups[g], gone)
    {
      if !q.groups[g].late {
        forall i | 0 <= i < |gone|
          ensures !Needs(q.groups[g], gone[i].id)
        {
          TrimmedIsUnneeded(q, appended, g, i);
        }
      }
    }
  }

  /** What is gone after trimming was gone before, or nobody needs it. */
  lemma TrimmedIsUnneeded(q: Queue, appended: seq<Entry>, g: nat, i: nat)
    requires Valid(q) && Suffix(q, appended) && |Trimmed(q)| <= |q.entries|
    requires g < |q.groups| && Served(q.groups[g], Gone(q, appended)) && !q.groups[g].late
    requires i < |appended| - |Trimmed(q)|
    ensures !Needs(q.groups[g], appended[i].id)
  {
    var start := |appended| - |q.entries|;
    if i < start {
      assert Gone(q, appended)[i] == appended[i];
    } else if Needs(q.groups[g], appended[i].id) {
      assert q.entries[i - start] == appended[i];
      TrimKeepsNeeded(q, i - start, g);
    }
  }

  /** Appending below the limit keeps the stream in order and everything already gone unneeded. */
  lemma AppendKeepsQueue(limit: nat, q: Queue, appended: seq<Entry>, e: Entry, markers: map<string, EntryId>)
    requires QueueInv(limit, q, appended) && Before(q.lastId, e.id) && |q.entries| < limit
    ensures QueueInv(limit, Queue(q.entries + [e], q.groups, e.id, markers), appended + [e])
  {
    AppendKeepsGroups(q.groups, q.entries, q.lastId, e);
    var next := Queue(q.entries + [e], q.groups, e.id, markers);
    assert Gone(next, appended + [e]) == Gone(q, appended);
  }

  lemma ExecuteKeepsQueue(limit: nat, s: State, jobId: string, clock: nat)
    requires QueueInv(limit, s.queue, s.appended)
    ensures var t := DoExecute(s, jobId, limit, clock); QueueInv(limit, t.queue, t.appended)
  {
    var q := s.queue;
    if jobId in s.sent && jobId !in q.markers {
      TrimLosesNothing(limit, q, s.appended);
      if |Trimmed(q)| < limit {
        var id := NextId(q, clock);
        AppendKeepsQueue(limit, q.(entries := Trimmed(q)), s.appended, Entry(id, jobId), q.markers[jobId := id]);
      }
    }
  }

  lemma ExecuteKeepsBooks(limit: nat, s: State, jobId: string, clock: nat)
    requires BooksTrue(s)
    ensures BooksTrue(DoExecute(s, jobId, limit, clock))
  {
    if Appends(s, jobId, limit) {
      BooksAfterAppend(s.queue.markers, s.rows, s.open, s.appended, Entry(NextId(s.queue, clock), jobId));
    }
  }

  lemma ExecuteKeepsSingle(limit: nat, s: State, jobId: string, clock: nat)
    requires Single(s) && !Duplicates(limit, s, Execute(jobId, clock))
    ensures Single(DoExecute(s, jobId, limit, clock))
  {
    if Appends(s, jobId, limit) {
      SingleAfterAppend(s.queue.markers, s.rows, s.appended, Entry(NextId(s.queue, clock), jobId));
    }
  }

  lemma UndeliveredIsStored(entries: seq<Entry>, last: EntryId)
    ensures var id := NextUndelivered(entries, last);
            id.Some? ==> Stored(entries, id.value) && Before(last, id.value)
  {
    if entries != [] && !Before(last, entries[0].id) {
      UndeliveredIsStored(entries[1..], last);
      if NextUndelivered(entries, last).Some? {
        var i :| 0 <= i < |entries[1..]| && entries[1..][i].id == NextUndelivered(entries, last).value;
        assert entries[i + 1] == entries[1..][i];
      }
    }
  }

  lemma DeliverKeepsQueue(limit: nat, s: State, g: nat)
    requires QueueInv(limit, s.queue, s.appended)
    ensures QueueInv(limit, DoDeliver(s, g).queue, s.appended)
  {
    if g < |s.queue.groups| {
      var group := s.queue.groups[g];
      UndeliveredIsStored(s.queue.entries, group.lastDelivered);
      var id := NextUndelivered(s.queue.entries, group.lastDelivered);
      if id.Some? {
        var next := group.(lastDelivered := id.value, pending := group.pending + [id.value]);
        assert ValidGroup(group, s.queue.entries, s.queue.lastId) && Served(group, Gone(s.queue, s.appended));
        DeliveredGroup(s, group, next, id.value);
        GroupReplaced(limit, s.queue, s.appended, g, next);
      }
    }
  }

  lemma DeliveredGroup(s: State, group: Group, next: Group, id: EntryId)
    requires Suffix(s.queue, s.appended) && UpTo(s.queue.entries, s.queue.lastId)
    requires ValidGroup(group, s.queue.entries, s.queue.lastId) && Served(group, Gone(s.queue, s.appended))
    requires Stored(s.queue.entries, id) && Before(group.lastDelivered, id)
    requires next == group.(lastDelivered := id, pending := group.pending + [id])
    ensures ValidGroup(next, s.queue.entries, s.queue.lastId) && Served(next, Gone(s.queue, s.appended))
  {
    var k :| 0 <= k < |s.queue.entries| && s.queue.entries[k].id == id;
    var start := |s.appended| - |s.queue.entries|;
    assert s.appended[start + k].id == id;
    if !group.late {
      forall i | 0 <= i < |Gone(s.queue, s.appended)|
        ensures !Needs(next, Gone(s.queue, s.appended)[i].id)
      {
        assert !Needs(group, Gone(s.queue, s.appended)[i].id) && Before(s.appended[i].id, s.appended[start + k].id);
      }
    }
  }

  lemma {:induction false} WithoutKeeps(ids: seq<EntryId>, id: EntryId)
    requires Ascending(ids)
    ensures Ascending(Without(ids, id))
    ensures forall other :: other in Without(ids, id) <==> other in ids && other != id
  {
    if ids != [] && ids[0] != id {
      WithoutKeeps(ids[1..], id);
      var rest := Without(ids[1..], id);
      forall j | 0 <= j < |rest|
        ensures Before(ids[0], rest[j])
      {
        assert rest[j] in ids[1..];
      }
    } else if ids != [] {
      assert forall other :: other in ids ==> other == ids[0] || other in ids[1..];
    }
  }

  lemma AcknowledgeKeepsQueue(limit: nat, s: State, g: nat, id: EntryId)
    requires QueueInv(limit, s.queue, s.appended)
    ensures QueueInv(limit, DoAcknowledge(s, g, id).queue, s.appended)
  {
    if g < |s.queue.groups| {
      var group := s.queue.groups[g];
      assert ValidGroup(group, s.queue.entries, s.queue.lastId) && Served(group, Gone(s.queue, s.appended));
      WithoutKeeps(group.pending, id);
      var next := group.(pending := Without(group.pending, id));
      forall p | 0 <= p < |next.pending|
        ensures AtMost(next.pending[p], next.lastDelivered) && Stored(s.queue.entries, next.pending[p])
      {
        assert next.pending[p] in group.pending;
      }
      GroupReplaced(limit, s.queue, s.appended, g, next);
    }
  }

  lemma GroupReplaced(limit: nat, q: Queue, appended: seq<Entry>, g: nat, next: Group)
    requires QueueInv(limit, q, appended) && g < |q.groups|
    requires ValidGroup(next, q.entries, q.lastId) && Served(next, Gone(q, appended))
    ensures QueueInv(limit, q.(groups := q.groups[g := next]), appended)
  {
  }

  lemma GroupAdded(groups: seq<Group>, g: Group, entries: seq<Entry>, lastId: EntryId, gone: seq<Entry>)
    requires ValidGroups(groups, entries, lastId) && NothingLost(groups, gone)
    requires ValidGroup(g, entries, lastId) && Served(g, gone)
    ensures ValidGroups(groups + [g], entries, lastId) && NothingLost(groups + [g], gone)
  {
  }

  lemma NewGroupFits(q: Queue, appended: seq<Entry>)
    requires |q.entries| <= |appended|
    ensures ValidGroup(NewGroup(q, appended), q.entries, q.lastId) && Served(NewGroup(q, appended), Gone(q, appended))
  {
  }

  lemma WithGroup(limit: nat, q: Queue, g: Group, appended: seq<Entry>)
    requires QueueInv(limit, q, appended) && ValidGroup(g, q.entries, q.lastId) && Served(g, Gone(q, appended))
    ensures QueueInv(limit, q.(groups := q.groups + [g]), appended)
  {
    GroupAdded(q.groups, g, q.entries, q.lastId, Gone(q, appended));
  }

  lemma CreateGroupKeepsQueue(limit: nat, s: State)
    requires QueueInv(limit, s.queue, s.appended)
    ensures QueueInv(limit, DoCreateGroup(s).queue, s.appended)
  {
    NewGroupFits(s.queue, s.appended);
    WithGroup(limit, s.queue, NewGroup(s.queue, s.appended), s.appended);
  }

  lemma DropMarkerKeepsQueue(limit: nat, s: State, jobId: string)
    requires QueueInv(limit, s.queue, s.appended)
    ensures QueueInv(limit, DoDropMarker(s, jobId).queue, s.appended)
  {
    assert Gone(DoDropMarker(s, jobId).queue, s.appended) == Gone(s.queue, s.appended);
  }

  lemma NextKeepsQueue(limit: nat, s: State, step: Step)
    requires QueueInv(limit, s.queue, s.appended)
    ensures var t := Next(limit, s, step); QueueInv(limit, t.queue, t.appended)
  {
    match step
    case Execute(jobId, clock) => ExecuteKeepsQueue(limit, s, jobId, clock);
    case DropMarker(jobId) => DropMarkerKeepsQueue(limit, s, jobId);
    case CreateGroup => CreateGroupKeepsQueue(limit, s);
    case Deliver(g) => DeliverKeepsQueue(limit, s, g);
    case Acknowledge(g, id) => AcknowledgeKeepsQueue(limit, s, g, id);
    case _ =>
  }

  lemma NextKeepsBooks(limit: nat, s: State, step: Step)
    requires BooksTrue(s)
    ensures BooksTrue(Next(limit, s, step))
  {
    if step.Execute? {
      ExecuteKeepsBooks(limit, s, step.jobId, step.clock);
    }
  }

  lemma NextKeepsSingle(limit: nat, s: State, step: Step)
    requires Single(s) && !Duplicates(limit, s, step)
    ensures Single(Next(limit, s, step))
  {
    if step.Execute? {
      ExecuteKeepsSingle(limit, s, step.jobId, step.clock);
    }
  }

  lemma {:induction false} EmptyInv(limit: nat)
    ensures Inv(limit, EMPTY) && Single(EMPTY)
  {
    assert Gone(EMPTY.queue, []) == [];
  }

  /** Stream and books are right after every run, late scripts included. */
  lemma {:induction false} RunKeepsInv(limit: nat, s: State, steps: seq<Step>)
    requires Inv(limit, s)
    ensures Inv(limit, Run(limit, s, steps))
  {
    if steps != [] {
      var before := Run(limit, s, steps[..|steps| - 1]);
      RunKeepsInv(limit, s, steps[..|steps| - 1]);
      NextKeepsQueue(limit, before, steps[|steps| - 1]);
      NextKeepsBooks(limit, before, steps[|steps| - 1]);
    }
  }

  lemma ReachableInv(limit: nat, steps: seq<Step>)
    ensures Inv(limit, Run(limit, EMPTY, steps))
  {
    EmptyInv(limit);
    RunKeepsInv(limit, EMPTY, steps);
  }

  // ---- guarantees ----

  lemma AppendedOnlyGrows(limit: nat, s: State, step: Step)
    ensures s.appended <= Next(limit, s, step).appended
    ensures OnceEach(Next(limit, s, step).appended) ==> OnceEach(s.appended)
  {
    var after := Next(limit, s, step).appended;
    assert forall i | 0 <= i < |s.appended| :: after[i] == s.appended[i];
  }

  /** A late script that finds room queues its job again. */
  lemma DuplicateIsSecond(limit: nat, s: State, step: Step)
    requires BooksTrue(s) && Duplicates(limit, s, step)
    ensures !OnceEach(Next(limit, s, step).appended)
  {
    assert IsAppended(s.appended, step.jobId);
    var i :| 0 <= i < |s.appended| && s.appended[i].jobId == step.jobId;
    var appended := Next(limit, s, step).appended;
    assert appended[i].jobId == appended[|s.appended|].jobId;
  }

  lemma NeverDuplicatesSplit(limit: nat, steps: seq<Step>)
    requires steps != []
    ensures var n := |steps| - 1;
            NeverDuplicates(limit, steps) <==>
            NeverDuplicates(limit, steps[..n]) && !Duplicates(limit, Run(limit, EMPTY, steps[..n]), steps[n])
  {
    var n := |steps| - 1;
    forall k | 0 <= k < n
      ensures DuplicatesAt(limit, steps, k) <==> DuplicatesAt(limit, steps[..n], k)
    {
      assert steps[..n][..k] == steps[..k];
    }
    assert DuplicatesAt(limit, steps, n) <==> Duplicates(limit, Run(limit, EMPTY, steps[..n]), steps[n]);
  }

  lemma {:induction false} OnceUnlessDuplicated(limit: nat, steps: seq<Step>)
    ensures OnceEach(Run(limit, EMPTY, steps).appended) <==> NeverDuplicates(limit, steps)
    ensures NeverDuplicates(limit, steps) ==> Single(Run(limit, EMPTY, steps))
  {
    if steps == [] {
      EmptyInv(limit);
    } else {
      var n := |steps| - 1;
      var before := Run(limit, EMPTY, steps[..n]);
      OnceUnlessDuplicated(limit, steps[..n]);
      NeverDuplicatesSplit(limit, steps);
      AppendedOnlyGrows(limit, before, steps[n]);
      ReachableInv(limit, steps[..n]);
      if Duplicates(limit, before, steps[n]) {
        DuplicateIsSecond(limit, before, steps[n]);
      } else if NeverDuplicates(limit, steps[..n]) {
        NextKeepsSingle(limit, before, steps[n]);
      }
    }
  }

  /**
    The marker is no full protection: some job is queued twice exactly when a script
    arrives after its row was published and its marker cleaned while the stream has room.
   */
  lemma DuplicatesExactlyWhenStale(limit: nat, steps: seq<Step>)
    ensures !OnceEach(Run(limit, EMPTY, steps).appended) <==>
            exists k | 0 <= k < |steps| :: DuplicatesAt(limit, steps, k)
  {
    OnceUnlessDuplicated(limit, steps);
  }

  /**
    Across crashes, rollbacks, lost replies, late scripts and marker cleanup: the stream
    stays bounded, a job committed as published or marked was queued, and no job is
    queued twice unless a late script finds room.
   */
  lemma EachJobIsQueuedOnce(limit: nat, steps: seq<Step>)
    ensures var s := Run(limit, EMPTY, steps);
            && |s.queue.entries| <= limit
            && (forall jobId | Published(s, jobId) || jobId in s.queue.markers :: IsAppended(s.appended, jobId))
            && (NeverDuplicates(limit, steps) ==> OnceEach(s.appended))
  {
    ReachableInv(limit, steps);
    OnceUnlessDuplicated(limit, steps);
  }

  lemma NeededIsStored(limit: nat, s: State, i: nat, g: nat)
    requires Inv(limit, s) && i < |s.appended| && g < |s.queue.groups| && !s.queue.groups[g].late
    ensures Needs(s.queue.groups[g], s.appended[i].id) ==> s.appended[i] in s.queue.entries
  {
    assert Served(s.queue.groups[g], Gone(s.queue, s.appended));
    var start := |s.appended| - |s.queue.entries|;
    if i < start {
      assert !Needs(s.queue.groups[g], Gone(s.queue, s.appended)[i].id);
    } else {
      assert s.queue.entries[i - start] == s.appended[i];
    }
  }

  /** An entry leaves the stream only after every group that was there in time has acknowledged it. */
  lemma NoEntryIsLost(limit: nat, steps: seq<Step>, i: nat, g: nat)
    requires var s := Run(limit, EMPTY, steps); i < |s.appended| && g < |s.queue.groups| && !s.queue.groups[g].late
    ensures var s := Run(limit, EMPTY, steps);
            Needs(s.queue.groups[g], s.appended[i].id) ==> s.appended[i] in s.queue.entries
  {
    ReachableInv(limit, steps);
    NeededIsStored(limit, Run(limit, EMPTY, steps), i, g);
  }

  /** The entries after a step hold those before it that the script does not trim. */
  lemma UntrimmedStays(limit: nat, s: State, step: Step, e: Entry)
    requires e in s.queue.entries && (step.Execute? ==> e in Trimmed(s.queue))
    ensures e in Next(limit, s, step).queue.entries
  {
  }

  /** A group comes to need no entry that it did not need before. */
  lemma NeedsOnlyShrink(limit: nat, s: State, step: Step, g: nat, id: EntryId)
    requires QueueInv(limit, s.queue, s.appended) && g < |s.queue.groups|
    ensures var t := Next(limit, s, step);
            g < |t.queue.groups| && (Needs(t.queue.groups[g], id) ==> Needs(s.queue.groups[g], id))
  {
    match step
    case Deliver(h) =>
      if h < |s.queue.groups| {
        UndeliveredIsStored(s.queue.entries, s.queue.groups[h].lastDelivered);
      }
    case Acknowledge(h, other) =>
      if h < |s.queue.groups| {
        assert ValidGroup(s.queue.groups[h], s.queue.entries, s.queue.lastId);
        WithoutKeeps(s.queue.groups[h].pending, other);
      }
    case _ =>
  }

  lemma NeededSurvivesStep(limit: nat, s: State, step: Step, e: Entry, g: nat)
    requires QueueInv(limit, s.queue, s.appended) && e in s.queue.entries && g < |s.queue.groups|
    requires Needs(s.queue.groups[g], e.id)
    ensures e in Next(limit, s, step).queue.entries
  {
    var i: nat :| i < |s.queue.entries| && s.queue.entries[i] == e;
    TrimKeepsNeeded(s.queue, i, g);
    UntrimmedStays(limit, s, step, e);
  }

  lemma {:induction false} NeededSurvives(limit: nat, s: State, steps: seq<Step>, e: Entry, g: nat)
    requires Inv(limit, s) && e in s.queue.entries && g < |s.queue.groups|
    ensures var t := Run(limit, s, steps);
            g < |t.queue.groups| && (Needs(t.queue.groups[g], e.id) ==>
                                     Needs(s.queue.groups[g], e.id) && e in t.queue.entries)
  {
    if steps != [] {
      var n := |steps| - 1;
      var before := Run(limit, s, steps[..n]);
      NeededSurvives(limit, s, steps[..n], e, g);
      RunKeepsInv(limit, s, steps[..n]);
      NeedsOnlyShrink(limit, before, steps[n], g, e.id);
      if Needs(before.queue.groups[g], e.id) {
        NeededSurvivesStep(limit, before, steps[n], e, g);
      }
    }
  }

  /** Late or not: an entry stored now that a group still needs after any further steps is still stored then. */
  lemma StoredWhileNeeded(limit: nat, first: seq<Step>, steps: seq<Step>, e: Entry, g: nat)
    requires var s := Run(limit, EMPTY, first); e in s.queue.entries && g < |s.queue.groups|
    ensures var t := Run(limit, Run(limit, EMPTY, first), steps);
            g < |t.queue.groups| && (Needs(t.queue.groups[g], e.id) ==> e in t.queue.entries)
  {
    ReachableInv(limit, first);
    NeededSurvives(limit, Run(limit, EMPTY, first), steps, e, g);
  }

  lemma NothingGoneBeforeGroups(limit: nat, s: State)
    requires Inv(limit, s)
    ensures s.queue.groups == [] ==> |s.queue.entries| == |s.appended|
  {
    assert s.queue.groups == [] ==> Gone(s.queue, s.appended) == [];
  }

  /** The first group is never late. */
  lemma FirstGroupIsInTime(limit: nat, steps: seq<Step>)
    requires Run(limit, EMPTY, steps).queue.groups == []
    ensures var s := DoCreateGroup(Run(limit, EMPTY, steps)); !s.queue.groups[0].late
  {
    ReachableInv(limit, steps);
    NothingGoneBeforeGroups(limit, Run(limit, EMPTY, steps));
  }

  /** Assigned ids are above the one a new group starts from. */
  lemma {:induction false} IdsAreAboveZero(limit: nat, steps: seq<Step>)
    ensures forall e | e in Run(limit, EMPTY, steps).appended :: Before(EntryId(0, 0), e.id)
  {
    if steps != [] {
      IdsAreAboveZero(limit, steps[..|steps| - 1]);
    }
  }

  ghost predicate MissesEntry(s: State, g: Group) {
    exists e | e in s.appended :: Needs(g, e.id) && e !in s.queue.entries
  }

  /** A new group misses an entry exactly when the stream holds fewer entries than were ever added. */
  lemma NewGroupMissesExactlyWhenTrimmed(limit: nat, steps: seq<Step>)
    ensures var s := Run(limit, EMPTY, steps);
            var t := DoCreateGroup(s);
            MissesEntry(t, t.queue.groups[|s.queue.groups|]) <==> |s.queue.entries| < |s.appended|
  {
    ReachableInv(limit, steps);
    IdsAreAboveZero(limit, steps);
    var s := Run(limit, EMPTY, steps);
    if |s.queue.entries| < |s.appended| {
      OldestIsGone(s.queue, s.appended);
      assert s.appended[0] in s.appended;
    } else {
      assert s.queue.entries == s.appended;
    }
  }

  lemma OldestIsGone(q: Queue, appended: seq<Entry>)
    requires Suffix(q, appended) && |q.entries| < |appended|
    ensures appended[0] !in q.entries
  {
    var start := |appended| - |q.entries|;
    assert forall i | 0 <= i < |q.entries| :: q.entries[i] == appended[start + i];
  }

  lemma RunOneMore(limit: nat, s: State, steps: seq<Step>, step: Step)
    ensures Run(limit, s, steps + [step]) == Next(limit, Run(limit, s, steps), step)
  {
    assert (steps + [step])[..|steps|] == steps;
  }

  lemma RunThree(limit: nat, s: State, a: Step, b: Step, c: Step)
    ensures Run(limit, s, [a, b, c]) == Next(limit, Next(limit, Next(limit, s, a), b), c)
  {
    RunOneMore(limit, s, [], a);
    RunOneMore(limit, s, [a], b);
    RunOneMore(limit, s, [a, b], c);
    assert [] + [a] == [a] && [a] + [b] == [a, b] && [a, b] + [c] == [a, b, c];
  }

  lemma {:induction false} RunOn(limit: nat, s: State, first: seq<Step>, more: seq<Step>)
    ensures Run(limit, s, first + more) == Run(limit, Run(limit, s, first), more)
  {
    if more == [] {
      assert first + more == first;
    } else {
      var last := |more| - 1;
      RunOn(limit, s, first, more[..last]);
      RunOneMore(limit, s, first + more[..last], more[last]);
      assert first + more == first + more[..last] + [more[last]];
    }
  }

  const QUEUE_FIRST: seq<Step> := [CreateRow("a"), Begin("a"), Execute("a", 1)]

  const READ_FIRST: seq<Step> := [CreateGroup, Deliver(0), Acknowledge(0, EntryId(1, 0))]

  const QUEUE_SECOND: seq<Step> := [CreateRow("b"), Begin("b"), Execute("b", 2)]

  /** A group that comes when the first one has acknowledged a job does not get that job. */
  lemma LateGroupMissesAJob(limit: nat)
    requires limit >= 1
    ensures var t := DoCreateGroup(Run(limit, EMPTY, QUEUE_FIRST + READ_FIRST + QUEUE_SECOND));
            |t.queue.groups| == 2 && MissesEntry(t, t.queue.groups[1])
  {
    var e, f := Entry(EntryId(1, 0), "a"), Entry(EntryId(2, 0), "b");
    var first := EMPTY.(queue := Queue([e], [], e.id, map["a" := e.id]), rows := map["a" := Row(false, false)],
                        open := map["a" := Some(e.id)], sent := {"a"}, appended := [e]);
    var read := first.(queue := first.queue.(groups := [Group(e.id, [], false)]));
    FirstIsQueued(limit, first);
    FirstIsRead(limit, first, read);
    SecondIsQueued(limit, read);
    RunOn(limit, EMPTY, QUEUE_FIRST, READ_FIRST);
    RunOn(limit, EMPTY, QUEUE_FIRST + READ_FIRST, QUEUE_SECOND);
    var t := DoCreateGroup(Run(limit, EMPTY, QUEUE_FIRST + READ_FIRST + QUEUE_SECOND));
    assert t.queue.entries == [f] && t.appended == [e, f];
    assert e in t.appended && e !in t.queue.entries;
  }

  lemma FirstIsQueued(limit: nat, first: State)
    requires limit >= 1
    requires var e := Entry(EntryId(1, 0), "a");
             first == EMPTY.(queue := Queue([e], [], e.id, map["a" := e.id]), rows := map["a" := Row(false, false)],
                             open := map["a" := Some(e.id)], sent := {"a"}, appended := [e])
    ensures Run(limit, EMPTY, QUEUE_FIRST) == first
  {
    RunThree(limit, EMPTY, CreateRow("a"), Begin("a"), Execute("a", 1));
    var begun := Next(limit, Next(limit, EMPTY, CreateRow("a")), Begin("a"));
    assert begun == EMPTY.(rows := map["a" := Row(false, false)], open := map["a" := None], sent := {"a"});
    assert Trimmed(begun.queue) == [];
  }

  lemma FirstIsRead(limit: nat, first: State, read: State)
    requires first.queue == Queue([Entry(EntryId(1, 0), "a")], [], EntryId(1, 0), map["a" := EntryId(1, 0)])
    requires |first.appended| == 1
    requires read == first.(queue := first.queue.(groups := [Group(EntryId(1, 0), [], false)]))
    ensures Run(limit, first, READ_FIRST) == read
  {
    RunThree(limit, first, CreateGroup, Deliver(0), Acknowledge(0, EntryId(1, 0)));
    var grouped := Next(limit, first, CreateGroup);
    assert grouped.queue.groups == [Group(EntryId(0, 0), [], false)];
    assert NextUndelivered(grouped.queue.entries, EntryId(0, 0)) == Some(EntryId(1, 0));
    var delivered := Next(limit, grouped, Deliver(0));
    assert [] + [EntryId(1, 0)] == [EntryId(1, 0)];
    assert delivered.queue.groups == [Group(EntryId(1, 0), [EntryId(1, 0)], false)];
    assert Without([EntryId(1, 0)], EntryId(1, 0)) == [];
  }

  lemma SecondIsQueued(limit: nat, read: State)
    requires limit >= 1 && "b" !in read.rows && "b" !in read.open && "b" !in read.queue.markers
    requires read.queue.entries == read.appended == [Entry(EntryId(1, 0), "a")] && read.queue.lastId == EntryId(1, 0)
    requires read.queue.groups == [Group(EntryId(1, 0), [], false)]
    ensures var s := Run(limit, read, QUEUE_SECOND);
            && s.queue.entries == [Entry(EntryId(2, 0), "b")] && s.queue.groups == read.queue.groups
            && s.appended == [Entry(EntryId(1, 0), "a"), Entry(EntryId(2, 0), "b")]
  {
    RunThree(limit, read, CreateRow("b"), Begin("b"), Execute("b", 2));
    var begun := Next(limit, Next(limit, read, CreateRow("b")), Begin("b"));
    assert begun.queue == read.queue && "b" in begun.sent;
    assert Floor(read.queue.groups[..0]) == None && Floor(read.queue.groups) == Some(EntryId(1, 1));
    assert TrimBelow(read.queue.entries[1..], EntryId(1, 1)) == [];
    assert Trimmed(begun.queue) == [];
  }

  /**
    A script whose caller gave up after its timeout, that only runs once a retry was
    committed and its marker removed, does queue the job twice.
   */
  lemma LateScriptQueuesTwice(limit: nat)
    requires limit >= 2
    ensures var steps := [CreateRow("job"), Begin("job"), Rollback("job"), Begin("job"), Execute("job", 1),
                          Commit("job"), DropMarker("job"), Execute("job", 2)];
            !OnceEach(Run(limit, EMPTY, steps).appended)
  {
    var steps := [CreateRow("job"), Begin("job"), Rollback("job"), Begin("job"), Execute("job", 1),
                  Commit("job"), DropMarker("job"), Execute("job", 2)];
    RetryCommits(limit, steps);
    RunPrefix(limit, steps, 8);
    assert steps[..8] == steps;
    var appended := Run(limit, EMPTY, steps).appended;
    assert appended[0].jobId == appended[1].jobId;
  }

  lemma RetryCommits(limit: nat, steps: seq<Step>)
    requires limit >= 2
    requires |steps| >= 7 && steps[..7] == [CreateRow("job"), Begin("job"), Rollback("job"), Begin("job"),
                                            Execute("job", 1), Commit("job"), DropMarker("job")]
    ensures var e := Entry(EntryId(1, 0), "job");
            Run(limit, EMPTY, steps[..7]) ==
            State(Queue([e], [], e.id, map[]), map["job" := Row(true, false)], map[], {"job"}, [e])
  {
    assert steps[..4] == steps[..7][..4];
    assert steps[4] == steps[..7][4] && steps[5] == steps[..7][5] && steps[6] == steps[..7][6];
    RetryExecutes(limit, steps);
    RunPrefix(limit, steps, 6);
    RunPrefix(limit, steps, 7);
  }

  lemma RetryExecutes(limit: nat, steps: seq<Step>)
    requires limit >= 2
    requires |steps| >= 5 && steps[..4] == [CreateRow("job"), Begin("job"), Rollback("job"), Begin("job")]
    requires steps[4] == Execute("job", 1)
    ensures var e := Entry(EntryId(1, 0), "job");
            Run(limit, EMPTY, steps[..5]) ==
            State(Queue([e], [], e.id, map["job" := e.id]), map["job" := Row(false, false)],
                  map["job" := Some(e.id)], {"job"}, [e])
  {
    RetryAfterTimeout(limit, steps);
    RunPrefix(limit, steps, 5);
    assert Run(limit, EMPTY, steps[..5]).queue.entries == [] + [Entry(EntryId(1, 0), "job")];
  }

  lemma RetryAfterTimeout(limit: nat, steps: seq<Step>)
    requires |steps| >= 4 && steps[..4] == [CreateRow("job"), Begin("job"), Rollback("job"), Begin("job")]
    ensures Run(limit, EMPTY, steps[..4]) ==
            EMPTY.(rows := map["job" := Row(false, false)], open := map["job" := None], sent := {"job"})
  {
    assert steps[0] == steps[..4][0] && steps[1] == steps[..4][1] && steps[2] == steps[..4][2] && steps[3] == steps[..4][3];
    FirstTimeout(limit, steps);
    RunPrefix(limit, steps, 3);
    RunPrefix(limit, steps, 4);
  }

  lemma FirstTimeout(limit: nat, steps: seq<Step>)
    requires |steps| >= 2 && steps[0] == CreateRow("job") && steps[1] == Begin("job")
    ensures Run(limit, EMPTY, steps[..2]) ==
            EMPTY.(rows := map["job" := Row(false, false)], open := map["job" := None], sent := {"job"})
  {
    RunPrefix(limit, steps, 1);
    RunPrefix(limit, steps, 2);
    assert Run(limit, EMPTY, steps[..0]) == EMPTY;
  }

  lemma RunPrefix(limit: nat, steps: seq<Step>, n: nat)
    requires 0 < n <= |steps|
    ensures Run(limit, EMPTY, steps[..n]) == Next(limit, Run(limit, EMPTY, steps[..n - 1]), steps[n - 1])
  {
    assert steps[..n][..n - 1] == steps[..n - 1];
  }
}
