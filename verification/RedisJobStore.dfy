/**
  The Redis data the worker scripts operate on, for any number of messages, and
  the scripts themselves in the order of their commands. Each one is proved to
  act on its own message exactly as the transition of JobScripts, and to leave
  the jobs of other runs alone.
 */
module RedisJobStore {
  import opened Wrappers
  import opened RunProjection
  import Scripts = JobScripts

  type MessageId = nat

  const PAGE: nat := 32

  datatype PendingEntry = PendingEntry(id: MessageId, consumer: string, deliveredAt: nat)

  datatype JobFields = JobFields(runId: string, attempt: string)

  ghost predicate SortedById(pel: seq<PendingEntry>) {
    forall i, j | 0 <= i < j < |pel| :: pel[i].id < pel[j].id
  }

  /** The pending entry of one message. */
  function Find(pel: seq<PendingEntry>, id: MessageId): Option<Scripts.Delivery> {
    if pel == [] then None
    else if pel[|pel| - 1].id == id then Some(Scripts.Delivery(pel[|pel| - 1].consumer, pel[|pel| - 1].deliveredAt))
    else Find(pel[..|pel| - 1], id)
  }

  lemma {:induction false} FindAbsent(pel: seq<PendingEntry>, id: MessageId)
    requires forall i | 0 <= i < |pel| :: pel[i].id != id
    ensures Find(pel, id) == None
  {
    if pel != [] {
      FindAbsent(pel[..|pel| - 1], id);
    }
  }

  lemma {:induction false} FindAt(pel: seq<PendingEntry>, i: nat)
    requires SortedById(pel) && i < |pel|
    ensures Find(pel, pel[i].id) == Some(Scripts.Delivery(pel[i].consumer, pel[i].deliveredAt))
  {
    if i < |pel| - 1 {
      FindAt(pel[..|pel| - 1], i);
    }
  }

  lemma {:induction false} FindAfterUpdate(pel: seq<PendingEntry>, i: nat, entry: PendingEntry, id: MessageId)
    requires i < |pel| && entry.id == pel[i].id && id != entry.id
    ensures Find(pel[i := entry], id) == Find(pel, id)
  {
    var last := |pel| - 1;
    if i == last {
      assert pel[i := entry][..last] == pel[..last];
    } else {
      FindAfterUpdate(pel[..last], i, entry, id);
      assert pel[i := entry][..last] == pel[..last][i := entry];
    }
  }

  lemma {:induction false} FindAfterRemoval(pel: seq<PendingEntry>, i: nat, id: MessageId)
    requires i < |pel| && id != pel[i].id
    ensures Find(pel[..i] + pel[i + 1..], id) == Find(pel, id)
  {
    var last, fewer := |pel| - 1, pel[..i] + pel[i + 1..];
    if i == last {
      assert fewer == pel[..last];
    } else {
      FindAfterRemoval(pel[..last], i, id);
      assert pel[..last][..i] == pel[..i] && pel[..last][i + 1..] == pel[i + 1..last];
      assert fewer[..|fewer| - 1] == pel[..i] + pel[i + 1..last];
      assert fewer[|fewer| - 1] == pel[last];
    }
  }

  class Store {
    var entries: map<MessageId, JobFields>
    var pel: seq<PendingEntry>
    var executions: map<MessageId, Scripts.Execution>
    var caches: map<string, Scripts.RunCache>
    var cancels: map<string, string>
    var events: map<string, seq<Event>>

    ghost predicate Valid()
      reads this
    {
      SortedById(pel)
    }

    function CacheOf(runId: string): Scripts.RunCache
      reads this
    {
      if runId in caches then caches[runId] else Scripts.RunCache(None, None)
    }

    function EventsOf(runId: string): seq<Event>
      reads this
    {
      if runId in events then events[runId] else []
    }

    /** Everything the scripts read and write about one message. */
    ghost function Job(id: MessageId): Scripts.JobKeys
      requires id in entries
      reads this
    {
      var runId := entries[id].runId;
      Scripts.JobKeys(
        Find(pel, id),
        if id in executions then Some(executions[id]) else None,
        CacheOf(runId),
        if runId in cancels then Some(cancels[runId]) else None,
        EventsOf(runId))
    }

    /** The jobs of other messages that belong to other runs are as they were. */
    twostate predicate OthersUnchanged(id: MessageId)
      requires id in old(entries)
      reads this
    {
      && entries == old(entries)
      && forall other | other in entries && other != id && entries[other].runId != entries[id].runId ::
           Job(other) == old(Job(other))
    }

    constructor ()
      ensures Valid() && entries == map[]
    {
      entries, pel, executions := map[], [], map[];
      caches, cancels, events := map[], map[], map[];
    }

    /** XPENDING for one message: its position, or -1. */
    method Locate(id: MessageId) returns (position: int)
      requires Valid()
      ensures position < 0 ==> Find(pel, id) == None
      ensures position >= 0 ==> position < |pel| && pel[position].id == id &&
                                Find(pel, id) == Some(Scripts.Delivery(pel[position].consumer, pel[position].deliveredAt))
    {
      for i := 0 to |pel|
        invariant forall k | 0 <= k < i :: pel[k].id != id
      {
        if pel[i].id == id {
          FindAt(pel, i);
          return i;
        }
      }
      FindAbsent(pel, id);
      return -1;
    }

    /** XACK. */
    method Acknowledge(id: MessageId)
      requires Valid()
      modifies this`pel
      ensures Valid()
      ensures forall other :: Find(pel, other) == if other == id then None else old(Find(pel, other))
    {
      var position := Locate(id);
      if position >= 0 {
        forall other | other != id {
          FindAfterRemoval(pel, position, other);
        }
        pel := pel[..position] + pel[position + 1..];
        FindAbsent(pel, id);
      }
    }

    /** A pending entry the reclaim scan must pass over: idle, but its lease still runs. */
    ghost predicate Guarded(entry: PendingEntry, now: nat, minimumIdle: nat)
      reads this
    {
      entry.deliveredAt + minimumIdle <= now ==> UntilMs(entry.id) > now
    }

    predicate IsIdle(entry: PendingEntry, now: nat, minimumIdle: nat) { now >= entry.deliveredAt + minimumIdle }

    predicate After(cursor: Option<MessageId>, id: MessageId) { cursor.None? || id > cursor.value }

    /** HGET until_ms, zero when the hash is missing. */
    function UntilMs(id: MessageId): nat
      reads this
    {
      if id in executions then executions[id].untilMs else 0
    }

    /** Every entry after the cursor, up to the bound when there is one, is guarded. */
    ghost predicate ScannedInVain(cursor: Option<MessageId>, bound: Option<MessageId>, now: nat, minimumIdle: nat)
      reads this
    {
      forall i | 0 <= i < |pel| && After(cursor, pel[i].id) && (bound.None? || pel[i].id <= bound.value) ::
        Guarded(pel[i], now, minimumIdle)
    }

    /** Calls that go on from each other's cursor leave no entry between their pages unseen. */
    lemma PagesJoin(cursor: Option<MessageId>, next: MessageId, bound: Option<MessageId>, now: nat, minimumIdle: nat)
      requires ScannedInVain(cursor, Some(next), now, minimumIdle) && ScannedInVain(Some(next), bound, now, minimumIdle)
      ensures ScannedInVain(cursor, bound, now, minimumIdle)
      ensures cursor.None? && bound.None? ==> forall i | 0 <= i < |pel| :: Guarded(pel[i], now, minimumIdle)
    {
      forall i | 0 <= i < |pel| && After(cursor, pel[i].id) && (bound.None? || pel[i].id <= bound.value)
        ensures Guarded(pel[i], now, minimumIdle)
      {
        assert pel[i].id <= next || After(Some(next), pel[i].id);
      }
    }

    /**
      XPENDING with an idle filter, and the walk over its page: the position of the
      first entry whose lease has run out, or -1. The cursor starts over once the
      page is not full.
     */
    method ScanPage(now: nat, minimumIdle: nat, cursor: Option<MessageId>)
      returns (next: Option<MessageId>, position: int)
      requires Valid()
      ensures position < 0 ==> ScannedInVain(cursor, next, now, minimumIdle)
      ensures next.Some? && cursor.Some? ==> next.value > cursor.value
      ensures position >= 0 ==> position < |pel| && next == Some(pel[position].id)
      ensures position >= 0 ==> IsIdle(pel[position], now, minimumIdle) && UntilMs(pel[position].id) <= now
      ensures position >= 0 ==> forall k | 0 <= k < position && After(cursor, pel[k].id) ::
                                  Guarded(pel[k], now, minimumIdle)
    {
      var seen: nat := 0;
      next := None;
      for i := 0 to |pel|
        invariant seen < PAGE
        invariant next.Some? && cursor.Some? ==> next.value > cursor.value
        invariant forall k | 0 <= k < i && After(cursor, pel[k].id) :: Guarded(pel[k], now, minimumIdle)
      {
        if After(cursor, pel[i].id) && IsIdle(pel[i], now, minimumIdle) {
          seen, next := seen + 1, Some(pel[i].id);
          if UntilMs(pel[i].id) <= now { return next, i; }
          if seen == PAGE { return next, -1; }
        }
      }
      return None, -1;
    }

    /**
      The reclaim script: the first expired entry after the cursor changes hands;
      when there is none the new cursor bounds what has been ruled out.
     */
    method Reclaim(now: nat, consumer: string, minimumIdle: nat, cursor: Option<MessageId>)
      returns (next: Option<MessageId>, claimed: Option<MessageId>)
      requires Valid() && forall i | 0 <= i < |pel| :: pel[i].id in entries
      modifies this`pel
      ensures Valid()
      ensures claimed.None? ==> pel == old(pel) && ScannedInVain(cursor, next, now, minimumIdle)
      ensures cursor.Some? && next.Some? ==> next.value > cursor.value
      ensures claimed.Some? ==> next == claimed && After(cursor, claimed.value) && claimed.value in entries
      ensures claimed.Some? ==> (Job(claimed.value), true) ==
                                Scripts.ReclaimOne(old(Job(claimed.value)), now, consumer, minimumIdle)
      ensures claimed.Some? ==> OthersUnchanged(claimed.value)
      ensures claimed.Some? ==> forall i | 0 <= i < |old(pel)| && After(cursor, old(pel)[i].id) &&
                                           old(pel)[i].id < claimed.value :: old(Guarded(pel[i], now, minimumIdle))
    {
      var position;
      next, position := ScanPage(now, minimumIdle, cursor);
      if position < 0 { return next, None; }
      claimed := next;
      Deliver(position, consumer, now);
    }

    /** XCLAIM of the entry at one position. */
    method Deliver(position: nat, consumer: string, now: nat)
      requires Valid() && position < |pel| && pel[position].id in entries
      modifies this`pel
      ensures Valid() && OthersUnchanged(old(pel)[position].id)
      ensures Job(old(pel)[position].id) ==
              old(Job(pel[position].id)).(pending := Some(Scripts.Delivery(consumer, now)))
      ensures old(Find(pel, pel[position].id)) ==
              Some(Scripts.Delivery(old(pel)[position].consumer, old(pel)[position].deliveredAt))
    {
      FindAt(pel, position);
      var entry := PendingEntry(pel[position].id, consumer, now);
      forall other | other != entry.id {
        FindAfterUpdate(pel, position, entry, other);
      }
      pel := pel[position := entry];
      FindAt(pel, position);
    }

    /** XACK and DEL of the execution hash. */
    method Finish(id: MessageId)
      requires Valid() && id in entries
      modifies this`pel, this`executions
      ensures Valid() && OthersUnchanged(id)
      ensures Job(id) == old(Job(id)).(pending := None, execution := None)
    {
      Acknowledge(id);
      executions := executions - {id};
    }

    /** HSET of the execution hash. */
    method SetExecution(id: MessageId, execution: Scripts.Execution)
      requires Valid() && id in entries
      modifies this`executions
      ensures Valid() && OthersUnchanged(id)
      ensures Job(id) == old(Job(id)).(execution := Some(execution))
    {
      executions := executions[id := execution];
    }

    /** XADD of the event and HSET of the cached run state. */
    method Record(id: MessageId, e: Event)
      requires Valid() && id in entries
      modifies this`caches, this`events
      ensures Valid() && OthersUnchanged(id)
      ensures Job(id) == old(Job(id)).(
                events := old(Job(id)).events + [e],
                cache := Scripts.RunCache(Scripts.CachedStatus(e.kind, old(Job(id)).cache.status), Some(e)))
    {
      var runId := entries[id].runId;
      events := events[runId := EventsOf(runId) + [e]];
      caches := caches[runId := Scripts.RunCache(Scripts.CachedStatus(e.kind, CacheOf(runId).status), Some(e))];
    }

    /** The acquire script's grant: HINCRBY of the generation, then HSET of the rest. */
    method Start(id: MessageId, now: nat, consumer: string, leaseMs: nat) returns (grant: Scripts.Grant)
      requires Valid() && id in entries
      modifies this`executions
      ensures Valid() && OthersUnchanged(id)
      ensures (Job(id), grant) == Scripts.Start(old(Job(id)), now, consumer, leaseMs, entries[id].attempt)
    {
      var generation, sequence := 0, 0;
      if id in executions {
        generation, sequence := executions[id].generation, executions[id].sequence;
      }
      var previous := CacheOf(entries[id].runId).lastEvent;
      if previous.Some? && previous.value.attempt == entries[id].attempt {
        sequence := Scripts.Max(sequence, previous.value.sequence);
      }
      SetExecution(id, Scripts.Execution(generation + 1, consumer, now + leaseMs, sequence));
      grant := Scripts.Grant(generation + 1, sequence);
    }

    /** The acquire script; a finished attempt is acknowledged instead of restarted. */
    method Acquire(id: MessageId, now: nat, consumer: string, leaseMs: nat) returns (grant: Option<Scripts.Grant>)
      requires Valid() && id in entries
      modifies this`pel, this`executions
      ensures Valid() && OthersUnchanged(id)
      ensures (Job(id), grant) == Scripts.Acquire(old(Job(id)), now, consumer, leaseMs, entries[id].attempt)
    {
      var position := Locate(id);
      if position < 0 || pel[position].consumer != consumer || UntilMs(id) > now { return None; }
      var previous := CacheOf(entries[id].runId).lastEvent;
      if previous.Some? && previous.value.attempt == entries[id].attempt && TerminalKind(previous.value.kind) {
        Finish(id);
        return None;
      }
      var started := Start(id, now, consumer, leaseMs);
      grant := Some(started);
    }

    predicate LeaseHolds(id: MessageId, now: nat, generation: nat, consumer: string)
      reads this
    {
      && id in executions && executions[id].generation == generation
      && executions[id].consumer == consumer && executions[id].untilMs > now
    }

    /** The renew script. */
    method Renew(id: MessageId, now: nat, generation: nat, consumer: string, leaseMs: nat) returns (renewed: bool)
      requires Valid() && id in entries
      modifies this`executions
      ensures Valid() && OthersUnchanged(id)
      ensures (Job(id), renewed) == Scripts.Renew(old(Job(id)), now, generation, consumer, leaseMs)
    {
      if !LeaseHolds(id, now, generation, consumer) { return false; }
      SetExecution(id, executions[id].(untilMs := now + leaseMs));
      renewed := true;
    }

    /** The publish script: fence, order, cancellation, then the event and the cached state. */
    method Publish(id: MessageId, now: nat, e: Event, generation: nat, consumer: string)
      returns (reply: Scripts.PublishReply)
      requires Valid() && id in entries
      modifies this`pel, this`executions, this`caches, this`events
      ensures Valid() && OthersUnchanged(id)
      ensures (Job(id), reply) == Scripts.Publish(old(Job(id)), now, e, generation, consumer)
    {
      var runId := entries[id].runId;
      if !LeaseHolds(id, now, generation, consumer) { return Scripts.LeaseLost; }
      var position := Locate(id);
      if position < 0 || pel[position].consumer != consumer { return Scripts.LeaseLost; }
      if e.sequence <= executions[id].sequence { return Scripts.SequenceRegression; }
      if e.kind != JobCancelled && runId in cancels && cancels[runId] == e.attempt {
        return Scripts.CancellationRequested;
      }
      Record(id, e);
      if TerminalKind(e.kind) {
        Finish(id);
      } else {
        SetExecution(id, executions[id].(sequence := e.sequence));
      }
      reply := Scripts.Published;
    }

    /** The cancellation script: a marker without expiry, unless the cached run is over. */
    method RequestCancellation(id: MessageId, attempt: string) returns (active: bool)
      requires Valid() && id in entries
      modifies this`cancels
      ensures Valid() && OthersUnchanged(id)
      ensures (Job(id), active) == Scripts.RequestCancellation(old(Job(id)), attempt)
    {
      var runId := entries[id].runId;
      var status := CacheOf(runId).status;
      if status.Some? && TerminalStatus(status.value) { return false; }
      cancels := cancels[runId := attempt];
      active := true;
    }
  }
}
