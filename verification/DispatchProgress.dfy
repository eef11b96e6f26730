/** What the steps of dispatching achieve: rows get published, groups get every entry, markers get cleaned up. */
module DispatchProgress {
  import opened Wrappers
  import opened JobQueue
  import opened Dispatch

  // ---- a row ----

  /**
    A transaction on a pending row publishes it unless the stream is full of needed entries;
    a job with a marker is not queued again.
   */
  lemma RowIsPublishedExactlyWhen(limit: nat, s: State, jobId: string, clock: nat)
    requires jobId in s.rows && !s.rows[jobId].published && jobId !in s.open
    ensures var t := Run(limit, s, [Begin(jobId), Execute(jobId, clock), Commit(jobId)]);
      && (Published(t, jobId) <==> jobId in s.queue.markers || |Trimmed(s.queue)| < limit)
      && (Published(t, jobId) ==> jobId !in t.open)
      && if jobId in s.queue.markers then t.queue == s.queue && t.appended == s.appended
         else if |Trimmed(s.queue)| < limit then
           var e := Entry(NextId(s.queue, clock), jobId);
           t.appended == s.appended + [e] && t.queue.entries == Trimmed(s.queue) + [e] && jobId in t.queue.markers
         else t.appended == s.appended && t.queue.entries == Trimmed(s.queue)
  {
    RunThree(limit, s, Begin(jobId), Execute(jobId, clock), Commit(jobId));
    var begun := Next(limit, s, Begin(jobId));
    assert begun == s.(open := s.open[jobId := None], sent := s.sent + {jobId});
  }

  /** A row that is published or locked by another transaction is left alone. */
  lemma NoSecondTransaction(limit: nat, s: State, jobId: string)
    requires Published(s, jobId) || jobId in s.open || jobId !in s.rows
    ensures Next(limit, s, Begin(jobId)) == s
  {
  }

  /** Only a published job's marker is removed and recorded as cleaned up. */
  lemma CleanedExactlyWhenPublished(limit: nat, s: State, jobId: string)
    ensures var t := Next(limit, Next(limit, s, DropMarker(jobId)), MarkCleaned(jobId));
      if Published(s, jobId)
      then jobId !in t.queue.markers && t.rows[jobId] == Row(true, true) &&
           (forall other | other != jobId :: other in s.queue.markers <==> other in t.queue.markers)
      else t == s
  {
  }

  /** Once published, a row stays published. */
  lemma {:induction false} PublishedStays(limit: nat, s: State, steps: seq<Step>, jobId: string)
    requires Published(s, jobId)
    ensures Published(Run(limit, s, steps), jobId)
  {
    if steps != [] {
      PublishedStays(limit, s, steps[..|steps| - 1], jobId);
    }
  }

  // ---- a group ----

  /** The ids of the stored entries a group has not been given, oldest first. */
  function Undelivered(entries: seq<Entry>, last: EntryId): (ids: seq<EntryId>)
    ensures forall i | 0 <= i < |ids| :: Before(last, ids[i])
  {
    if entries == [] then []
    else (if Before(last, entries[0].id) then [entries[0].id] else []) + Undelivered(entries[1..], last)
  }

  lemma {:induction false} AllUndelivered(entries: seq<Entry>, last: EntryId)
    requires forall i | 0 <= i < |entries| :: Before(last, entries[i].id)
    ensures |Undelivered(entries, last)| == |entries|
    ensures forall i | 0 <= i < |entries| :: Undelivered(entries, last)[i] == entries[i].id
  {
    if entries != [] {
      AllUndelivered(entries[1..], last);
    }
  }

  /** A delivery takes the oldest of them. */
  lemma {:induction false} NextIsOldest(entries: seq<Entry>, last: EntryId)
    requires AscendingEntries(entries)
    ensures NextUndelivered(entries, last).None? <==> Undelivered(entries, last) == []
    ensures NextUndelivered(entries, last).Some? ==>
              var id := NextUndelivered(entries, last).value;
              Undelivered(entries, last) == [id] + Undelivered(entries, id)
  {
    if entries != [] {
      if Before(last, entries[0].id) {
        OldestOfAll(entries, last);
      } else {
        NextIsOldest(entries[1..], last);
        if NextUndelivered(entries, last).Some? {
          UndeliveredIsStored(entries[1..], last);
        }
      }
    }
  }

  lemma OldestOfAll(entries: seq<Entry>, last: EntryId)
    requires AscendingEntries(entries) && entries != [] && Before(last, entries[0].id)
    ensures Undelivered(entries, last) == [entries[0].id] + Undelivered(entries, entries[0].id)
  {
    AllUndelivered(entries[1..], last);
    AllUndelivered(entries[1..], entries[0].id);
    assert Undelivered(entries[1..], last) == Undelivered(entries[1..], entries[0].id);
  }

  lemma DeliveryTakesOldest(limit: nat, s: State, g: nat)
    requires QueueInv(limit, s.queue, s.appended) && g < |s.queue.groups|
    ensures var group := s.queue.groups[g];
            var waiting := Undelivered(s.queue.entries, group.lastDelivered);
            var t := Next(limit, s, Deliver(g));
      if waiting == [] then t == s
      else
        && t == s.(queue := s.queue.(groups := t.queue.groups)) && |t.queue.groups| == |s.queue.groups|
        && t.queue.groups[g].pending == group.pending + [waiting[0]]
        && Undelivered(t.queue.entries, t.queue.groups[g].lastDelivered) == waiting[1..]
  {
    NextIsOldest(s.queue.entries, s.queue.groups[g].lastDelivered);
  }

  function Deliveries(g: nat, n: nat): seq<Step> { seq(n, _ => Deliver(g)) }

  function Waiting(s: State, g: nat): seq<EntryId>
    requires g < |s.queue.groups|
  {
    Undelivered(s.queue.entries, s.queue.groups[g].lastDelivered)
  }

  /** The group has been given the n oldest entries it was waiting for. */
  predicate Given(s: State, t: State, g: nat, n: nat)
    requires g < |s.queue.groups|
  {
    && |t.queue.groups| == |s.queue.groups| && t.queue.entries == s.queue.entries && n <= |Waiting(s, g)|
    && t.queue.groups[g].pending == s.queue.groups[g].pending + Waiting(s, g)[..n]
    && Waiting(t, g) == Waiting(s, g)[n..]
  }

  lemma OneMoreGiven(limit: nat, s: State, t: State, g: nat, n: nat)
    requires g < |s.queue.groups| && Given(s, t, g, n) && n < |Waiting(s, g)|
    requires QueueInv(limit, t.queue, t.appended)
    ensures Given(s, Next(limit, t, Deliver(g)), g, n + 1)
  {
    var waiting := Waiting(s, g);
    DeliveryTakesOldest(limit, t, g);
    assert waiting[..n + 1] == waiting[..n] + [waiting[n]] && waiting[n..][1..] == waiting[n + 1..];
  }

  /** Reading on, a group is given every entry it has not had, each once and oldest first, and nothing else. */
  lemma {:induction false} GroupCatchesUp(limit: nat, s: State, g: nat, n: nat)
    requires Inv(limit, s) && g < |s.queue.groups| && n <= |Waiting(s, g)|
    ensures Given(s, Run(limit, s, Deliveries(g, n)), g, n)
  {
    if n > 0 {
      var before := Deliveries(g, n - 1);
      assert Deliveries(g, n) == before + [Deliver(g)];
      RunOneMore(limit, s, before, Deliver(g));
      GroupCatchesUp(limit, s, g, n - 1);
      RunKeepsInv(limit, s, before);
      OneMoreGiven(limit, s, Run(limit, s, before), g, n - 1);
    }
  }
}
