/**
  The atomic transitions of one queued job, as the Redis scripts perform them.
  The keys of a job are its pending entry, its execution hash, the cached run
  state, the cancellation marker and the events published for its run.
 */
module JobScripts {
  import opened Wrappers
  import opened RunProjection

  /** The consumer that holds the message, and when it last received it. */
  datatype Delivery = Delivery(consumer: string, deliveredAt: nat)

  /** The execution hash: fencing generation, holder, lease end, last published sequence. */
  datatype Execution = Execution(generation: nat, consumer: string, untilMs: nat, sequence: nat)

  datatype RunCache = RunCache(status: Option<Status>, lastEvent: Option<Event>)

  datatype JobKeys = JobKeys(
    pending: Option<Delivery>,
    execution: Option<Execution>,
    cache: RunCache,
    cancel: Option<string>,
    events: seq<Event>)

  datatype Grant = Grant(generation: nat, sequence: nat)

  datatype PublishReply = Published | CancellationRequested | LeaseLost | SequenceRegression

  function Max(a: nat, b: nat): nat { if a < b then b else a }

  predicate HeldBy(k: JobKeys, consumer: string) { k.pending.Some? && k.pending.value.consumer == consumer }

  /** HGET of a missing field reads as zero. */
  function UntilOf(k: JobKeys): nat { if k.execution.Some? then k.execution.value.untilMs else 0 }

  function SequenceOf(k: JobKeys): nat { if k.execution.Some? then k.execution.value.sequence else 0 }

  function GenerationOf(k: JobKeys): nat { if k.execution.Some? then k.execution.value.generation else 0 }

  predicate Idle(d: Delivery, now: nat, minimumIdle: nat) { now >= d.deliveredAt + minimumIdle }

  /** The claim of one idle entry whose lease has run out; nothing happens otherwise. */
  function ReclaimOne(k: JobKeys, now: nat, consumer: string, minimumIdle: nat): (JobKeys, bool) {
    if k.pending.Some? && Idle(k.pending.value, now, minimumIdle) && UntilOf(k) <= now
    then (k.(pending := Some(Delivery(consumer, now))), true)
    else (k, false)
  }

  /** The cached last event of this attempt, when there is one. */
  function PreviousEvent(k: JobKeys, attempt: string): Option<Event> {
    if k.cache.lastEvent.Some? && k.cache.lastEvent.value.attempt == attempt then k.cache.lastEvent else None
  }

  /** A new generation, resuming after the newest sequence known for the attempt. */
  function Start(k: JobKeys, now: nat, consumer: string, leaseMs: nat, attempt: string): (JobKeys, Grant) {
    var previous := PreviousEvent(k, attempt);
    var sequence := if previous.Some? then Max(SequenceOf(k), previous.value.sequence) else SequenceOf(k);
    var generation := GenerationOf(k) + 1;
    (k.(execution := Some(Execution(generation, consumer, now + leaseMs, sequence))), Grant(generation, sequence))
  }

  /** The attempt already ended, according to the cached run. */
  predicate EndedBefore(k: JobKeys, attempt: string) {
    PreviousEvent(k, attempt).Some? && TerminalKind(PreviousEvent(k, attempt).value.kind)
  }

  function Acquire(k: JobKeys, now: nat, consumer: string, leaseMs: nat, attempt: string): (JobKeys, Option<Grant>) {
    if !HeldBy(k, consumer) || UntilOf(k) > now then (k, None)
    else if EndedBefore(k, attempt) then (k.(pending := None, execution := None), None)
    else
      var (started, grant) := Start(k, now, consumer, leaseMs, attempt);
      (started, Some(grant))
  }

  /** The caller still owns the current execution and its lease has not run out. */
  predicate LeaseHolds(k: JobKeys, now: nat, generation: nat, consumer: string) {
    && k.execution.Some?
    && k.execution.value.generation == generation && k.execution.value.consumer == consumer
    && k.execution.value.untilMs > now
  }

  function Renew(k: JobKeys, now: nat, generation: nat, consumer: string, leaseMs: nat): (JobKeys, bool) {
    if !LeaseHolds(k, now, generation, consumer) then (k, false)
    else (k.(execution := Some(k.execution.value.(untilMs := now + leaseMs))), true)
  }

  /** The run status written next to an event; other kinds leave it as it is. */
  function CachedStatus(kind: EventKind, before: Option<Status>): Option<Status> {
    match kind
    case JobSucceeded => Some(Succeeded)
    case JobFailed => Some(Failed)
    case JobCancelled => Some(Cancelled)
    case JobStarted => Some(Running)
    case StageStarted => Some(Running)
    case _ => before
  }

  function Publish(k: JobKeys, now: nat, e: Event, generation: nat, consumer: string): (JobKeys, PublishReply) {
    if !LeaseHolds(k, now, generation, consumer) || !HeldBy(k, consumer) then (k, LeaseLost)
    else if e.sequence <= SequenceOf(k) then (k, SequenceRegression)
    else if e.kind != JobCancelled && k.cancel == Some(e.attempt) then (k, CancellationRequested)
    else
      var published := k.(events := k.events + [e],
                          cache := RunCache(CachedStatus(e.kind, k.cache.status), Some(e)));
      if TerminalKind(e.kind) then (published.(pending := None, execution := None), Published)
      else (published.(execution := Some(k.execution.value.(sequence := e.sequence))), Published)
  }

  /** Sets the cancellation marker unless the cached run is already over. */
  function RequestCancellation(k: JobKeys, attempt: string): (JobKeys, bool) {
    if k.cache.status.Some? && TerminalStatus(k.cache.status.value) then (k, false)
    else (k.(cancel := Some(attempt)), true)
  }

  // ---- what each script decides ----

  /** An entry changes hands only after lying idle for the whole time, with no lease on it. */
  lemma ReclaimDecides(k: JobKeys, now: nat, consumer: string, minimumIdle: nat)
    ensures var (claimed, ok) := ReclaimOne(k, now, consumer, minimumIdle);
      && (ok <==> && k.pending.Some? && now - k.pending.value.deliveredAt >= minimumIdle
                  && (k.execution.Some? ==> k.execution.value.untilMs <= now))
      && claimed == if ok then k.(pending := Some(Delivery(consumer, now))) else k
  {
  }

  /** The message is in somebody else's hands, or in nobody's. */
  predicate NotInHand(k: JobKeys, consumer: string) { k.pending.None? || k.pending.value.consumer != consumer }

  /** The last event in the cache belongs to this attempt and ended it. */
  predicate CachedEnd(k: JobKeys, attempt: string) {
    match k.cache.lastEvent
    case None => false
    case Some(e) => e.attempt == attempt && e.kind in {JobSucceeded, JobFailed, JobCancelled}
  }

  /**
    A grant goes to the holder of an open message without a lease, and resumes behind all
    that is known to be published.
   */
  lemma AcquireDecides(k: JobKeys, now: nat, consumer: string, leaseMs: nat, attempt: string)
    ensures var (acquired, grant) := Acquire(k, now, consumer, leaseMs, attempt);
      if NotInHand(k, consumer) || (k.execution.Some? && k.execution.value.untilMs > now) then (acquired, grant) == (k, None)
      else if CachedEnd(k, attempt) then acquired == k.(pending := None, execution := None) && grant == None
      else
        && grant.Some? && acquired.execution.Some? && acquired == k.(execution := acquired.execution)
        && acquired.execution.value == Execution(grant.value.generation, consumer, now + leaseMs, grant.value.sequence)
        && (k.execution.Some? ==> grant.value.generation == k.execution.value.generation + 1)
        && (k.execution.None? ==> grant.value.generation == 1)
        && ResumesBehind(k, attempt, grant.value.sequence)
  {
  }

  /** The least sequence not below the stored one and that of the attempt's cached event. */
  predicate ResumesBehind(k: JobKeys, attempt: string, sequence: nat) {
    var stored := if k.execution.Some? then k.execution.value.sequence else 0;
    match k.cache.lastEvent
    case None => sequence == stored
    case Some(e) =>
      if e.attempt != attempt then sequence == stored
      else sequence >= stored && sequence >= e.sequence && (sequence == stored || sequence == e.sequence)
  }

  /** Renewal succeeds exactly for the generation and consumer of a lease that still runs, and moves its end only. */
  lemma RenewDecides(k: JobKeys, now: nat, generation: nat, consumer: string, leaseMs: nat)
    ensures var (renewed, ok) := Renew(k, now, generation, consumer, leaseMs);
      && (ok <==> && k.execution.Some? && now < k.execution.value.untilMs
                  && (generation, consumer) == (k.execution.value.generation, k.execution.value.consumer))
      && (ok ==> renewed.execution.Some? && renewed.execution.value.untilMs == now + leaseMs &&
                 renewed == k.(execution := Some(k.execution.value.(untilMs := now + leaseMs))))
      && (!ok ==> renewed == k)
  {
  }

  /** An event is refused without lease and message, out of order, or against a marker; else it is appended. */
  lemma PublishDecides(k: JobKeys, now: nat, e: Event, generation: nat, consumer: string)
    ensures var (published, reply) := Publish(k, now, e, generation, consumer);
      var fenced := || NotInHand(k, consumer) || k.execution.None? || k.execution.value.untilMs <= now
                    || (generation, consumer) != (k.execution.value.generation, k.execution.value.consumer);
      && (reply == LeaseLost <==> fenced)
      && (reply == SequenceRegression <==> !fenced && e.sequence <= k.execution.value.sequence)
      && (reply == CancellationRequested <==>
            !fenced && e.sequence > k.execution.value.sequence && e.kind != JobCancelled && k.cancel == Some(e.attempt))
      && (reply != Published ==> published == k)
      && (reply == Published ==>
            && published.events == k.events + [e] && published.cache.lastEvent == Some(e) && published.cancel == k.cancel
            && (if e.kind in {JobSucceeded, JobFailed, JobCancelled} then published.pending == None && published.execution == None
                else published.pending == k.pending &&
                     published.execution == Some(k.execution.value.(sequence := e.sequence))))
  {
  }

  /** A request sets the marker exactly when the cached run has not ended; a set marker names its attempt. */
  lemma RequestDecides(k: JobKeys, attempt: string)
    ensures var (requested, active) := RequestCancellation(k, attempt);
      && (active <==> k.cache.status !in {Some(Succeeded), Some(Failed), Some(Cancelled)})
      && requested == if active then k.(cancel := Some(attempt)) else k
  {
  }
}
