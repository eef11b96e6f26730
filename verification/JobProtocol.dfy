/**
  One job from its queue message to its durable outcome: any number of workers
  that crash, pause and lose replies, the renewal threads, the projector, and the
  delivery and cleanup of its cancellation marker, interleaved in any order.
  A step whose guard does not hold changes nothing, so every list of steps is a run.
 */
module JobProtocol {
  import opened Wrappers
  import opened RunProjection
  import opened Sequences
  import Scripts = JobScripts

  datatype Config = Config(attempt: string, leaseMs: nat, maximumExecutions: nat)

  /**
    What a worker process knows of its lease. `announced`: job_started was accepted;
    `begun`: the processor was started; `refused`: the terminal event was answered
    with a cancellation request.
   */
  datatype Lease = Lease(generation: nat, sequence: nat, announced: bool, begun: bool, refused: bool)

  datatype Worker = Resting | InHand | Working(lease: Lease) | Stopped

  /** The lock on the Run row, held by a cancellation transaction. */
  datatype RowLock = Free | Dispatching(applied: bool) | Cleaning(removed: bool)

  /**
    `holders[g - 1]` acquired generation g, `runs` lists the generations whose
    processor was started, `projected` the events delivered to the projector so far.
    `cancelSent`: a cancellation script may still be on its way to Redis.
    `removalSent`: so may the removal of the marker.
   */
  datatype State = State(
    now: nat,
    delivered: bool,
    keys: Scripts.JobKeys,
    workers: map<string, Worker>,
    row: RunRow,
    lock: RowLock,
    cancelSent: bool,
    removalSent: bool,
    holders: seq<string>,
    runs: seq<nat>,
    projected: set<nat>)

  /** What becomes of a command: answered, applied with its reply lost, or never applied. */
  datatype Fate = Answered | ReplyLost | NeverApplied

  datatype Step =
    | Tick(elapsed: nat)
    | Read(consumer: string, fate: Fate)
    | Claim(consumer: string, fate: Fate)
    | Acquire(consumer: string, fate: Fate)
    | Renew(consumer: string)
    | Publish(consumer: string, kind: EventKind, stage: Option<string>, error: Option<string>, fate: Fate)
    | Begin(consumer: string)
    | Abandon(consumer: string)
    | Stop(consumer: string)
    | RequestCancel
    | LockForDispatch
    | ApplyCancel
    | CommitDispatch
    | LockForCleanup
    | RemoveMarker
    | CommitCleanup
    | Unlock
    | ProjectEvent(index: nat)
    | ExpireCache

  function WorkerOf(s: State, consumer: string): Worker {
    if consumer in s.workers then s.workers[consumer] else Resting
  }

  function Become(s: State, consumer: string, w: Worker): State { s.(workers := s.workers[consumer := w]) }

  /** A command outside a job that fails ends the process. */
  function Unless(fate: Fate, w: Worker): Worker { if fate == Answered then w else Stopped }

  function DoRead(s: State, consumer: string, fate: Fate): State {
    if WorkerOf(s, consumer) != Resting || s.delivered then s
    else if fate == NeverApplied then Become(s, consumer, Stopped)
    else
      Become(s.(delivered := true, keys := s.keys.(pending := Some(Scripts.Delivery(consumer, s.now)))),
             consumer, Unless(fate, InHand))
  }

  function DoClaim(cfg: Config, s: State, consumer: string, fate: Fate): State {
    if WorkerOf(s, consumer) != Resting then s
    else if fate == NeverApplied then Become(s, consumer, Stopped)
    else
      var (keys, claimed) := Scripts.ReclaimOne(s.keys, s.now, consumer, cfg.leaseMs);
      Become(s.(keys := keys), consumer, Unless(fate, if claimed then InHand else Resting))
  }

  function DoAcquire(cfg: Config, s: State, consumer: string, fate: Fate): State {
    if WorkerOf(s, consumer) != InHand then s
    else if fate == NeverApplied then Become(s, consumer, Stopped)
    else
      var (keys, grant) := Scripts.Acquire(s.keys, s.now, consumer, cfg.leaseMs, cfg.attempt);
      if grant.None? then Become(s.(keys := keys), consumer, Unless(fate, Resting))
      else
        Become(s.(keys := keys, holders := s.holders + [consumer]), consumer,
               Unless(fate, Working(Lease(grant.value.generation, grant.value.sequence, false, false, false))))
  }

  function DoRenew(cfg: Config, s: State, consumer: string): State {
    if !WorkerOf(s, consumer).Working? then s
    else s.(keys := Scripts.Renew(s.keys, s.now, WorkerOf(s, consumer).lease.generation, consumer, cfg.leaseMs).0)
  }

  /** Success needs the processor to have run; job_cancelled answers a refused terminal event and nothing else. */
  predicate MayPublish(lease: Lease, kind: EventKind) {
    && (kind == JobSucceeded ==> lease.begun)
    && (kind == JobCancelled <==> lease.refused)
  }

  function NextEvent(cfg: Config, lease: Lease, kind: EventKind, stage: Option<string>, error: Option<string>): Event {
    Event(kind, cfg.attempt, lease.sequence + 1, lease.generation, stage, error)
  }

  /** How the worker goes on after publishing an event of one kind. */
  function AfterPublish(lease: Lease, kind: EventKind, fate: Fate, reply: Scripts.PublishReply): Worker {
    var next := lease.(sequence := lease.sequence + 1);
    if fate != Answered || reply == Scripts.LeaseLost || reply == Scripts.SequenceRegression
    then (if TerminalKind(kind) then Stopped else Working(next))
    else if reply == Scripts.CancellationRequested then Working(next.(refused := TerminalKind(kind)))
    else if TerminalKind(kind) then Resting
    else Working(next.(announced := next.announced || kind == JobStarted))
  }

  function DoPublish(cfg: Config, s: State, consumer: string, kind: EventKind, stage: Option<string>,
                     error: Option<string>, fate: Fate): State
  {
    if !WorkerOf(s, consumer).Working? then s
    else
      var lease := WorkerOf(s, consumer).lease;
      if !MayPublish(lease, kind) then s
      else Send(s, consumer, lease, NextEvent(cfg, lease, kind, stage, error), fate)
  }

  function Send(s: State, consumer: string, lease: Lease, e: Event, fate: Fate): State {
    if fate == NeverApplied then Become(s, consumer, AfterPublish(lease, e.kind, fate, Scripts.LeaseLost))
    else
      var (keys, reply) := Scripts.Publish(s.keys, s.now, e, e.generation, consumer);
      Become(s.(keys := keys), consumer, AfterPublish(lease, e.kind, fate, reply))
  }

  function DoBegin(cfg: Config, s: State, consumer: string): State {
    if !WorkerOf(s, consumer).Working? then s
    else
      var lease := WorkerOf(s, consumer).lease;
      if !lease.announced || lease.begun || lease.generation > cfg.maximumExecutions then s
      else Become(s.(runs := s.runs + [lease.generation]), consumer, Working(lease.(begun := true)))
  }

  /** Giving up a lease without an attempt identity to report under. */
  function DoAbandon(s: State, consumer: string): State {
    if WorkerOf(s, consumer).Working? then Become(s, consumer, Resting) else s
  }

  function DoRequestCancel(s: State): State {
    if s.lock != Free || s.row.cancelRequested || TerminalStatus(s.row.status) then s
    else s.(row := s.row.(cancelRequested := true))
  }

  function DoLockForDispatch(s: State): State {
    if s.lock != Free || !s.row.cancelRequested || s.row.cancelDelivered then s
    else s.(lock := Dispatching(false), cancelSent := s.cancelSent || !TerminalStatus(s.row.status))
  }

  /** The cancellation script, in its transaction or late, after a timeout. */
  function DoApplyCancel(cfg: Config, s: State): State {
    if !s.cancelSent then s
    else
      s.(keys := Scripts.RequestCancellation(s.keys, cfg.attempt).0,
         lock := if s.lock.Dispatching? then Dispatching(true) else s.lock)
  }

  function DoCommitDispatch(s: State): State {
    if !s.lock.Dispatching? || !(s.lock.applied || TerminalStatus(s.row.status)) then s
    else s.(row := s.row.(cancelDelivered := true), lock := Free)
  }

  function DoLockForCleanup(s: State): State {
    if s.lock != Free || !s.row.cancelRequested || s.row.cancelCleaned || !TerminalStatus(s.row.status) then s
    else s.(lock := Cleaning(false), removalSent := true)
  }

  /** DEL of the marker, in its transaction or late. */
  function DoRemoveMarker(s: State): State {
    if !s.removalSent then s
    else
      s.(keys := s.keys.(cancel := None), lock := if s.lock.Cleaning? then Cleaning(true) else s.lock)
  }

  function DoCommitCleanup(s: State): State {
    if s.lock != Cleaning(true) then s
    else s.(row := s.row.(cancelCleaned := true, cancelDelivered := true), lock := Free)
  }

  function DoProject(s: State, index: nat): State {
    if s.lock != Free || index >= |s.keys.events| then s
    else s.(row := Project(s.row, s.keys.events[index]), projected := s.projected + {index})
  }

  /** The cached run expires days after its last event; see the README for the upgrade case left out. */
  function DoExpireCache(s: State): State {
    if s.keys.events == [] || s.keys.execution.Some? || (s.delivered && s.keys.pending.None?)
    then s.(keys := s.keys.(cache := Scripts.RunCache(None, None)))
    else s
  }

  /** The steps of the workers. */
  function NextOfWorker(cfg: Config, s: State, step: Step): State {
    match step
    case Read(consumer, fate) => DoRead(s, consumer, fate)
    case Claim(consumer, fate) => DoClaim(cfg, s, consumer, fate)
    case Acquire(consumer, fate) => DoAcquire(cfg, s, consumer, fate)
    case Renew(consumer) => DoRenew(cfg, s, consumer)
    case Publish(consumer, kind, stage, error, fate) => DoPublish(cfg, s, consumer, kind, stage, error, fate)
    case Begin(consumer) => DoBegin(cfg, s, consumer)
    case Abandon(consumer) => DoAbandon(s, consumer)
    case Stop(consumer) => Become(s, consumer, Stopped)
    case _ => s
  }

  /** The steps of the clock, the service and the projector. */
  function NextOfService(cfg: Config, s: State, step: Step): State {
    match step
    case Tick(elapsed) => s.(now := s.now + elapsed)
    case RequestCancel => DoRequestCancel(s)
    case LockForDispatch => DoLockForDispatch(s)
    case ApplyCancel => DoApplyCancel(cfg, s)
    case CommitDispatch => DoCommitDispatch(s)
    case LockForCleanup => DoLockForCleanup(s)
    case RemoveMarker => DoRemoveMarker(s)
    case CommitCleanup => DoCommitCleanup(s)
    case Unlock => s.(lock := Free)
    case ProjectEvent(index) => DoProject(s, index)
    case ExpireCache => DoExpireCache(s)
    case _ => s
  }

  predicate OfWorker(step: Step) {
    step.Read? || step.Claim? || step.Acquire? || step.Renew? || step.Publish? || step.Begin? || step.Abandon? || step.Stop?
  }

  function Next(cfg: Config, s: State, step: Step): State {
    if OfWorker(step) then NextOfWorker(cfg, s, step) else NextOfService(cfg, s, step)
  }

  function Run(cfg: Config, s: State, steps: seq<Step>): State {
    if steps == [] then s else Next(cfg, Run(cfg, s, steps[..|steps| - 1]), steps[|steps| - 1])
  }

  // ---- what every reachable state satisfies ----

  predicate Held(holders: seq<string>, generation: nat, consumer: string) {
    1 <= generation <= |holders| && holders[generation - 1] == consumer
  }

  ghost predicate GenerationsUpTo(log: seq<Event>, bound: nat) {
    forall i | 0 <= i < |log| :: log[i].generation <= bound
  }

  ghost predicate SequencesUpTo(log: seq<Event>, bound: nat) {
    forall i | 0 <= i < |log| :: log[i].sequence <= bound
  }

  ghost predicate LogOrdered(cfg: Config, log: seq<Event>, generations: nat) {
    OrderlyLog(log, cfg.attempt) && GenerationsUpTo(log, generations)
  }

  /** The execution hash belongs to the newest acquisition and to a job that is still open. */
  ghost predicate ExecutionCurrent(e: Scripts.Execution, log: seq<Event>, holders: seq<string>) {
    && !Finished(log) && SequencesUpTo(log, e.sequence)
    && e.generation == |holders| && Held(holders, e.generation, e.consumer)
  }

  ghost predicate LeaseCurrent(k: Scripts.JobKeys, delivered: bool, holders: seq<string>) {
    && (k.pending.Some? ==> delivered)
    && (!delivered ==> k.events == [])
    && (k.execution.Some? ==> k.pending.Some? && ExecutionCurrent(k.execution.value, k.events, holders))
    && (k.execution.None? && (k.pending.Some? || !delivered) ==> holders == [])
    && (delivered && k.pending.None? ==> Finished(k.events))
    && CacheShowsLegacy(k)
  }

  predicate LastEventIs(log: seq<Event>, e: Event) { log != [] && log[|log| - 1] == e }

  /** Before the first acquisition the cached run still shows the last event, if there is one. */
  predicate CacheShowsLegacy(k: Scripts.JobKeys) {
    k.execution.None? && k.pending.Some? && k.events != [] ==>
      k.cache.lastEvent.Some? && LastEventIs(k.events, k.cache.lastEvent.value)
  }

  predicate CacheFollows(cache: Scripts.RunCache, log: seq<Event>) {
    && (cache.lastEvent.Some? ==> LastEventIs(log, cache.lastEvent.value))
    && (cache.status.Some? ==> (TerminalStatus(cache.status.value) <==> Finished(log)))
    && (cache.status.Some? && Finished(log) ==> Shows(cache.status.value, log[|log| - 1].kind))
  }

  ghost predicate Announced(log: seq<Event>, generation: nat) {
    exists i | 0 <= i < |log| :: log[i].kind == JobStarted && log[i].generation == generation
  }

  ghost predicate LeaseFenced(lease: Lease, consumer: string, holders: seq<string>, log: seq<Event>, runs: seq<nat>,
                              requested: bool)
  {
    && Held(holders, lease.generation, consumer)
    && (lease.announced ==> Announced(log, lease.generation))
    && (lease.begun <==> lease.generation in runs)
    && (lease.refused ==> requested)
  }

  ghost predicate WorkersFenced(workers: map<string, Worker>, holders: seq<string>, log: seq<Event>, runs: seq<nat>,
                                requested: bool)
  {
    forall consumer | consumer in workers && workers[consumer].Working? ::
      LeaseFenced(workers[consumer].lease, consumer, holders, log, runs, requested)
  }

  ghost predicate RunAllowed(cfg: Config, generation: nat, log: seq<Event>, generations: nat) {
    1 <= generation <= cfg.maximumExecutions && generation <= generations && Announced(log, generation)
  }

  ghost predicate RunsBounded(cfg: Config, runs: seq<nat>, log: seq<Event>, generations: nat) {
    && Distinct(runs)
    && forall g | g in runs :: RunAllowed(cfg, g, log, generations)
  }

  /** Fenced events are honest: success was run for, cancellation was asked for. */
  ghost predicate Honest(e: Event, runs: seq<nat>, requested: bool) {
    e.generation > 0 ==>
      && (e.kind == JobSucceeded ==> e.generation in runs)
      && (e.kind == JobCancelled ==> requested)
  }

  ghost predicate EventsHonest(log: seq<Event>, runs: seq<nat>, requested: bool) {
    forall i | 0 <= i < |log| :: Honest(log[i], runs, requested)
  }

  ghost predicate RowFollows(cfg: Config, row: RunRow, log: seq<Event>, projected: set<nat>) {
    && row.attempt == cfg.attempt
    && (forall d | d in projected :: d < |log|)
    && Reflects(row, log, projected)
  }

  /** The marker is set, or there is nothing left to cancel. */
  predicate MarkedOrFinished(cfg: Config, k: Scripts.JobKeys) {
    k.cancel == Some(cfg.attempt) || Finished(k.events)
  }

  ghost predicate DeliveryTracked(cfg: Config, s: State) {
    && (s.keys.cancel.Some? ==> s.keys.cancel.value == cfg.attempt && s.cancelSent)
    && (s.cancelSent || s.lock.Dispatching? ==> s.row.cancelRequested)
    && (s.lock == Dispatching(true) || s.row.cancelDelivered ==> MarkedOrFinished(cfg, s.keys))
  }

  ghost predicate CleanupTracked(s: State) {
    && (s.removalSent || s.lock.Cleaning? || s.row.cancelCleaned ==> TerminalStatus(s.row.status))
    && (s.lock == Cleaning(true) || s.row.cancelCleaned ==> s.keys.cache.status.Some? ==> s.keys.cancel == None)
  }

  ghost predicate Inv(cfg: Config, s: State) {
    && LogOrdered(cfg, s.keys.events, |s.holders|)
    && LeaseCurrent(s.keys, s.delivered, s.holders)
    && CacheFollows(s.keys.cache, s.keys.events)
    && WorkersFenced(s.workers, s.holders, s.keys.events, s.runs, s.row.cancelRequested)
    && RunsBounded(cfg, s.runs, s.keys.events, |s.holders|)
    && EventsHonest(s.keys.events, s.runs, s.row.cancelRequested)
    && RowFollows(cfg, s.row, s.keys.events, s.projected)
    && DeliveryTracked(cfg, s) && CleanupTracked(s)
  }

  /**
    A new job, or one an older worker without fencing left on the queue: then its
    events carry no generation and the cached run shows the last of them.
   */
  ghost predicate Initial(cfg: Config, s: State) {
    && s.workers == map[] && s.holders == [] && s.runs == []
    && s.lock == Free && !s.cancelSent && !s.removalSent
    && !s.row.cancelRequested && !s.row.cancelDelivered && !s.row.cancelCleaned
    && s.keys.execution == None && s.keys.cancel == None
    && (s.keys.pending.Some? ==> s.delivered)
    && (!s.delivered ==> s.keys.events == [])
    && (s.delivered && s.keys.pending.None? ==> Finished(s.keys.events))
    && LogOrdered(cfg, s.keys.events, 0)
    && CacheFollows(s.keys.cache, s.keys.events) && CacheShowsLegacy(s.keys)
    && RowFollows(cfg, s.row, s.keys.events, s.projected)
  }

  lemma InitialInv(cfg: Config, s: State)
    requires Initial(cfg, s)
    ensures Inv(cfg, s)
  {
  }

  // ---- each step keeps it ----

  lemma ReadKeeps(cfg: Config, s: State, consumer: string, fate: Fate)
    requires Inv(cfg, s)
    ensures Inv(cfg, DoRead(s, consumer, fate))
  {
  }

  lemma ReclaimKeepsLease(k: Scripts.JobKeys, delivered: bool, now: nat, consumer: string, leaseMs: nat,
                          holders: seq<string>)
    requires LeaseCurrent(k, delivered, holders)
    ensures var keys := Scripts.ReclaimOne(k, now, consumer, leaseMs).0;
            LeaseCurrent(keys, delivered, holders) && keys == k.(pending := keys.pending)
  {
  }

  /** The invariant after a step that leaves the worker without a lease and the log and caches as they were. */
  lemma RestKeeps(cfg: Config, s: State, consumer: string, keys: Scripts.JobKeys, w: Worker)
    requires Inv(cfg, s) && !w.Working? && LeaseCurrent(keys, s.delivered, s.holders)
    requires keys.events == s.keys.events && keys.cache == s.keys.cache && keys.cancel == s.keys.cancel
    ensures Inv(cfg, Become(s.(keys := keys), consumer, w))
  {
    WorkersFencedUpdate(s, consumer, w);
  }

  /** The invariant after a grant of the next generation. */
  lemma GrantKeeps(cfg: Config, s: State, consumer: string, keys: Scripts.JobKeys, w: Worker)
    requires Inv(cfg, s) && LeaseCurrent(keys, s.delivered, s.holders + [consumer])
    requires keys.events == s.keys.events && keys.cache == s.keys.cache && keys.cancel == s.keys.cancel
    requires w.Working? ==> w.lease == Lease(|s.holders| + 1, w.lease.sequence, false, false, false)
    ensures Inv(cfg, Become(s.(keys := keys, holders := s.holders + [consumer]), consumer, w))
  {
    HoldersGrow(cfg, s, consumer, w);
  }

  lemma ClaimKeeps(cfg: Config, s: State, consumer: string, fate: Fate)
    requires Inv(cfg, s)
    ensures Inv(cfg, DoClaim(cfg, s, consumer, fate))
  {
    var keys := Scripts.ReclaimOne(s.keys, s.now, consumer, cfg.leaseMs).0;
    ReclaimKeepsLease(s.keys, s.delivered, s.now, consumer, cfg.leaseMs, s.holders);
    forall w: Worker | !w.Working?
      ensures Inv(cfg, Become(s.(keys := keys), consumer, w)) && Inv(cfg, Become(s, consumer, w))
    {
      RestKeeps(cfg, s, consumer, keys, w);
      RestKeeps(cfg, s, consumer, s.keys, w);
    }
  }

  /** A grant starts generation n + 1 of an open job, above every sequence published so far. */
  lemma AcquireKeepsLease(cfg: Config, k: Scripts.JobKeys, delivered: bool, now: nat, consumer: string,
                          holders: seq<string>)
    requires LogOrdered(cfg, k.events, |holders|) && CacheFollows(k.cache, k.events)
    requires LeaseCurrent(k, delivered, holders)
    ensures var (keys, grant) := Scripts.Acquire(k, now, consumer, cfg.leaseMs, cfg.attempt);
            var after := if grant.Some? then holders + [consumer] else holders;
            && LeaseCurrent(keys, delivered, after)
            && keys.events == k.events && keys.cache == k.cache && keys.cancel == k.cancel
            && (grant.Some? ==> grant.value.generation == |after|)
  {
    if k.events != [] && k.pending.Some? && k.execution.None? {
      assert k.cache.lastEvent.value == k.events[|k.events| - 1];
    }
  }

  lemma AcquireKeeps(cfg: Config, s: State, consumer: string, fate: Fate)
    requires Inv(cfg, s)
    ensures Inv(cfg, DoAcquire(cfg, s, consumer, fate))
  {
    var (keys, grant) := Scripts.Acquire(s.keys, s.now, consumer, cfg.leaseMs, cfg.attempt);
    AcquireKeepsLease(cfg, s.keys, s.delivered, s.now, consumer, s.holders);
    if fate == NeverApplied || WorkerOf(s, consumer) != InHand {
      RestKeeps(cfg, s, consumer, s.keys, Stopped);
    } else if grant.None? {
      RestKeeps(cfg, s, consumer, keys, Unless(fate, Resting));
    } else {
      var lease := Lease(grant.value.generation, grant.value.sequence, false, false, false);
      GrantKeeps(cfg, s, consumer, keys, Unless(fate, Working(lease)));
    }
  }

  lemma WorkersFencedUpdate(s: State, consumer: string, w: Worker)
    requires WorkersFenced(s.workers, s.holders, s.keys.events, s.runs, s.row.cancelRequested)
    requires w.Working? ==> LeaseFenced(w.lease, consumer, s.holders, s.keys.events, s.runs, s.row.cancelRequested)
    ensures WorkersFenced(s.workers[consumer := w], s.holders, s.keys.events, s.runs, s.row.cancelRequested)
  {
  }

  /** The next holder leaves the leases and runs of the earlier generations as they were. */
  lemma HoldersGrow(cfg: Config, s: State, consumer: string, w: Worker)
    requires WorkersFenced(s.workers, s.holders, s.keys.events, s.runs, s.row.cancelRequested)
    requires RunsBounded(cfg, s.runs, s.keys.events, |s.holders|)
    requires LogOrdered(cfg, s.keys.events, |s.holders|)
    requires w.Working? ==> w.lease == Lease(|s.holders| + 1, w.lease.sequence, false, false, false)
    ensures LogOrdered(cfg, s.keys.events, |s.holders| + 1)
    ensures WorkersFenced(s.workers[consumer := w], s.holders + [consumer], s.keys.events, s.runs, s.row.cancelRequested)
    ensures RunsBounded(cfg, s.runs, s.keys.events, |s.holders| + 1)
  {
    forall g | g in s.runs
      ensures RunAllowed(cfg, g, s.keys.events, |s.holders| + 1)
    {
      assert RunAllowed(cfg, g, s.keys.events, |s.holders|);
    }
  }

  lemma RenewKeeps(cfg: Config, s: State, consumer: string)
    requires Inv(cfg, s)
    ensures Inv(cfg, DoRenew(cfg, s, consumer))
  {
  }

  lemma BeginKeeps(cfg: Config, s: State, consumer: string)
    requires Inv(cfg, s)
    ensures Inv(cfg, DoBegin(cfg, s, consumer))
  {
  }

  lemma ProjectKeeps(cfg: Config, s: State, index: nat)
    requires Inv(cfg, s)
    ensures Inv(cfg, DoProject(s, index))
  {
    if s.lock == Free && index < |s.keys.events| {
      ProjectReflects(s.row, s.keys.events, s.projected, index);
    }
  }

  /** A row whose status is terminal reflects the terminal event. */
  lemma TerminalRowMeansFinished(cfg: Config, row: RunRow, log: seq<Event>, projected: set<nat>)
    requires OrderlyLog(log, cfg.attempt) && RowFollows(cfg, row, log, projected) && TerminalStatus(row.status)
    ensures Finished(log)
  {
    var m: nat :| Newest(row, log, projected, m);
    assert TerminalKind(log[m].kind);
  }

  /** The cancellation flags of a row say nothing about events. */
  lemma FlagsDoNotMatter(cfg: Config, row: RunRow, requested: bool, delivered: bool, cleaned: bool, log: seq<Event>,
                         projected: set<nat>)
    requires RowFollows(cfg, row, log, projected)
    ensures RowFollows(cfg, row.(cancelRequested := requested, cancelDelivered := delivered, cancelCleaned := cleaned),
                       log, projected)
  {
    var t := row.(cancelRequested := requested, cancelDelivered := delivered, cancelCleaned := cleaned);
    if exists m: nat :: Newest(row, log, projected, m) {
      var m: nat :| Newest(row, log, projected, m);
      assert Newest(t, log, projected, m);
    }
  }

  lemma RequestCancelKeeps(cfg: Config, s: State)
    requires Inv(cfg, s)
    ensures Inv(cfg, DoRequestCancel(s))
  {
    FlagsDoNotMatter(cfg, s.row, true, s.row.cancelDelivered, s.row.cancelCleaned, s.keys.events, s.projected);
  }

  lemma ApplyCancelKeeps(cfg: Config, s: State)
    requires Inv(cfg, s)
    ensures Inv(cfg, DoApplyCancel(cfg, s))
  {
    if TerminalStatus(s.row.status) {
      TerminalRowMeansFinished(cfg, s.row, s.keys.events, s.projected);
    }
  }

  lemma DispatchKeeps(cfg: Config, s: State)
    requires Inv(cfg, s)
    ensures Inv(cfg, DoLockForDispatch(s)) && Inv(cfg, DoCommitDispatch(s))
  {
    FlagsDoNotMatter(cfg, s.row, s.row.cancelRequested, true, s.row.cancelCleaned, s.keys.events, s.projected);
    if TerminalStatus(s.row.status) {
      TerminalRowMeansFinished(cfg, s.row, s.keys.events, s.projected);
    }
  }

  lemma CleanupKeeps(cfg: Config, s: State)
    requires Inv(cfg, s)
    ensures Inv(cfg, DoLockForCleanup(s)) && Inv(cfg, DoRemoveMarker(s)) && Inv(cfg, DoCommitCleanup(s))
  {
    FlagsDoNotMatter(cfg, s.row, s.row.cancelRequested, true, true, s.keys.events, s.projected);
    if TerminalStatus(s.row.status) {
      TerminalRowMeansFinished(cfg, s.row, s.keys.events, s.projected);
    }
  }

  // ---- publication ----

  /** One more event leaves what was known of the earlier ones. */
  lemma RowFollowsLonger(cfg: Config, row: RunRow, log: seq<Event>, e: Event, projected: set<nat>)
    requires RowFollows(cfg, row, log, projected)
    ensures RowFollows(cfg, row, log + [e], projected)
  {
    if exists m: nat :: Newest(row, log, projected, m) {
      var m: nat :| Newest(row, log, projected, m);
      assert Newest(row, log + [e], projected, m);
    }
  }

  lemma AnnouncedStays(log: seq<Event>, e: Event, generation: nat)
    requires Announced(log, generation)
    ensures Announced(log + [e], generation)
  {
    var i :| 0 <= i < |log| && log[i].kind == JobStarted && log[i].generation == generation;
    assert (log + [e])[i] == log[i];
  }

  lemma RunsBoundedLonger(cfg: Config, runs: seq<nat>, log: seq<Event>, e: Event, generations: nat)
    requires RunsBounded(cfg, runs, log, generations)
    ensures RunsBounded(cfg, runs, log + [e], generations)
  {
    forall g | g in runs
      ensures RunAllowed(cfg, g, log + [e], generations)
    {
      assert RunAllowed(cfg, g, log, generations);
      AnnouncedStays(log, e, g);
    }
  }

  lemma WorkersFencedLonger(workers: map<string, Worker>, holders: seq<string>, log: seq<Event>, e: Event,
                            runs: seq<nat>, requested: bool)
    requires WorkersFenced(workers, holders, log, runs, requested)
    ensures WorkersFenced(workers, holders, log + [e], runs, requested)
  {
    forall consumer | consumer in workers && workers[consumer].Working?
      ensures LeaseFenced(workers[consumer].lease, consumer, holders, log + [e], runs, requested)
    {
      if workers[consumer].lease.announced {
        AnnouncedStays(log, e, workers[consumer].lease.generation);
      }
    }
  }

  /** An accepted publication comes from the newest holder of an open job and is its newest event. */
  lemma PublishKeepsOrder(cfg: Config, k: Scripts.JobKeys, delivered: bool, now: nat, consumer: string, e: Event,
                          holders: seq<string>)
    requires LogOrdered(cfg, k.events, |holders|) && LeaseCurrent(k, delivered, holders) && e.attempt == cfg.attempt
    ensures var (keys, reply) := Scripts.Publish(k, now, e, e.generation, consumer);
            && LogOrdered(cfg, keys.events, |holders|)
            && (reply == Scripts.Published ==> e.generation == |holders| && Held(holders, e.generation, consumer))
            && (reply == Scripts.Published ==> !Finished(k.events))
  {
  }

  lemma PublishKeepsKeys(cfg: Config, k: Scripts.JobKeys, delivered: bool, now: nat, consumer: string, e: Event,
                         holders: seq<string>)
    requires LogOrdered(cfg, k.events, |holders|) && CacheFollows(k.cache, k.events)
    requires LeaseCurrent(k, delivered, holders)
    ensures var (keys, reply) := Scripts.Publish(k, now, e, e.generation, consumer);
            && LeaseCurrent(keys, delivered, holders) && CacheFollows(keys.cache, keys.events)
            && keys.cancel == k.cancel
            && keys.events == (if reply == Scripts.Published then k.events + [e] else k.events)
            && (reply != Scripts.Published ==> keys == k)
            && (reply == Scripts.CancellationRequested ==> k.cancel.Some?)
  {
  }

  lemma SendKeeps(cfg: Config, s: State, consumer: string, lease: Lease, e: Event, fate: Fate)
    requires Inv(cfg, s) && WorkerOf(s, consumer) == Working(lease)
    requires MayPublish(lease, e.kind) && e.generation == lease.generation && e.attempt == cfg.attempt
    ensures Inv(cfg, Send(s, consumer, lease, e, fate))
  {
    if fate == NeverApplied {
      RefusedKeeps(cfg, s, consumer, lease, AfterPublish(lease, e.kind, fate, Scripts.LeaseLost));
    } else {
      var (keys, reply) := Scripts.Publish(s.keys, s.now, e, e.generation, consumer);
      PublishKeepsOrder(cfg, s.keys, s.delivered, s.now, consumer, e, s.holders);
      PublishKeepsKeys(cfg, s.keys, s.delivered, s.now, consumer, e, s.holders);
      RepliedKeeps(cfg, s, consumer, lease, e, fate, keys, reply);
    }
  }

  /** The invariant once the script has answered, whether or not the answer arrives. */
  lemma RepliedKeeps(cfg: Config, s: State, consumer: string, lease: Lease, e: Event, fate: Fate, keys: Scripts.JobKeys,
                     reply: Scripts.PublishReply)
    requires Inv(cfg, s) && WorkerOf(s, consumer) == Working(lease)
    requires MayPublish(lease, e.kind) && e.generation == lease.generation
    requires LogOrdered(cfg, keys.events, |s.holders|) && LeaseCurrent(keys, s.delivered, s.holders)
    requires CacheFollows(keys.cache, keys.events) && keys.cancel == s.keys.cancel
    requires reply == Scripts.Published ==> keys.events == s.keys.events + [e] && !Finished(s.keys.events)
    requires reply != Scripts.Published ==> keys == s.keys
    requires reply == Scripts.CancellationRequested ==> s.keys.cancel.Some?
    ensures Inv(cfg, Become(s.(keys := keys), consumer, AfterPublish(lease, e.kind, fate, reply)))
  {
    if reply == Scripts.Published {
      PublishedKeeps(cfg, s, consumer, lease, e, keys, AfterPublish(lease, e.kind, fate, reply));
    } else {
      RefusedKeeps(cfg, s, consumer, lease, AfterPublish(lease, e.kind, fate, reply));
    }
  }

  lemma PublishKeeps(cfg: Config, s: State, consumer: string, kind: EventKind, stage: Option<string>,
                     error: Option<string>, fate: Fate)
    requires Inv(cfg, s)
    ensures Inv(cfg, DoPublish(cfg, s, consumer, kind, stage, error, fate))
  {
    if WorkerOf(s, consumer).Working? {
      var lease := WorkerOf(s, consumer).lease;
      if MayPublish(lease, kind) {
        SendKeeps(cfg, s, consumer, lease, NextEvent(cfg, lease, kind, stage, error), fate);
      }
    }
  }

  /** The invariant after a publication that changed no key. */
  lemma RefusedKeeps(cfg: Config, s: State, consumer: string, lease: Lease, w: Worker)
    requires Inv(cfg, s) && WorkerOf(s, consumer) == Working(lease)
    requires w.Working? ==> w.lease == lease.(sequence := w.lease.sequence, refused := w.lease.refused)
    requires w.Working? ==> w.lease.refused ==> lease.refused || s.keys.cancel.Some?
    ensures Inv(cfg, Become(s, consumer, w))
  {
    WorkersFencedUpdate(s, consumer, w);
  }

  /** The invariant after an accepted event. */
  lemma PublishedKeeps(cfg: Config, s: State, consumer: string, lease: Lease, e: Event, keys: Scripts.JobKeys, w: Worker)
    requires Inv(cfg, s) && WorkerOf(s, consumer) == Working(lease)
    requires MayPublish(lease, e.kind) && e.generation == lease.generation
    requires keys.events == s.keys.events + [e] && keys.cancel == s.keys.cancel
    requires LogOrdered(cfg, keys.events, |s.holders|) && LeaseCurrent(keys, s.delivered, s.holders)
    requires CacheFollows(keys.cache, keys.events) && !Finished(s.keys.events)
    requires w.Working? ==> w.lease == lease.(sequence := w.lease.sequence, announced := w.lease.announced, refused := w.lease.refused)
    requires w.Working? ==> w.lease.announced ==> lease.announced || e.kind == JobStarted
    requires w.Working? ==> w.lease.refused ==> lease.refused
    ensures Inv(cfg, Become(s.(keys := keys), consumer, w))
  {
    var log := s.keys.events;
    RowFollowsLonger(cfg, s.row, log, e, s.projected);
    RunsBoundedLonger(cfg, s.runs, log, e, |s.holders|);
    WorkersFencedLonger(s.workers, s.holders, log, e, s.runs, s.row.cancelRequested);
    if w.Working? && e.kind == JobStarted {
      assert keys.events[|log|] == e;
      assert Announced(keys.events, lease.generation);
    }
    WorkersFencedUpdate(s.(keys := keys), consumer, w);
    if TerminalStatus(s.row.status) {
      TerminalRowMeansFinished(cfg, s.row, log, s.projected);
    }
    assert Honest(e, s.runs, s.row.cancelRequested);
  }

  lemma WorkerStepKeepsInv(cfg: Config, s: State, step: Step)
    requires Inv(cfg, s)
    ensures Inv(cfg, NextOfWorker(cfg, s, step))
  {
    match step
    case Read(consumer, fate) => ReadKeeps(cfg, s, consumer, fate);
    case Claim(consumer, fate) => ClaimKeeps(cfg, s, consumer, fate);
    case Acquire(consumer, fate) => AcquireKeeps(cfg, s, consumer, fate);
    case Renew(consumer) => RenewKeeps(cfg, s, consumer);
    case Publish(consumer, kind, stage, error, fate) => PublishKeeps(cfg, s, consumer, kind, stage, error, fate);
    case Begin(consumer) => BeginKeeps(cfg, s, consumer);
    case Abandon(consumer) => LeavingKeeps(cfg, s, consumer);
    case Stop(consumer) => LeavingKeeps(cfg, s, consumer);
    case _ =>
  }

  lemma ServiceStepKeepsInv(cfg: Config, s: State, step: Step)
    requires Inv(cfg, s)
    ensures Inv(cfg, NextOfService(cfg, s, step))
  {
    match step
    case Tick(elapsed) => ClockKeeps(cfg, s, elapsed);
    case RequestCancel => RequestCancelKeeps(cfg, s);
    case LockForDispatch => DispatchKeeps(cfg, s);
    case ApplyCancel => ApplyCancelKeeps(cfg, s);
    case CommitDispatch => DispatchKeeps(cfg, s);
    case LockForCleanup => CleanupKeeps(cfg, s);
    case RemoveMarker => CleanupKeeps(cfg, s);
    case CommitCleanup => CleanupKeeps(cfg, s);
    case Unlock => ClockKeeps(cfg, s, 0);
    case ProjectEvent(index) => ProjectKeeps(cfg, s, index);
    case ExpireCache => ExpireCacheKeeps(cfg, s);
    case _ =>
  }

  lemma LeavingKeeps(cfg: Config, s: State, consumer: string)
    requires Inv(cfg, s)
    ensures Inv(cfg, DoAbandon(s, consumer)) && Inv(cfg, Become(s, consumer, Stopped))
  {
    WorkersFencedUpdate(s, consumer, Resting);
    WorkersFencedUpdate(s, consumer, Stopped);
  }

  lemma ClockKeeps(cfg: Config, s: State, elapsed: nat)
    requires Inv(cfg, s)
    ensures Inv(cfg, s.(now := s.now + elapsed)) && Inv(cfg, s.(lock := Free))
  {
  }

  lemma NextKeepsInv(cfg: Config, s: State, step: Step)
    requires Inv(cfg, s)
    ensures Inv(cfg, Next(cfg, s, step))
  {
    if OfWorker(step) {
      WorkerStepKeepsInv(cfg, s, step);
    } else {
      ServiceStepKeepsInv(cfg, s, step);
    }
  }

  lemma ExpireCacheKeeps(cfg: Config, s: State)
    requires Inv(cfg, s)
    ensures Inv(cfg, DoExpireCache(s))
  {
  }

  /** The invariant holds in every reachable state. */
  lemma {:induction false} RunKeepsInv(cfg: Config, s: State, steps: seq<Step>)
    requires Inv(cfg, s)
    ensures Inv(cfg, Run(cfg, s, steps))
  {
    if steps != [] {
      RunKeepsInv(cfg, s, steps[..|steps| - 1]);
      NextKeepsInv(cfg, Run(cfg, s, steps[..|steps| - 1]), steps[|steps| - 1]);
    }
  }
}
