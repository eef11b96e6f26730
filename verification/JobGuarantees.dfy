/** What the job protocol promises, over every run of it. */
module JobGuarantees {
  import opened Wrappers
  import opened Sequences
  import opened RunProjection
  import opened JobProtocol
  import Scripts = JobScripts

  // ---- the event log ----

  /** Sequences rise, generations never fall, and a terminal event is the last one. */
  lemma {:induction false} EveryLogIsOrderly(cfg: Config, start: State, steps: seq<Step>)
    requires Initial(cfg, start)
    ensures OrderlyLog(Run(cfg, start, steps).keys.events, cfg.attempt)
  {
    InitialInv(cfg, start);
    RunKeepsInv(cfg, start, steps);
  }

  lemma PublishExtendsLog(cfg: Config, s: State, step: Step)
    requires Inv(cfg, s) && step.Publish?
    ensures var t := Next(cfg, s, step);
            && s.keys.events <= t.keys.events && |t.keys.events| <= |s.keys.events| + 1
            && (t.keys.events != s.keys.events ==> !Finished(s.keys.events))
            && (t.keys.events != s.keys.events && s.keys.cancel == Some(cfg.attempt) ==>
                  t.keys.events[|t.keys.events| - 1].kind == JobCancelled)
  {
    if WorkerOf(s, step.consumer).Working? {
      var lease := WorkerOf(s, step.consumer).lease;
      SendExtendsLog(cfg, s, step.consumer, lease, NextEvent(cfg, lease, step.kind, step.stage, step.error), step.fate);
    }
  }

  lemma SendExtendsLog(cfg: Config, s: State, consumer: string, lease: Lease, e: Event, fate: Fate)
    requires Inv(cfg, s) && e.attempt == cfg.attempt
    ensures var t := Send(s, consumer, lease, e, fate);
            t.keys.events == s.keys.events ||
            (&& t.keys.events == s.keys.events + [e] && !Finished(s.keys.events)
             && (s.keys.cancel == Some(cfg.attempt) ==> e.kind == JobCancelled))
  {
    PublishKeepsOrder(cfg, s.keys, s.delivered, s.now, consumer, e, s.holders);
    PublishKeepsKeys(cfg, s.keys, s.delivered, s.now, consumer, e, s.holders);
  }

  ghost predicate LeftAlone(s: State, t: State, step: Step) {
    && (!step.Publish? ==> t.keys.events == s.keys.events)
    && s.holders <= t.holders && s.now <= t.now
    && (!step.Publish? && !step.Acquire? && !step.Renew? ==> t.keys.execution == s.keys.execution)
    && (t.keys.cancel != s.keys.cancel ==> (step == RemoveMarker && s.removalSent) || step == ApplyCancel)
    && (!step.ProjectEvent? ==> t.row.status == s.row.status)
  }

  lemma WorkerStepsLeaveAlone(cfg: Config, s: State, step: Step)
    ensures LeftAlone(s, NextOfWorker(cfg, s, step), step)
  {
    match step
    case Read(consumer, fate) => DeliveryLeavesAlone(cfg, s, consumer, fate);
    case Claim(consumer, fate) => DeliveryLeavesAlone(cfg, s, consumer, fate);
    case Acquire(consumer, fate) => AcquireLeavesAlone(cfg, s, consumer, fate);
    case Publish(consumer, kind, stage, error, fate) => PublishLeavesAlone(cfg, s, consumer, kind, stage, error, fate);
    case Renew(consumer) => WorkLeavesAlone(cfg, s, consumer);
    case Begin(consumer) => WorkLeavesAlone(cfg, s, consumer);
    case Abandon(consumer) => WorkLeavesAlone(cfg, s, consumer);
    case _ =>
  }

  lemma DeliveryLeavesAlone(cfg: Config, s: State, consumer: string, fate: Fate)
    ensures LeftAlone(s, DoRead(s, consumer, fate), Read(consumer, fate))
    ensures LeftAlone(s, DoClaim(cfg, s, consumer, fate), Claim(consumer, fate))
  {
  }

  lemma WorkLeavesAlone(cfg: Config, s: State, consumer: string)
    ensures LeftAlone(s, DoRenew(cfg, s, consumer), Renew(consumer))
    ensures LeftAlone(s, DoBegin(cfg, s, consumer), Begin(consumer))
    ensures LeftAlone(s, DoAbandon(s, consumer), Abandon(consumer))
  {
  }

  lemma AcquireLeavesAlone(cfg: Config, s: State, consumer: string, fate: Fate)
    ensures LeftAlone(s, DoAcquire(cfg, s, consumer, fate), Acquire(consumer, fate))
  {
    assert Scripts.Acquire(s.keys, s.now, consumer, cfg.leaseMs, cfg.attempt).0.events == s.keys.events;
  }

  lemma PublishLeavesAlone(cfg: Config, s: State, consumer: string, kind: EventKind, stage: Option<string>,
                           error: Option<string>, fate: Fate)
    ensures var t := DoPublish(cfg, s, consumer, kind, stage, error, fate);
            t == s.(keys := t.keys, workers := t.workers) && t.keys.cancel == s.keys.cancel
  {
  }

  lemma ServiceStepsLeaveAlone(cfg: Config, s: State, step: Step)
    ensures LeftAlone(s, NextOfService(cfg, s, step), step)
  {
  }

  /** What each kind of step leaves alone, in any state. */
  lemma OtherStepsLeaveAlone(cfg: Config, s: State, step: Step)
    ensures LeftAlone(s, Next(cfg, s, step), step)
  {
    WorkerStepsLeaveAlone(cfg, s, step);
    ServiceStepsLeaveAlone(cfg, s, step);
  }

  lemma FinishedStays(cfg: Config, s: State, step: Step)
    requires Inv(cfg, s) && Finished(s.keys.events)
    ensures Next(cfg, s, step).keys.events == s.keys.events
  {
    OtherStepsLeaveAlone(cfg, s, step);
    if step.Publish? {
      PublishExtendsLog(cfg, s, step);
    }
  }

  /** Published events are never taken back, and a finished log never changes again. */
  lemma {:induction false} LogOnlyGrows(cfg: Config, s: State, steps: seq<Step>)
    requires Inv(cfg, s)
    ensures s.keys.events <= Run(cfg, s, steps).keys.events
    ensures s.holders <= Run(cfg, s, steps).holders
    ensures s.now <= Run(cfg, s, steps).now
    ensures Finished(s.keys.events) ==> Run(cfg, s, steps).keys.events == s.keys.events
  {
    if steps != [] {
      var before := steps[..|steps| - 1];
      LogOnlyGrows(cfg, s, before);
      RunKeepsInv(cfg, s, before);
      OtherStepsLeaveAlone(cfg, Run(cfg, s, before), steps[|steps| - 1]);
      if steps[|steps| - 1].Publish? {
        PublishExtendsLog(cfg, Run(cfg, s, before), steps[|steps| - 1]);
      }
    }
  }

  // ---- leases ----

  /** Every acquisition gets a generation no earlier one had, although the hash is deleted at the end. */
  lemma {:induction false} AcquisitionsAreFresh(cfg: Config, start: State, steps: seq<Step>, consumer: string)
    requires Initial(cfg, start)
    ensures var s := Run(cfg, start, steps);
            var grant := Scripts.Acquire(s.keys, s.now, consumer, cfg.leaseMs, cfg.attempt).1;
            grant.Some? ==> grant.value.generation == |s.holders| + 1 && !Finished(s.keys.events) &&
                            SequencesUpTo(s.keys.events, grant.value.sequence)
  {
    InitialInv(cfg, start);
    RunKeepsInv(cfg, start, steps);
    var s := Run(cfg, start, steps);
    AcquireKeepsLease(cfg, s.keys, s.delivered, s.now, consumer, s.holders);
  }

  /** A worker whose generation was superseded, or whose lease ran out, changes nothing in Redis any more. */
  lemma {:induction false} SupersededWorkerIsInert(cfg: Config, start: State, steps: seq<Step>, consumer: string, kind: EventKind,
                                stage: Option<string>, error: Option<string>, fate: Fate)
    requires Initial(cfg, start)
    requires var s := Run(cfg, start, steps);
             WorkerOf(s, consumer).Working? &&
             (WorkerOf(s, consumer).lease.generation < |s.holders| || Scripts.UntilOf(s.keys) <= s.now)
    ensures var s := Run(cfg, start, steps);
            DoPublish(cfg, s, consumer, kind, stage, error, fate).keys == s.keys &&
            DoRenew(cfg, s, consumer).keys == s.keys
  {
    InitialInv(cfg, start);
    RunKeepsInv(cfg, start, steps);
    FencedOut(cfg, Run(cfg, start, steps), consumer, kind, stage, error, fate);
  }

  lemma FencedScripts(cfg: Config, k: Scripts.JobKeys, now: nat, generation: nat, consumer: string, e: Event)
    requires !Scripts.LeaseHolds(k, now, generation, consumer)
    ensures Scripts.Publish(k, now, e, generation, consumer) == (k, Scripts.LeaseLost)
    ensures Scripts.Renew(k, now, generation, consumer, cfg.leaseMs) == (k, false)
  {
  }

  lemma FencedOut(cfg: Config, s: State, consumer: string, kind: EventKind, stage: Option<string>,
                  error: Option<string>, fate: Fate)
    requires LeaseCurrent(s.keys, s.delivered, s.holders) && WorkerOf(s, consumer).Working?
    requires WorkerOf(s, consumer).lease.generation < |s.holders| || Scripts.UntilOf(s.keys) <= s.now
    ensures DoPublish(cfg, s, consumer, kind, stage, error, fate).keys == s.keys
    ensures DoRenew(cfg, s, consumer).keys == s.keys
  {
    var lease := WorkerOf(s, consumer).lease;
    FencedScripts(cfg, s.keys, s.now, lease.generation, consumer, NextEvent(cfg, lease, kind, stage, error));
  }

  /** No script makes a lease hold again that did not hold before. */
  lemma ScriptsKeepLost(cfg: Config, k: Scripts.JobKeys, now: nat, generation: nat, consumer: string, e: Event,
                        other: string, theirs: nat)
    requires !Scripts.LeaseHolds(k, now, generation, consumer)
    ensures !Scripts.LeaseHolds(Scripts.Renew(k, now, theirs, other, cfg.leaseMs).0, now, generation, consumer)
    ensures !Scripts.LeaseHolds(Scripts.Publish(k, now, e, theirs, other).0, now, generation, consumer)
    ensures generation <= Scripts.GenerationOf(k) || k.pending.None? ==>
              !Scripts.LeaseHolds(Scripts.Acquire(k, now, other, cfg.leaseMs, cfg.attempt).0, now, generation, consumer)
  {
  }

  lemma LostLeaseStaysLostStep(cfg: Config, s: State, step: Step, generation: nat, consumer: string)
    requires LeaseCurrent(s.keys, s.delivered, s.holders)
    requires generation <= |s.holders| && !Scripts.LeaseHolds(s.keys, s.now, generation, consumer)
    ensures var t := Next(cfg, s, step); !Scripts.LeaseHolds(t.keys, t.now, generation, consumer)
  {
    OtherStepsLeaveAlone(cfg, s, step);
    if step.Acquire? || step.Renew? || step.Publish? {
      var lease := if WorkerOf(s, step.consumer).Working? then WorkerOf(s, step.consumer).lease
                   else Lease(0, 0, false, false, false);
      var e := if step.Publish? then NextEvent(cfg, lease, step.kind, step.stage, step.error)
               else NextEvent(cfg, lease, JobFailed, None, None);
      ScriptsKeepLost(cfg, s.keys, s.now, generation, consumer, e, step.consumer, lease.generation);
    }
  }

  /** Renewal never brings a lost lease back, however often it is tried. */
  lemma {:induction false} LostLeaseStaysLost(cfg: Config, s: State, steps: seq<Step>, generation: nat, consumer: string)
    requires Inv(cfg, s) && generation <= |s.holders| && !Scripts.LeaseHolds(s.keys, s.now, generation, consumer)
    ensures var t := Run(cfg, s, steps); !Scripts.LeaseHolds(t.keys, t.now, generation, consumer)
  {
    if steps != [] {
      var before := steps[..|steps| - 1];
      LostLeaseStaysLost(cfg, s, before, generation, consumer);
      RunKeepsInv(cfg, s, before);
      LogOnlyGrows(cfg, s, before);
      LostLeaseStaysLostStep(cfg, Run(cfg, s, before), steps[|steps| - 1], generation, consumer);
    }
  }

  /** A lease that was granted or renewed holds until the whole duration has passed. */
  lemma RenewalHolds(k: Scripts.JobKeys, now: nat, generation: nat, consumer: string, leaseMs: nat, t: nat)
    requires Scripts.Renew(k, now, generation, consumer, leaseMs).1 && t < now + leaseMs
    ensures Scripts.LeaseHolds(Scripts.Renew(k, now, generation, consumer, leaseMs).0, t, generation, consumer)
  {
  }

  lemma GrantHolds(k: Scripts.JobKeys, now: nat, consumer: string, leaseMs: nat, attempt: string, t: nat)
    requires Scripts.Acquire(k, now, consumer, leaseMs, attempt).1.Some? && t < now + leaseMs
    ensures var (granted, grant) := Scripts.Acquire(k, now, consumer, leaseMs, attempt);
            Scripts.LeaseHolds(granted, t, grant.value.generation, consumer) && Scripts.HeldBy(granted, consumer)
  {
  }

  /** While a lease holds, nobody can take the message or a new generation. */
  lemma LeaseExcludes(k: Scripts.JobKeys, now: nat, generation: nat, consumer: string, other: string, minimumIdle: nat,
                      leaseMs: nat, attempt: string)
    requires Scripts.LeaseHolds(k, now, generation, consumer)
    ensures Scripts.ReclaimOne(k, now, other, minimumIdle) == (k, false)
    ensures Scripts.Acquire(k, now, other, leaseMs, attempt) == (k, None)
  {
  }

  predicate Protected(s: State, generation: nat, consumer: string) {
    Scripts.LeaseHolds(s.keys, s.now, generation, consumer) && Scripts.HeldBy(s.keys, consumer)
  }

  /** The step is a renewal of this very lease. */
  predicate Renews(s: State, step: Step, generation: nat, consumer: string) {
    step == Renew(consumer) && WorkerOf(s, consumer).Working? && WorkerOf(s, consumer).lease.generation == generation
  }

  /** The holder keeps the message and the generation; the lease ends at the deadline. */
  ghost predicate KeepsLease(s: State, generation: nat, consumer: string, holders: seq<string>, deadline: nat) {
    && s.holders == holders
    && (Finished(s.keys.events) ||
        (&& Scripts.HeldBy(s.keys, consumer) && s.keys.execution.Some? && s.keys.execution.value.generation == generation
         && s.keys.execution.value.consumer == consumer && s.keys.execution.value.untilMs == deadline))
  }

  lemma ScriptsRespectLease(cfg: Config, k: Scripts.JobKeys, now: nat, generation: nat, consumer: string, e: Event,
                            other: string, theirs: nat)
    requires Scripts.LeaseHolds(k, now, generation, consumer) && Scripts.HeldBy(k, consumer)
    requires e.generation == theirs
    ensures !(other == consumer && theirs == generation) ==> Scripts.Renew(k, now, theirs, other, cfg.leaseMs).0 == k
    ensures other == consumer && theirs == generation ==>
              Scripts.Renew(k, now, theirs, other, cfg.leaseMs).0 ==
              k.(execution := Some(k.execution.value.(untilMs := now + cfg.leaseMs)))
    ensures var published := Scripts.Publish(k, now, e, theirs, other).0;
            || Finished(published.events)
            || (published.pending == k.pending && published.execution.Some? &&
                published.execution.value == k.execution.value.(sequence := published.execution.value.sequence))
  {
  }

  lemma DeliveryKeepsLease(cfg: Config, s: State, other: string, fate: Fate, generation: nat, consumer: string)
    requires s.delivered && Protected(s, generation, consumer)
    ensures KeepsLease(DoRead(s, other, fate), generation, consumer, s.holders, Scripts.UntilOf(s.keys))
    ensures KeepsLease(DoClaim(cfg, s, other, fate), generation, consumer, s.holders, Scripts.UntilOf(s.keys))
    ensures KeepsLease(DoAcquire(cfg, s, other, fate), generation, consumer, s.holders, Scripts.UntilOf(s.keys))
  {
    LeaseExcludes(s.keys, s.now, generation, consumer, other, cfg.leaseMs, cfg.leaseMs, cfg.attempt);
  }

  lemma PublishKeepsLease(cfg: Config, s: State, step: Step, generation: nat, consumer: string)
    requires Protected(s, generation, consumer) && step.Publish?
    ensures KeepsLease(DoPublish(cfg, s, step.consumer, step.kind, step.stage, step.error, step.fate), generation, consumer,
                       s.holders, Scripts.UntilOf(s.keys))
  {
    if WorkerOf(s, step.consumer).Working? {
      var lease := WorkerOf(s, step.consumer).lease;
      ScriptsRespectLease(cfg, s.keys, s.now, generation, consumer,
                          NextEvent(cfg, lease, step.kind, step.stage, step.error), step.consumer, lease.generation);
    }
  }

  lemma RenewKeepsLease(cfg: Config, s: State, other: string, generation: nat, consumer: string)
    requires Protected(s, generation, consumer)
    ensures KeepsLease(DoRenew(cfg, s, other), generation, consumer, s.holders,
                       if Renews(s, Renew(other), generation, consumer) then s.now + cfg.leaseMs
                       else Scripts.UntilOf(s.keys))
  {
    if WorkerOf(s, other).Working? {
      var theirs := WorkerOf(s, other).lease.generation;
      ScriptsRespectLease(cfg, s.keys, s.now, generation, consumer, Event(JobFailed, "", 0, theirs, None, None), other,
                          theirs);
    }
  }

  lemma WorkerStepKeepsLease(cfg: Config, s: State, step: Step, generation: nat, consumer: string)
    requires s.delivered && Protected(s, generation, consumer)
    ensures KeepsLease(NextOfWorker(cfg, s, step), generation, consumer, s.holders,
                       if Renews(s, step, generation, consumer) then s.now + cfg.leaseMs else Scripts.UntilOf(s.keys))
  {
    match step
    case Read(other, fate) => DeliveryKeepsLease(cfg, s, other, fate, generation, consumer);
    case Claim(other, fate) => DeliveryKeepsLease(cfg, s, other, fate, generation, consumer);
    case Acquire(other, fate) => DeliveryKeepsLease(cfg, s, other, fate, generation, consumer);
    case Publish(_, _, _, _, _) => PublishKeepsLease(cfg, s, step, generation, consumer);
    case Renew(other) => RenewKeepsLease(cfg, s, other, generation, consumer);
    case _ =>
  }

  lemma ServiceStepKeepsLease(cfg: Config, s: State, step: Step, generation: nat, consumer: string)
    requires Protected(s, generation, consumer) && !OfWorker(step)
    ensures KeepsLease(NextOfService(cfg, s, step), generation, consumer, s.holders, Scripts.UntilOf(s.keys))
  {
  }

  /** A finished job is acquired by nobody any more. */
  lemma FinishedKeepsHolders(cfg: Config, s: State, step: Step)
    requires Inv(cfg, s) && Finished(s.keys.events)
    ensures Next(cfg, s, step).holders == s.holders && Finished(Next(cfg, s, step).keys.events)
  {
    FinishedStays(cfg, s, step);
    if step.Acquire? {
      AcquireKeepsLease(cfg, s.keys, s.delivered, s.now, step.consumer, s.holders);
    }
  }

  /** When the lease ends, given the renewals among the steps. */
  ghost function Deadline(cfg: Config, s: State, steps: seq<Step>, generation: nat, consumer: string): nat {
    if steps == [] then Scripts.UntilOf(s.keys)
    else
      var before := steps[..|steps| - 1];
      if Renews(Run(cfg, s, before), steps[|steps| - 1], generation, consumer) then Run(cfg, s, before).now + cfg.leaseMs
      else Deadline(cfg, s, before, generation, consumer)
  }

  /** At no point of the run had the clock reached the deadline of the last renewal before it. */
  ghost predicate RenewedInTime(cfg: Config, s: State, steps: seq<Step>, generation: nat, consumer: string) {
    && Run(cfg, s, steps).now < Deadline(cfg, s, steps, generation, consumer)
    && (steps != [] ==> RenewedInTime(cfg, s, steps[..|steps| - 1], generation, consumer))
  }

  /**
    A worker that renews in time is never superseded: no generation is granted after its
    own, and it holds message and lease until it ends the job itself.
   */
  lemma {:induction false} RenewingWorkerIsNeverSuperseded(cfg: Config, s: State, steps: seq<Step>, generation: nat,
                                                           consumer: string)
    requires Inv(cfg, s) && Protected(s, generation, consumer) && RenewedInTime(cfg, s, steps, generation, consumer)
    ensures KeepsLease(Run(cfg, s, steps), generation, consumer, s.holders,
                       Deadline(cfg, s, steps, generation, consumer))
    ensures Finished(Run(cfg, s, steps).keys.events) || Protected(Run(cfg, s, steps), generation, consumer)
  {
    if steps != [] {
      var before, step := steps[..|steps| - 1], steps[|steps| - 1];
      RenewingWorkerIsNeverSuperseded(cfg, s, before, generation, consumer);
      RunKeepsInv(cfg, s, before);
      var t := Run(cfg, s, before);
      if Finished(t.keys.events) {
        FinishedKeepsHolders(cfg, t, step);
      } else if OfWorker(step) {
        WorkerStepKeepsLease(cfg, t, step, generation, consumer);
      } else {
        ServiceStepKeepsLease(cfg, t, step, generation, consumer);
      }
    }
  }

  // ---- executions ----

  /** However often the job is redelivered, the processor starts at most the configured number of times. */
  lemma {:induction false} ProcessorStartsAreBounded(cfg: Config, start: State, steps: seq<Step>)
    requires Initial(cfg, start)
    ensures var s := Run(cfg, start, steps);
            |s.runs| <= cfg.maximumExecutions && Distinct(s.runs) &&
            forall g | g in s.runs :: Announced(s.keys.events, g)
  {
    InitialInv(cfg, start);
    RunKeepsInv(cfg, start, steps);
    var s := Run(cfg, start, steps);
    forall g | g in s.runs
      ensures 1 <= g <= cfg.maximumExecutions && Announced(s.keys.events, g)
    {
      assert RunAllowed(cfg, g, s.keys.events, |s.holders|);
    }
    DistinctBetween(s.runs, cfg.maximumExecutions);
  }

  lemma DistinctBetween(s: seq<nat>, bound: nat)
    requires Distinct(s) && forall g | g in s :: 1 <= g <= bound
    ensures |s| <= bound
  {
    assert forall i | 0 <= i < |s| :: s[i] in s;
    DistinctFits(seq(|s|, i requires 0 <= i < |s| => s[i] - 1), bound);
  }

  /** A fenced job_succeeded comes from an execution that was allowed to run, job_cancelled from a request. */
  lemma {:induction false} OutcomesAreHonest(cfg: Config, start: State, steps: seq<Step>, i: nat)
    requires Initial(cfg, start)
    requires i < |Run(cfg, start, steps).keys.events| && Run(cfg, start, steps).keys.events[i].generation > 0
    ensures var s := Run(cfg, start, steps);
            var e := s.keys.events[i];
            && (e.kind == JobSucceeded ==> e.generation <= cfg.maximumExecutions && Announced(s.keys.events, e.generation))
            && (e.kind == JobCancelled ==> s.row.cancelRequested)
  {
    InitialInv(cfg, start);
    RunKeepsInv(cfg, start, steps);
    var s := Run(cfg, start, steps);
    assert Honest(s.keys.events[i], s.runs, s.row.cancelRequested);
    if s.keys.events[i].kind == JobSucceeded {
      assert RunAllowed(cfg, s.keys.events[i].generation, s.keys.events, |s.holders|);
    }
  }

  // ---- cancellation ----

  ghost predicate OnlyCancellationAfter(log: seq<Event>, k: Scripts.JobKeys, attempt: string) {
    || (k.events == log && k.cancel == Some(attempt))
    || EndsCancelled(log, k.events)
  }

  ghost predicate EndsCancelled(log: seq<Event>, later: seq<Event>) {
    log <= later && |later| == |log| + 1 && later[|log|].kind == JobCancelled
  }

  /** The marker may go only once a terminal status is durable. */
  lemma MarkerOutlivesTheJob(cfg: Config, s: State, step: Step)
    requires Inv(cfg, s) && s.keys.cancel.Some? && Next(cfg, s, step).keys.cancel.None?
    ensures TerminalStatus(s.row.status) && Finished(s.keys.events)
  {
    OtherStepsLeaveAlone(cfg, s, step);
    TerminalRowMeansFinished(cfg, s.row, s.keys.events, s.projected);
  }

  lemma MarkedStep(cfg: Config, s: State, step: Step)
    requires Inv(cfg, s) && s.keys.cancel == Some(cfg.attempt) && !Finished(s.keys.events)
    ensures OnlyCancellationAfter(s.keys.events, Next(cfg, s, step).keys, cfg.attempt)
  {
    var t := Next(cfg, s, step);
    OtherStepsLeaveAlone(cfg, s, step);
    if t.keys.cancel.None? {
      MarkerOutlivesTheJob(cfg, s, step);
    }
    if step.Publish? {
      PublishExtendsLog(cfg, s, step);
    }
  }

  lemma MarkedThenStep(cfg: Config, log: seq<Event>, t: State, step: Step)
    requires Inv(cfg, t) && !Finished(log) && OnlyCancellationAfter(log, t.keys, cfg.attempt)
    ensures OnlyCancellationAfter(log, Next(cfg, t, step).keys, cfg.attempt)
  {
    if Finished(t.keys.events) {
      FinishedStays(cfg, t, step);
    } else {
      MarkedStep(cfg, t, step);
    }
  }

  /** Once the marker is set and the job still open, nothing but one job_cancelled is ever published. */
  lemma {:induction false} OnlyCancellationFollowsTheMarker(cfg: Config, s: State, steps: seq<Step>)
    requires Inv(cfg, s) && s.keys.cancel == Some(cfg.attempt) && !Finished(s.keys.events)
    ensures OnlyCancellationAfter(s.keys.events, Run(cfg, s, steps).keys, cfg.attempt)
  {
    if steps != [] {
      var before := steps[..|steps| - 1];
      OnlyCancellationFollowsTheMarker(cfg, s, before);
      RunKeepsInv(cfg, s, before);
      MarkedThenStep(cfg, s.keys.events, Run(cfg, s, before), steps[|steps| - 1]);
    }
  }

  /** A durable, delivered request on an open job can only end in job_cancelled. */
  lemma {:induction false} DeliveredRequestIsBinding(cfg: Config, start: State, first: seq<Step>, steps: seq<Step>)
    requires Initial(cfg, start)
    requires var s := Run(cfg, start, first); s.row.cancelDelivered && !Finished(s.keys.events)
    ensures var s := Run(cfg, start, first);
            OnlyCancellationAfter(s.keys.events, Run(cfg, s, steps).keys, cfg.attempt)
  {
    InitialInv(cfg, start);
    RunKeepsInv(cfg, start, first);
    OnlyCancellationFollowsTheMarker(cfg, Run(cfg, start, first), steps);
  }

  /** A cleaned marker is not set again, not even by a delivery that arrives late, while the cached run lasts. */
  lemma {:induction false} CleanedMarkerStaysAway(cfg: Config, start: State, steps: seq<Step>)
    requires Initial(cfg, start)
    ensures var s := Run(cfg, start, steps);
            s.row.cancelCleaned && s.keys.cache.status.Some? ==> s.keys.cancel == None && TerminalStatus(s.row.status)
  {
    InitialInv(cfg, start);
    RunKeepsInv(cfg, start, steps);
  }

  // ---- the durable outcome ----

  lemma TerminalRowShowsOutcome(cfg: Config, row: RunRow, log: seq<Event>, projected: set<nat>)
    requires OrderlyLog(log, cfg.attempt) && RowFollows(cfg, row, log, projected) && TerminalStatus(row.status)
    ensures Finished(log) && Shows(row.status, log[|log| - 1].kind)
  {
    var m: nat :| Newest(row, log, projected, m);
    assert TerminalKind(log[m].kind);
  }

  /** A terminal row shows the outcome of the last event ever published, and keeps showing it. */
  lemma {:induction false} DurableOutcomeIsFinal(cfg: Config, start: State, first: seq<Step>, steps: seq<Step>)
    requires Initial(cfg, start)
    requires TerminalStatus(Run(cfg, start, first).row.status)
    ensures var s := Run(cfg, start, first);
            var t := Run(cfg, s, steps);
            && Finished(s.keys.events) && t.keys.events == s.keys.events
            && Shows(s.row.status, s.keys.events[|s.keys.events| - 1].kind)
            && t.row.status == s.row.status
  {
    InitialInv(cfg, start);
    RunKeepsInv(cfg, start, first);
    var s := Run(cfg, start, first);
    TerminalRowShowsOutcome(cfg, s.row, s.keys.events, s.projected);
    LogOnlyGrows(cfg, s, steps);
    StatusStays(cfg, s, steps);
  }

  /** The run status an accepted event leaves in the cache. */
  lemma PublishedStatus(k: Scripts.JobKeys, now: nat, e: Event, generation: nat, consumer: string)
    requires Scripts.Publish(k, now, e, generation, consumer).1 == Scripts.Published
    ensures var cache := Scripts.Publish(k, now, e, generation, consumer).0.cache;
            && cache.lastEvent == Some(e)
            && (TerminalKind(e.kind) ==> cache.status.Some? && Shows(cache.status.value, e.kind))
            && (e.kind == JobStarted || e.kind == StageStarted ==> cache.status == Some(Running))
            && (!TerminalKind(e.kind) && e.kind != JobStarted && e.kind != StageStarted ==> cache.status == k.cache.status)
  {
  }

  /** The cached status is final exactly when the log is, and then shows the outcome of its last event. */
  lemma {:induction false} CachedOutcomeIsTrue(cfg: Config, start: State, steps: seq<Step>)
    requires Initial(cfg, start)
    ensures var k := Run(cfg, start, steps).keys;
            k.cache.status.Some? ==>
              && (TerminalStatus(k.cache.status.value) <==> Finished(k.events))
              && (Finished(k.events) ==> Shows(k.cache.status.value, k.events[|k.events| - 1].kind))
  {
    InitialInv(cfg, start);
    RunKeepsInv(cfg, start, steps);
  }

  lemma {:induction false} StatusStays(cfg: Config, s: State, steps: seq<Step>)
    requires TerminalStatus(s.row.status)
    ensures Run(cfg, s, steps).row.status == s.row.status
  {
    if steps != [] {
      StatusStays(cfg, s, steps[..|steps| - 1]);
      OtherStepsLeaveAlone(cfg, Run(cfg, s, steps[..|steps| - 1]), steps[|steps| - 1]);
    }
  }

  // ---- recovery ----

  /** A spare worker takes the message over, fails the job, and answers a cancellation if there is one. */
  function RescueSteps(cfg: Config, s: State, consumer: string): seq<Step> {
    (if s.delivered then [Tick(Scripts.UntilOf(s.keys) + DeliveredAt(s.keys) + cfg.leaseMs), Claim(consumer, Answered)]
     else [Tick(0), Read(consumer, Answered)])
    + [Acquire(consumer, Answered),
       Publish(consumer, JobFailed, None, None, Answered),
       Publish(consumer, JobCancelled, None, None, Answered)]
  }

  function DeliveredAt(k: Scripts.JobKeys): nat { if k.pending.Some? then k.pending.value.deliveredAt else 0 }

  lemma RunAppends(cfg: Config, s: State, steps: seq<Step>, step: Step)
    ensures Run(cfg, s, steps + [step]) == Next(cfg, Run(cfg, s, steps), step)
  {
    assert (steps + [step])[..|steps|] == steps;
  }

  lemma RunFive(cfg: Config, s: State, a: Step, b: Step, c: Step, d: Step, e: Step)
    ensures Run(cfg, s, [a, b, c, d, e]) ==
            Next(cfg, Next(cfg, Next(cfg, Next(cfg, Next(cfg, s, a), b), c), d), e)
  {
    var one := [] + [a];
    RunAppends(cfg, s, [], a);
    RunAppends(cfg, s, one, b);
    RunAppends(cfg, s, one + [b], c);
    RunAppends(cfg, s, one + [b] + [c], d);
    RunAppends(cfg, s, one + [b] + [c] + [d], e);
    FiveInARow(a, b, c, d, e);
  }

  lemma FiveInARow(a: Step, b: Step, c: Step, d: Step, e: Step)
    ensures [] + [a] + [b] + [c] + [d] + [e] == [a, b, c, d, e]
  {
  }

  /** An idle delivery whose lease has run out can be claimed. */
  lemma ClaimedAfterWaiting(cfg: Config, s: State, consumer: string)
    requires Inv(cfg, s) && !Finished(s.keys.events) && WorkerOf(s, consumer) == Resting && s.delivered
    ensures var waited := Next(cfg, s, Tick(Scripts.UntilOf(s.keys) + DeliveredAt(s.keys) + cfg.leaseMs));
            var t := Next(cfg, waited, Claim(consumer, Answered));
            && t.keys.events == s.keys.events && WorkerOf(t, consumer) == InHand
            && Scripts.HeldBy(t.keys, consumer) && Scripts.UntilOf(t.keys) <= t.now
  {
  }

  lemma ReadAfterTick(cfg: Config, s: State, consumer: string)
    requires Inv(cfg, s) && WorkerOf(s, consumer) == Resting && !s.delivered
    ensures var t := Next(cfg, Next(cfg, s, Tick(0)), Read(consumer, Answered));
            && t.keys.events == s.keys.events && WorkerOf(t, consumer) == InHand
            && Scripts.HeldBy(t.keys, consumer) && Scripts.UntilOf(t.keys) <= t.now
  {
  }

  lemma InvAfterTwo(cfg: Config, s: State, a: Step, b: Step)
    requires Inv(cfg, s)
    ensures Inv(cfg, Next(cfg, Next(cfg, s, a), b))
  {
    NextKeepsInv(cfg, s, a);
    NextKeepsInv(cfg, Next(cfg, s, a), b);
  }

  lemma TakenOver(cfg: Config, s: State, consumer: string)
    requires Inv(cfg, s) && !Finished(s.keys.events) && WorkerOf(s, consumer) == Resting
    ensures var steps := RescueSteps(cfg, s, consumer);
            var t := Next(cfg, Next(cfg, s, steps[0]), steps[1]);
            && Inv(cfg, t) && t.keys.events == s.keys.events && WorkerOf(t, consumer) == InHand
            && Scripts.HeldBy(t.keys, consumer) && Scripts.UntilOf(t.keys) <= t.now
  {
    var steps := RescueSteps(cfg, s, consumer);
    InvAfterTwo(cfg, s, steps[0], steps[1]);
    if s.delivered {
      ClaimedAfterWaiting(cfg, s, consumer);
    } else {
      ReadAfterTick(cfg, s, consumer);
    }
  }

  lemma Reacquired(cfg: Config, s: State, consumer: string)
    requires Inv(cfg, s) && !Finished(s.keys.events) && WorkerOf(s, consumer) == InHand
    requires Scripts.HeldBy(s.keys, consumer) && Scripts.UntilOf(s.keys) <= s.now && cfg.leaseMs > 0
    ensures var t := Next(cfg, s, Acquire(consumer, Answered));
            && Inv(cfg, t) && t.keys.events == s.keys.events && WorkerOf(t, consumer).Working?
            && Ready(t, consumer) && !WorkerOf(t, consumer).lease.refused
  {
    NextKeepsInv(cfg, s, Acquire(consumer, Answered));
  }

  /** The worker's next event will be in order and inside its lease. */
  predicate Ready(s: State, consumer: string) {
    && WorkerOf(s, consumer).Working?
    && var lease := WorkerOf(s, consumer).lease;
       && Scripts.LeaseHolds(s.keys, s.now, lease.generation, consumer) && Scripts.HeldBy(s.keys, consumer)
       && lease.sequence >= Scripts.SequenceOf(s.keys)
  }

  lemma FailureEnds(cfg: Config, s: State, consumer: string)
    requires Ready(s, consumer) && !WorkerOf(s, consumer).lease.refused && s.keys.cancel != Some(cfg.attempt)
    ensures Finished(Next(cfg, s, Publish(consumer, JobFailed, None, None, Answered)).keys.events)
  {
    var t := Next(cfg, s, Publish(consumer, JobFailed, None, None, Answered));
    assert LastEventIs(t.keys.events, NextEvent(cfg, WorkerOf(s, consumer).lease, JobFailed, None, None));
  }

  lemma FailureRefused(cfg: Config, s: State, consumer: string)
    requires Ready(s, consumer) && !WorkerOf(s, consumer).lease.refused && s.keys.cancel == Some(cfg.attempt)
    ensures var t := Next(cfg, s, Publish(consumer, JobFailed, None, None, Answered));
            Ready(t, consumer) && WorkerOf(t, consumer).lease.refused
  {
  }

  lemma CancellationEnds(cfg: Config, s: State, consumer: string)
    requires Ready(s, consumer) && WorkerOf(s, consumer).lease.refused
    ensures Finished(Next(cfg, s, Publish(consumer, JobCancelled, None, None, Answered)).keys.events)
  {
    var t := Next(cfg, s, Publish(consumer, JobCancelled, None, None, Answered));
    assert LastEventIs(t.keys.events, NextEvent(cfg, WorkerOf(s, consumer).lease, JobCancelled, None, None));
  }

  lemma Concluded(cfg: Config, s: State, consumer: string)
    requires Inv(cfg, s) && Ready(s, consumer) && !WorkerOf(s, consumer).lease.refused
    ensures var t := Next(cfg, s, Publish(consumer, JobFailed, None, None, Answered));
            Finished(Next(cfg, t, Publish(consumer, JobCancelled, None, None, Answered)).keys.events)
  {
    var t := Next(cfg, s, Publish(consumer, JobFailed, None, None, Answered));
    if s.keys.cancel == Some(cfg.attempt) {
      FailureRefused(cfg, s, consumer);
      CancellationEnds(cfg, t, consumer);
    } else {
      NextKeepsInv(cfg, s, Publish(consumer, JobFailed, None, None, Answered));
      FailureEnds(cfg, s, consumer);
      FinishedStays(cfg, t, Publish(consumer, JobCancelled, None, None, Answered));
    }
  }

  lemma RescueEnds(cfg: Config, s: State, consumer: string)
    requires Inv(cfg, s) && !Finished(s.keys.events) && WorkerOf(s, consumer) == InHand
    requires Scripts.HeldBy(s.keys, consumer) && Scripts.UntilOf(s.keys) <= s.now && cfg.leaseMs > 0
    ensures var t := Next(cfg, Next(cfg, s, Acquire(consumer, Answered)),
                          Publish(consumer, JobFailed, None, None, Answered));
            Finished(Next(cfg, t, Publish(consumer, JobCancelled, None, None, Answered)).keys.events)
  {
    Reacquired(cfg, s, consumer);
    Concluded(cfg, Next(cfg, s, Acquire(consumer, Answered)), consumer);
  }

  lemma {:induction false} RescueWorks(cfg: Config, s: State, consumer: string)
    requires Inv(cfg, s) && !Finished(s.keys.events) && WorkerOf(s, consumer) == Resting && cfg.leaseMs > 0
    ensures Finished(Run(cfg, s, RescueSteps(cfg, s, consumer)).keys.events)
  {
    var steps := RescueSteps(cfg, s, consumer);
    assert steps == [steps[0], steps[1], steps[2], steps[3], steps[4]];
    RunFive(cfg, s, steps[0], steps[1], steps[2], steps[3], steps[4]);
    TakenOver(cfg, s, consumer);
    RescueEnds(cfg, Next(cfg, Next(cfg, s, steps[0]), steps[1]), consumer);
  }

  /** No reachable state is stuck: whatever crashed, one spare worker can bring the job to its end. */
  lemma {:induction false} EveryJobCanFinish(cfg: Config, start: State, first: seq<Step>, consumer: string)
    requires Initial(cfg, start) && cfg.leaseMs > 0
    requires WorkerOf(Run(cfg, start, first), consumer) == Resting
    ensures var s := Run(cfg, start, first);
            Finished(Run(cfg, s, RescueSteps(cfg, s, consumer)).keys.events)
  {
    InitialInv(cfg, start);
    RunKeepsInv(cfg, start, first);
    var s := Run(cfg, start, first);
    if Finished(s.keys.events) {
      LogOnlyGrows(cfg, s, RescueSteps(cfg, s, consumer));
    } else {
      RescueWorks(cfg, s, consumer);
    }
  }
}
