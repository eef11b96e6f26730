/**
  What the steps of a job achieve: a spare worker can bring an open job to success,
  a request can always be delivered and cleaned up, and the row's lock is exclusive.
 */
module JobProgress {
  import opened Wrappers
  import opened RunProjection
  import opened JobProtocol
  import opened JobGuarantees
  import Scripts = JobScripts

  lemma {:induction false} RunSplits(cfg: Config, s: State, first: seq<Step>, steps: seq<Step>)
    ensures Run(cfg, s, first + steps) == Run(cfg, Run(cfg, s, first), steps)
  {
    if steps == [] {
      assert first + steps == first;
    } else {
      var before, last := steps[..|steps| - 1], steps[|steps| - 1];
      RunSplits(cfg, s, first, before);
      assert first + steps == (first + before) + [last] && steps == before + [last];
      RunAppends(cfg, s, first + before, last);
      RunAppends(cfg, Run(cfg, s, first), before, last);
    }
  }

  lemma RunTwo(cfg: Config, s: State, a: Step, b: Step)
    ensures Run(cfg, s, [a, b]) == Next(cfg, Next(cfg, s, a), b)
  {
    RunAppends(cfg, s, [], a);
    RunAppends(cfg, s, [a], b);
    assert [] + [a] == [a] && [a] + [b] == [a, b];
  }

  lemma RunThree(cfg: Config, s: State, a: Step, b: Step, c: Step)
    ensures Run(cfg, s, [a, b, c]) == Next(cfg, Next(cfg, Next(cfg, s, a), b), c)
  {
    RunTwo(cfg, s, a, b);
    RunAppends(cfg, s, [a, b], c);
    assert [a, b] + [c] == [a, b, c];
  }

  lemma RunFour(cfg: Config, s: State, a: Step, b: Step, c: Step, d: Step)
    ensures Run(cfg, s, [a, b, c, d]) == Next(cfg, Next(cfg, Next(cfg, Next(cfg, s, a), b), c), d)
  {
    RunTwo(cfg, s, a, b);
    RunTwo(cfg, Run(cfg, s, [a, b]), c, d);
    RunSplits(cfg, s, [a, b], [c, d]);
    assert [a, b] + [c, d] == [a, b, c, d];
  }

  // ---- how work ends ----

  /** The worker's own attempt to publish a terminal event, which was not answered with a cancellation request. */
  predicate ReportsTheEnd(cfg: Config, s: State, step: Step, consumer: string)
    requires WorkerOf(s, consumer).Working?
  {
    && step.Publish? && step.consumer == consumer && step.kind in {JobSucceeded, JobFailed, JobCancelled}
    && var lease := WorkerOf(s, consumer).lease;
       && MayPublish(lease, step.kind)
       && !(step.fate == Answered &&
            Scripts.Publish(s.keys, s.now, NextEvent(cfg, lease, step.kind, step.stage, step.error), lease.generation,
                            consumer).1 == Scripts.CancellationRequested)
  }

  predicate ByConsumer(step: Step, consumer: string) { OfWorker(step) && step.consumer == consumer }

  lemma OthersLeaveWorker(cfg: Config, s: State, step: Step, consumer: string)
    requires !ByConsumer(step, consumer)
    ensures WorkerOf(Next(cfg, s, step), consumer) == WorkerOf(s, consumer)
  {
    if !OfWorker(step) {
      ServiceLeavesWorkers(cfg, s, step);
    }
  }

  lemma ServiceLeavesWorkers(cfg: Config, s: State, step: Step)
    ensures NextOfService(cfg, s, step).workers == s.workers
  {
  }

  lemma ReportEndsWork(cfg: Config, s: State, step: Step, consumer: string)
    requires WorkerOf(s, consumer).Working? && step.Publish? && step.consumer == consumer
    ensures var next := WorkerOf(DoPublish(cfg, s, consumer, step.kind, step.stage, step.error, step.fate), consumer);
      && (!next.Working? <==> ReportsTheEnd(cfg, s, step, consumer))
      && (next.Working? ==> next.lease.generation == WorkerOf(s, consumer).lease.generation)
  {
  }

  lemma OwnStepsKeepWorking(cfg: Config, s: State, step: Step, consumer: string)
    requires WorkerOf(s, consumer).Working? && ByConsumer(step, consumer) && !step.Publish?
    ensures var next := WorkerOf(NextOfWorker(cfg, s, step), consumer);
      && (!next.Working? <==> step == Stop(consumer) || step == Abandon(consumer))
      && (next.Working? ==> next.lease.generation == WorkerOf(s, consumer).lease.generation)
      && (step == Abandon(consumer) ==> next == Resting)
  {
  }

  /**
    A worker stops working on its lease by being stopped, giving up, or reporting the end; a
    lost event does not stop it.
   */
  lemma WorkEndsExactlyWhen(cfg: Config, s: State, step: Step, consumer: string)
    requires WorkerOf(s, consumer).Working?
    ensures var next := WorkerOf(Next(cfg, s, step), consumer);
      && (!next.Working? <==> step == Stop(consumer) || step == Abandon(consumer) || ReportsTheEnd(cfg, s, step, consumer))
      && (next.Working? ==> next.lease.generation == WorkerOf(s, consumer).lease.generation)
      && (step == Abandon(consumer) ==> next == Resting)
  {
    if !ByConsumer(step, consumer) {
      OthersLeaveWorker(cfg, s, step, consumer);
    } else if step.Publish? {
      ReportEndsWork(cfg, s, step, consumer);
    } else {
      OwnStepsKeepWorking(cfg, s, step, consumer);
    }
  }

  /**
    Before it has a lease, a worker that gets no answer stops; a command that never arrived
    changed nothing in Redis.
   */
  lemma UnansweredWorkerStops(cfg: Config, s: State, consumer: string, fate: Fate)
    requires fate != Answered
    ensures WorkerOf(s, consumer) == Resting && !s.delivered ==> WorkerOf(DoRead(s, consumer, fate), consumer) == Stopped
    ensures WorkerOf(s, consumer) == Resting ==> WorkerOf(DoClaim(cfg, s, consumer, fate), consumer) == Stopped
    ensures WorkerOf(s, consumer) == InHand ==> WorkerOf(DoAcquire(cfg, s, consumer, fate), consumer) == Stopped
    ensures fate == NeverApplied ==> DoRead(s, consumer, fate).keys == s.keys && DoClaim(cfg, s, consumer, fate).keys == s.keys
    ensures fate == NeverApplied ==> DoAcquire(cfg, s, consumer, fate).keys == s.keys
  {
  }

  // ---- success ----

  /** A spare worker takes the message over, announces itself, runs the processor and reports success. */
  function SuccessSteps(cfg: Config, s: State, consumer: string): seq<Step> {
    RescueSteps(cfg, s, consumer)[..2] +
    [Acquire(consumer, Answered), Publish(consumer, JobStarted, None, None, Answered), Begin(consumer),
     Publish(consumer, JobSucceeded, None, None, Answered)]
  }

  lemma TakeoverLeavesTheRest(cfg: Config, s: State, consumer: string)
    ensures var steps := RescueSteps(cfg, s, consumer);
            var t := Next(cfg, Next(cfg, s, steps[0]), steps[1]);
            t.holders == s.holders && t.runs == s.runs && t.keys.cancel == s.keys.cancel
  {
  }

  lemma GrantIsNext(cfg: Config, s: State, consumer: string)
    requires Inv(cfg, s) && !Finished(s.keys.events) && WorkerOf(s, consumer) == InHand
    requires Scripts.HeldBy(s.keys, consumer) && Scripts.UntilOf(s.keys) <= s.now && cfg.leaseMs > 0
    ensures var t := Next(cfg, s, Acquire(consumer, Answered));
            && Ready(t, consumer) && WorkerOf(t, consumer).lease.generation == |s.holders| + 1
            && !WorkerOf(t, consumer).lease.refused && !WorkerOf(t, consumer).lease.begun
            && t.keys.events == s.keys.events && t.runs == s.runs && t.keys.cancel == s.keys.cancel
  {
    Reacquired(cfg, s, consumer);
    AcquireLeavesAlone(cfg, s, consumer, Answered);
  }

  lemma Announces(cfg: Config, s: State, consumer: string)
    requires Ready(s, consumer) && !WorkerOf(s, consumer).lease.refused && s.keys.cancel != Some(cfg.attempt)
    ensures var t := Next(cfg, s, Publish(consumer, JobStarted, None, None, Answered));
            var lease := WorkerOf(s, consumer).lease;
            && Ready(t, consumer) && t.runs == s.runs && t.keys.cancel == s.keys.cancel
            && WorkerOf(t, consumer) == Working(lease.(sequence := lease.sequence + 1, announced := true))
            && t.keys.events == s.keys.events + [NextEvent(cfg, lease, JobStarted, None, None)]
  {
  }

  /** An announced worker within the budget starts the processor, once; any other does not. */
  lemma BeginsExactlyWhen(cfg: Config, s: State, consumer: string)
    ensures var t := Next(cfg, s, Begin(consumer));
            var w := WorkerOf(s, consumer);
      if w.Working? && w.lease.announced && !w.lease.begun && w.lease.generation <= cfg.maximumExecutions
      then t.runs == s.runs + [w.lease.generation] && WorkerOf(t, consumer) == Working(w.lease.(begun := true)) &&
           t.keys == s.keys && t.now == s.now
      else t == s
  {
  }

  lemma Succeeds(cfg: Config, s: State, consumer: string)
    requires Ready(s, consumer) && !WorkerOf(s, consumer).lease.refused && s.keys.cancel != Some(cfg.attempt)
    requires WorkerOf(s, consumer).lease.begun
    ensures var t := Next(cfg, s, Publish(consumer, JobSucceeded, None, None, Answered));
            && t.runs == s.runs
            && t.keys.events == s.keys.events + [NextEvent(cfg, WorkerOf(s, consumer).lease, JobSucceeded, None, None)]
  {
  }

  /** job_started and job_succeeded of one execution. */
  predicate SucceededBy(log: seq<Event>, later: seq<Event>, generation: nat) {
    && |later| == |log| + 2 && log <= later
    && later[|log|].kind == JobStarted && later[|log|].generation == generation
    && later[|log| + 1].kind == JobSucceeded && later[|log| + 1].generation == generation
  }

  lemma WorkSucceeds(cfg: Config, s: State, consumer: string)
    requires Inv(cfg, s) && !Finished(s.keys.events) && WorkerOf(s, consumer) == InHand
    requires Scripts.HeldBy(s.keys, consumer) && Scripts.UntilOf(s.keys) <= s.now && cfg.leaseMs > 0
    requires s.keys.cancel != Some(cfg.attempt) && |s.holders| < cfg.maximumExecutions
    ensures var granted := Next(cfg, s, Acquire(consumer, Answered));
            var announced := Next(cfg, granted, Publish(consumer, JobStarted, None, None, Answered));
            var t := Next(cfg, Next(cfg, announced, Begin(consumer)), Publish(consumer, JobSucceeded, None, None, Answered));
            SucceededBy(s.keys.events, t.keys.events, |s.holders| + 1) && t.runs == s.runs + [|s.holders| + 1]
  {
    var granted := Next(cfg, s, Acquire(consumer, Answered));
    GrantIsNext(cfg, s, consumer);
    Announces(cfg, granted, consumer);
    var announced := Next(cfg, granted, Publish(consumer, JobStarted, None, None, Answered));
    BeginsExactlyWhen(cfg, announced, consumer);
    Succeeds(cfg, Next(cfg, announced, Begin(consumer)), consumer);
  }

  /**
    An open job nobody asked to cancel, acquired less often than allowed, can still
    succeed: one spare worker runs the processor once and reports it.
   */
  lemma EveryJobCanSucceed(cfg: Config, start: State, first: seq<Step>, consumer: string)
    requires Initial(cfg, start) && cfg.leaseMs > 0
    requires var s := Run(cfg, start, first);
             && WorkerOf(s, consumer) == Resting && !Finished(s.keys.events)
             && s.keys.cancel == None && |s.holders| < cfg.maximumExecutions
    ensures var s := Run(cfg, start, first);
            var t := Run(cfg, s, SuccessSteps(cfg, s, consumer));
            SucceededBy(s.keys.events, t.keys.events, |s.holders| + 1) && t.runs == s.runs + [|s.holders| + 1]
  {
    InitialInv(cfg, start);
    RunKeepsInv(cfg, start, first);
    var s := Run(cfg, start, first);
    var two := RescueSteps(cfg, s, consumer)[..2];
    var t := Next(cfg, Next(cfg, s, two[0]), two[1]);
    TakenOver(cfg, s, consumer);
    TakeoverLeavesTheRest(cfg, s, consumer);
    WorkSucceeds(cfg, t, consumer);
    RunTwo(cfg, s, two[0], two[1]);
    assert two == [two[0], two[1]];
    RunFour(cfg, t, Acquire(consumer, Answered), Publish(consumer, JobStarted, None, None, Answered), Begin(consumer),
            Publish(consumer, JobSucceeded, None, None, Answered));
    RunSplits(cfg, s, two, [Acquire(consumer, Answered), Publish(consumer, JobStarted, None, None, Answered), Begin(consumer),
                            Publish(consumer, JobSucceeded, None, None, Answered)]);
  }

  // ---- the cancellation of a run ----

  const CANCEL: seq<Step> := [RequestCancel, LockForDispatch, ApplyCancel, CommitDispatch]

  /**
    A request on an unlocked, open row is taken and delivered by its transaction: the marker
    is set unless the cached run is over.
   */
  lemma RequestIsDelivered(cfg: Config, s: State)
    requires s.lock == Free && !TerminalStatus(s.row.status) && !s.row.cancelDelivered
    ensures var t := Run(cfg, s, CANCEL);
      && t.lock == Free && t.row == s.row.(cancelRequested := true, cancelDelivered := true)
      && t.keys == (if s.keys.cache.status in {Some(Succeeded), Some(Failed), Some(Cancelled)} then s.keys
                    else s.keys.(cancel := Some(cfg.attempt)))
  {
    RunTwo(cfg, s, RequestCancel, LockForDispatch);
    RunTwo(cfg, Run(cfg, s, [RequestCancel, LockForDispatch]), ApplyCancel, CommitDispatch);
    RunSplits(cfg, s, [RequestCancel, LockForDispatch], [ApplyCancel, CommitDispatch]);
    assert CANCEL == [RequestCancel, LockForDispatch] + [ApplyCancel, CommitDispatch];
    RequestIsLocked(cfg, s);
  }

  lemma RequestIsLocked(cfg: Config, s: State)
    requires s.lock == Free && !TerminalStatus(s.row.status) && !s.row.cancelDelivered
    ensures Next(cfg, Next(cfg, s, RequestCancel), LockForDispatch) ==
            s.(row := s.row.(cancelRequested := true), lock := Dispatching(false), cancelSent := true)
  {
  }

  /** A request whose run ended first counts as delivered without touching Redis. */
  lemma LateRequestIsDelivered(cfg: Config, s: State)
    requires s.lock == Free && TerminalStatus(s.row.status) && s.row.cancelRequested && !s.row.cancelDelivered
    ensures var t := Run(cfg, s, [LockForDispatch, CommitDispatch]);
      t.lock == Free && t.row == s.row.(cancelDelivered := true) && t.keys == s.keys && t.cancelSent == s.cancelSent
  {
    RunTwo(cfg, s, LockForDispatch, CommitDispatch);
  }

  const CLEANUP: seq<Step> := [LockForCleanup, RemoveMarker, CommitCleanup]

  /** Once the outcome is durable the marker of a request is removed, and the row says so. */
  lemma MarkerIsCleaned(cfg: Config, s: State)
    requires s.lock == Free && TerminalStatus(s.row.status) && s.row.cancelRequested && !s.row.cancelCleaned
    ensures var t := Run(cfg, s, CLEANUP);
      && t.lock == Free && t.keys == s.keys.(cancel := None)
      && t.row == s.row.(cancelDelivered := true, cancelCleaned := true)
  {
    RunThree(cfg, s, LockForCleanup, RemoveMarker, CommitCleanup);
  }

  lemma WorkerLeavesRow(cfg: Config, s: State, step: Step)
    requires OfWorker(step)
    ensures NextOfWorker(cfg, s, step).row == s.row && NextOfWorker(cfg, s, step).lock == s.lock
  {
    WorkerStepsLeaveAlone(cfg, s, step);
  }

  /** A request that was not made, or is delivered or cleaned up already, is left alone. */
  lemma SettledRequestIsLeftAlone(cfg: Config, s: State)
    ensures !s.row.cancelRequested || s.row.cancelDelivered ==> Next(cfg, s, LockForDispatch) == s
    ensures !s.row.cancelRequested || s.row.cancelCleaned ==> Next(cfg, s, LockForCleanup) == s
    ensures s.row.cancelRequested ==> Next(cfg, s, RequestCancel) == s
  {
  }

  /** While a transaction holds the row, only its own commit changes the row, and only that or its end releases it. */
  lemma LockedRowIsStable(cfg: Config, s: State, step: Step)
    requires s.lock != Free && step != CommitDispatch && step != CommitCleanup
    ensures Next(cfg, s, step).row == s.row
    ensures if step == Unlock then Next(cfg, s, step).lock == Free
            else Next(cfg, s, step).lock.Dispatching? == s.lock.Dispatching? &&
                 Next(cfg, s, step).lock.Cleaning? == s.lock.Cleaning?
  {
    if OfWorker(step) {
      WorkerLeavesRow(cfg, s, step);
    }
  }

  /** A request is delivered before it is cleaned up, and made before it is delivered. */
  predicate RequestInOrder(s: State) {
    && (s.lock != Free || s.row.cancelDelivered ==> s.row.cancelRequested)
    && (s.row.cancelCleaned ==> s.row.cancelDelivered)
  }

  lemma RequestStep(cfg: Config, s: State, step: Step)
    requires RequestInOrder(s)
    ensures RequestInOrder(Next(cfg, s, step))
    ensures s.row.cancelRequested ==> Next(cfg, s, step).row.cancelRequested
    ensures TerminalStatus(s.row.status) ==> Next(cfg, s, step).row.cancelRequested == s.row.cancelRequested
  {
    if OfWorker(step) {
      WorkerLeavesRow(cfg, s, step);
    }
  }

  lemma {:induction false} RequestsAreInOrder(cfg: Config, start: State, steps: seq<Step>)
    requires Initial(cfg, start)
    ensures RequestInOrder(Run(cfg, start, steps))
  {
    if steps != [] {
      RequestsAreInOrder(cfg, start, steps[..|steps| - 1]);
      RequestStep(cfg, Run(cfg, start, steps[..|steps| - 1]), steps[|steps| - 1]);
    }
  }

  /** A request stays; a run that ended without one gets none any more. */
  lemma {:induction false} RequestsComeInTime(cfg: Config, s: State, steps: seq<Step>)
    requires RequestInOrder(s)
    ensures RequestInOrder(Run(cfg, s, steps))
    ensures s.row.cancelRequested ==> Run(cfg, s, steps).row.cancelRequested
    ensures TerminalStatus(s.row.status) ==> Run(cfg, s, steps).row.cancelRequested == s.row.cancelRequested
  {
    if steps != [] {
      var before := steps[..|steps| - 1];
      RequestsComeInTime(cfg, s, before);
      RequestStep(cfg, Run(cfg, s, before), steps[|steps| - 1]);
      if TerminalStatus(s.row.status) {
        StatusStays(cfg, s, before);
      }
    }
  }

  /** The projector takes in any published event while the row is free. */
  lemma ProjectedOutcome(cfg: Config, s: State)
    requires Inv(cfg, s) && Finished(s.keys.events) && s.lock == Free
    ensures var t := Next(cfg, s, ProjectEvent(|s.keys.events| - 1));
      && t.keys == s.keys && t.lock == Free && t.row.cancelRequested == s.row.cancelRequested
      && t.row.cancelCleaned == s.row.cancelCleaned
      && Shows(t.row.status, s.keys.events[|s.keys.events| - 1].kind)
  {
  }
}
