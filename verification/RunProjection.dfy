/**
  The events a worker publishes and the durable Run row the projector derives from
  them. Delivery is at least once and in any order; the row's sequence guard makes
  the outcome independent of both.
 */
module RunProjection {
  import opened Wrappers
  import opened Sequences

  datatype EventKind =
    | JobStarted | RunConfigured | StageStarted | StageProgress | StageWarning
    | ArtifactReady | StageCompleted | StageFailed
    | JobSucceeded | JobFailed | JobCancelled

  datatype Status = Queued | Running | Succeeded | Failed | Cancelled

  /** The generation is the number in the execution identity; 0 stands for an event without one. */
  datatype Event = Event(
    kind: EventKind,
    attempt: string,
    sequence: nat,
    generation: nat,
    stage: Option<string>,
    error: Option<string>)

  datatype RunRow = RunRow(
    attempt: string,
    status: Status,
    stage: Option<string>,
    error: Option<string>,
    execution: Option<nat>,
    lastSequence: nat,
    cancelRequested: bool,
    cancelDelivered: bool,
    cancelCleaned: bool)

  predicate TerminalKind(kind: EventKind) { kind == JobSucceeded || kind == JobFailed || kind == JobCancelled }

  predicate TerminalStatus(status: Status) { status == Succeeded || status == Failed || status == Cancelled }

  /** The status a projected event sets; informational events project to nothing. */
  function ProjectedStatus(kind: EventKind): Option<Status> {
    match kind
    case RunConfigured => None
    case StageWarning => None
    case JobSucceeded => Some(Succeeded)
    case JobFailed => Some(Failed)
    case JobCancelled => Some(Cancelled)
    case _ => Some(Running)
  }

  /** Events about a run that say nothing about its state. */
  predicate Informational(kind: EventKind) { kind == RunConfigured || kind == StageWarning }

  /** The status is the outcome an event of this kind reports, and Running before there is one. */
  predicate Shows(status: Status, kind: EventKind) {
    && (status == Succeeded <==> kind == JobSucceeded)
    && (status == Failed <==> kind == JobFailed)
    && (status == Cancelled <==> kind == JobCancelled)
    && status != Queued
  }

  function Coalesce<T>(a: Option<T>, b: Option<T>): Option<T> { if a.Some? then a else b }

  function ExecutionOf(e: Event): Option<nat> { if e.generation > 0 then Some(e.generation) else None }

  /** The row's guard: same attempt, newer event, and a terminal status is final. */
  predicate Accepts(row: RunRow, e: Event, status: Status) {
    && row.attempt == e.attempt && row.lastSequence < e.sequence
    && (!TerminalStatus(row.status) || row.status == status)
  }

  /** One delivery of an event to the projector. */
  function Project(row: RunRow, e: Event): RunRow {
    match ProjectedStatus(e.kind)
    case None => row
    case Some(status) =>
      if !Accepts(row, e, status) then row
      else
        var newExecution := ExecutionOf(e).Some? && row.execution != ExecutionOf(e);
        row.(status := status,
             stage := if newExecution then e.stage else Coalesce(e.stage, row.stage),
             error := if status == Cancelled then None
                      else if newExecution then e.error else Coalesce(e.error, row.error),
             execution := Coalesce(ExecutionOf(e), row.execution),
             lastSequence := e.sequence)
  }

  ghost predicate Increasing(log: seq<Event>) {
    forall i, j | 0 <= i < j < |log| :: log[i].sequence < log[j].sequence && log[i].generation <= log[j].generation
  }

  ghost predicate TerminalIsLast(log: seq<Event>) {
    forall i | 0 <= i < |log| && TerminalKind(log[i].kind) :: i == |log| - 1
  }

  predicate Finished(log: seq<Event>) {
    log != [] && TerminalKind(log[|log| - 1].kind)
  }

  /** What the publication protocol guarantees about the events of one attempt. */
  ghost predicate OrderlyLog(log: seq<Event>, attempt: string) {
    && Increasing(log) && TerminalIsLast(log)
    && forall i | 0 <= i < |log| :: log[i].attempt == attempt && log[i].sequence >= 1
  }

  ghost predicate StateEvent(log: seq<Event>, i: nat) {
    i < |log| && !Informational(log[i].kind)
  }

  ghost predicate Within(log: seq<Event>, deliveries: seq<nat>) {
    forall i | 0 <= i < |deliveries| :: deliveries[i] < |log|
  }

  /** Projecting a list of deliveries, each an index into the log, in the order given. */
  ghost function ProjectAll(row: RunRow, log: seq<Event>, deliveries: seq<nat>): RunRow
    requires Within(log, deliveries)
  {
    if deliveries == [] then row
    else
      Project(ProjectAll(row, log, deliveries[..|deliveries| - 1]), log[deliveries[|deliveries| - 1]])
  }

  /** The row reflects the newest of the delivered state events, or is still as created. */
  ghost predicate Reflects(row: RunRow, log: seq<Event>, delivered: set<nat>) {
    || (row.lastSequence == 0 && row.status == Queued && row.execution == None &&
        forall d | d in delivered :: !StateEvent(log, d))
    || exists m :: Newest(row, log, delivered, m)
  }

  ghost predicate Newest(row: RunRow, log: seq<Event>, delivered: set<nat>, m: nat) {
    && m in delivered && StateEvent(log, m)
    && row.lastSequence == log[m].sequence
    && Shows(row.status, log[m].kind)
    && row.execution == ExecutionOf(log[m])
    && forall d | d in delivered && StateEvent(log, d) :: log[d].sequence <= log[m].sequence
  }

  /** A newly created row: queued, nothing projected. */
  predicate FreshRow(row: RunRow) {
    row.status == Queued && row.lastSequence == 0 && row.execution == None
  }

  /**
    What one delivery does: an informational event, one of another attempt, one that is not
    newer and one behind a different final outcome change nothing; any other is shown.
   */
  lemma DeliveryDecides(row: RunRow, e: Event)
    ensures var next := Project(row, e);
      var ignored := || Informational(e.kind) || e.attempt != row.attempt || e.sequence <= row.lastSequence
                     || (TerminalStatus(row.status) && !Shows(row.status, e.kind));
      if ignored then next == row
      else
        && Shows(next.status, e.kind) && next.lastSequence == e.sequence && next.attempt == row.attempt
        && next.execution == (if e.generation > 0 then Some(e.generation) else row.execution)
        && next.cancelRequested == row.cancelRequested && next.cancelDelivered == row.cancelDelivered
        && next.cancelCleaned == row.cancelCleaned
  {
  }

  /** A stage or an error in the row was reported by its execution, and a cancelled row has no error. */
  ghost predicate DetailsReported(row: RunRow, log: seq<Event>, delivered: set<nat>) {
    && (row.stage.Some? ==> exists d | d in delivered :: Reports(row, log, d) && log[d].stage == row.stage)
    && (row.error.Some? ==> exists d | d in delivered :: Reports(row, log, d) && log[d].error == row.error)
    && (row.status == Cancelled ==> row.error == None)
  }

  /** Event d is one of the row's execution, not newer than the row. */
  ghost predicate Reports(row: RunRow, log: seq<Event>, d: nat) {
    StateEvent(log, d) && log[d].sequence <= row.lastSequence && row.execution == ExecutionOf(log[d])
  }

  /** A newer state event is shown, an older or repeated one and an informational one are not. */
  lemma NewestAfterDelivery(row: RunRow, log: seq<Event>, delivered: set<nat>, d: nat, m: nat)
    requires OrderlyLog(log, row.attempt) && d < |log| && Newest(row, log, delivered, m)
    ensures Newest(Project(row, log[d]), log, delivered + {d},
                   if StateEvent(log, d) && log[d].sequence > row.lastSequence then d else m)
  {
    if StateEvent(log, d) && log[d].sequence > row.lastSequence {
      assert m < d && !TerminalKind(log[m].kind);
    }
  }

  lemma FirstDelivery(row: RunRow, log: seq<Event>, delivered: set<nat>, d: nat)
    requires OrderlyLog(log, row.attempt) && d < |log| && FreshRow(row)
    requires forall k | k in delivered :: !StateEvent(log, k)
    ensures if StateEvent(log, d) then Newest(Project(row, log[d]), log, delivered + {d}, d) else Project(row, log[d]) == row
  {
  }

  /** One more delivery, of an old or a new event, keeps the row on the newest one delivered. */
  lemma ProjectReflects(row: RunRow, log: seq<Event>, delivered: set<nat>, d: nat)
    requires OrderlyLog(log, row.attempt) && d < |log|
    requires Reflects(row, log, delivered)
    ensures Reflects(Project(row, log[d]), log, delivered + {d})
  {
    if m: nat :| Newest(row, log, delivered, m) {
      NewestAfterDelivery(row, log, delivered, d, m);
    } else {
      FirstDelivery(row, log, delivered, d);
    }
  }

  /**
    Whatever finite list of deliveries arrives, in whatever order and with whatever
    repetitions, the row ends on the newest state event delivered.
   */
  lemma {:induction false} ProjectionIsOrderInsensitive(row: RunRow, log: seq<Event>, deliveries: seq<nat>)
    requires FreshRow(row) && OrderlyLog(log, row.attempt)
    requires Within(log, deliveries)
    ensures Reflects(ProjectAll(row, log, deliveries), log, Elements(deliveries))
    ensures ProjectAll(row, log, deliveries).attempt == row.attempt
  {
    if deliveries != [] {
      var before, last := deliveries[..|deliveries| - 1], deliveries[|deliveries| - 1];
      assert deliveries == before + [last];
      ProjectionIsOrderInsensitive(row, log, before);
      ProjectReflects(ProjectAll(row, log, before), log, Elements(before), last);
      assert Elements(deliveries) == Elements(before) + {last};
    }
  }

  lemma ProjectKeepsDetails(row: RunRow, log: seq<Event>, delivered: set<nat>, d: nat)
    requires OrderlyLog(log, row.attempt) && d < |log|
    requires Reflects(row, log, delivered) && DetailsReported(row, log, delivered)
    ensures DetailsReported(Project(row, log[d]), log, delivered + {d})
  {
    var e, next := log[d], Project(row, log[d]);
    DeliveryDecides(row, e);
    if next != row {
      if m: nat :| Newest(row, log, delivered, m) {
        assert m < d;
      }
      ReportsCarry(row, log, delivered, d, next);
      assert Reports(next, log, d);
    } else {
      forall k | k in delivered && Reports(row, log, k)
        ensures k in delivered + {d} && Reports(next, log, k)
      {
      }
    }
  }

  /** What an event of the same execution reported is still reported by it. */
  lemma ReportsCarry(row: RunRow, log: seq<Event>, delivered: set<nat>, d: nat, next: RunRow)
    requires row.lastSequence <= next.lastSequence
    ensures next.execution == row.execution ==>
              forall k | k in delivered && Reports(row, log, k) :: k in delivered + {d} && Reports(next, log, k)
  {
  }

  /** The stage and the error shown come from events of the execution shown; a cancelled run shows no error. */
  lemma {:induction false} DetailsAreReported(row: RunRow, log: seq<Event>, deliveries: seq<nat>)
    requires FreshRow(row) && row.stage == None && row.error == None
    requires OrderlyLog(log, row.attempt) && Within(log, deliveries)
    ensures DetailsReported(ProjectAll(row, log, deliveries), log, Elements(deliveries))
  {
    if deliveries != [] {
      var before, last := deliveries[..|deliveries| - 1], deliveries[|deliveries| - 1];
      assert deliveries == before + [last];
      ProjectionIsOrderInsensitive(row, log, before);
      DetailsAreReported(row, log, before);
      ProjectKeepsDetails(ProjectAll(row, log, before), log, Elements(before), last);
      assert Elements(deliveries) == Elements(before) + {last};
    }
  }

  /** Two deliveries of the same events, in different orders and multiplicities, agree on the outcome. */
  lemma ProjectionConverges(row: RunRow, log: seq<Event>, a: seq<nat>, b: seq<nat>)
    requires FreshRow(row) && OrderlyLog(log, row.attempt)
    requires Within(log, a)
    requires Elements(a) == Elements(b)
    requires Within(log, b)
    ensures ProjectAll(row, log, a).lastSequence == ProjectAll(row, log, b).lastSequence
    ensures ProjectAll(row, log, a).status == ProjectAll(row, log, b).status
  {
    ProjectionIsOrderInsensitive(row, log, a);
    ProjectionIsOrderInsensitive(row, log, b);
    var delivered := Elements(a);
    if exists m: nat, n: nat :: Newest(ProjectAll(row, log, a), log, delivered, m) &&
                                Newest(ProjectAll(row, log, b), log, delivered, n) {
      var m: nat, n: nat :| Newest(ProjectAll(row, log, a), log, delivered, m) &&
                            Newest(ProjectAll(row, log, b), log, delivered, n);
      assert m == n;
    }
  }

  /** A terminal status survives every further delivery. */
  lemma TerminalStatusIsFinal(row: RunRow, e: Event)
    requires TerminalStatus(row.status)
    ensures Project(row, e).status == row.status
  {
  }
}
