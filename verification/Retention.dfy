/**
  Retention of one Run's generated files. Workers and downloads share the directory
  lock, cleaners take it exclusively; every one of them can stop at any point, and a
  database commit may take effect late, after the cleaner that sent it is gone and the
  directory lock with it.
 */
module Retention {
  import opened ArtifactDirectory

  datatype Row = Row(terminal: bool, expired: bool, cleaned: bool)

  /**
    A worker and a reader first lock, then check. A cleaner selects the row (holding
    its lock), locks the directory, commits the expiry, writes the marker and removes
    the entries from number `next` on.
   */
  datatype Actor =
    | Away
    | WorkerLocked | WorkerInside
    | ReaderLocked | ReaderUnmarked | ReaderInside
    | Selected | Locked | Expired | Removing(next: nat)

  /** A commit that was sent: the database carries it out some time, or never. */
  datatype Update = ExpiryUpdate | CleanedUpdate

  datatype State = State(row: Row, files: set<File>, marker: bool, removed: set<File>, actors: map<string, Actor>,
                         inFlight: set<Update>)

  datatype Step =
    | Finish
    | WorkerLock(who: string)
    | WorkerCheckMarker(who: string)
    | WorkerWrite(who: string, file: File)
    | ReaderLock(who: string)
    | ReaderCheckMarker(who: string)
    | ReaderCheckRow(who: string)
    | Select(who: string, aged: bool)
    | LockExclusive(who: string)
    | CommitExpiry(who: string)
    | LoseExpiry(who: string)
    | WriteMarker(who: string)
    | RemoveFile(who: string, file: File)
    | EntryDone(who: string)
    | CommitCleaned(who: string)
    | LoseCleaned(who: string)
    | Apply(update: Update)
    | Drop(update: Update)
    | Leave(who: string)

  function ActorOf(s: State, who: string): Actor { if who in s.actors then s.actors[who] else Away }

  function Become(s: State, who: string, a: Actor): State { s.(actors := s.actors[who := a]) }

  predicate HoldsShared(a: Actor) {
    a == WorkerLocked || a == WorkerInside || a == ReaderLocked || a == ReaderUnmarked || a == ReaderInside
  }

  predicate HoldsExclusive(a: Actor) { a == Locked || a == Expired || a.Removing? }

  predicate HoldsRow(a: Actor) { a == Selected || a == Locked }

  ghost predicate NoneHold(s: State, holds: Actor -> bool) {
    forall who | who in s.actors :: !holds(s.actors[who])
  }

  /** Neither a cleaner nor an expiry still in flight keeps the row locked. */
  ghost predicate RowIsFree(s: State) { NoneHold(s, x => HoldsRow(x)) && ExpiryUpdate !in s.inFlight }

  /** What the retention query selects; an expiry once recorded makes the age irrelevant. */
  predicate Eligible(row: Row, aged: bool) { row.terminal && !row.cleaned && (row.expired || aged) }

  /** Shared and non-blocking: taken unless a cleaner holds the lock. */
  ghost function TakeShared(s: State, who: string, a: Actor): State {
    if ActorOf(s, who) == Away && NoneHold(s, x => HoldsExclusive(x)) then Become(s, who, a) else s
  }

  ghost function DoSelect(s: State, who: string, aged: bool): State {
    if ActorOf(s, who) == Away && Eligible(s.row, aged) && RowIsFree(s) then Become(s, who, Selected)
    else s
  }

  /** A directory in use ends the attempt; otherwise the cleaner has it alone. */
  ghost function DoLockExclusive(s: State, who: string): State {
    if ActorOf(s, who) != Selected then s
    else if NoneHold(s, x => HoldsShared(x) || HoldsExclusive(x)) then Become(s, who, Locked)
    else Become(s, who, Away)
  }

  /** Removal goes on only after a confirmed commit. */
  function DoCommitExpiry(s: State, who: string): State {
    if ActorOf(s, who) != Locked then s else Become(s.(row := s.row.(expired := true)), who, Expired)
  }

  /** The cleaner is gone, its transaction is not: the expiry keeps the row locked until it is settled. */
  function DoLoseExpiry(s: State, who: string): State {
    if ActorOf(s, who) != Locked then s else Become(s.(inFlight := s.inFlight + {ExpiryUpdate}), who, Away)
  }

  function DoWriteMarker(s: State, who: string): State {
    if ActorOf(s, who) != Expired then s else Become(s.(marker := true), who, Removing(0))
  }

  function DoRemoveFile(s: State, who: string, file: File): State {
    var a := ActorOf(s, who);
    if !a.Removing? || a.next >= |GENERATED| || file !in s.files || file.entry != GENERATED[a.next] then s
    else s.(files := s.files - {file}, removed := s.removed + {file})
  }

  ghost function DoEntryDone(s: State, who: string): State {
    var a := ActorOf(s, who);
    if !a.Removing? || a.next >= |GENERATED| || !NoneOf(s.files, GENERATED[a.next]) then s
    else Become(s, who, Removing(a.next + 1))
  }

  ghost function DoCommitCleaned(s: State, who: string): State {
    if ActorOf(s, who) != Removing(|GENERATED|) || !RowIsFree(s) then s
    else Become(s.(row := s.row.(cleaned := true)), who, Away)
  }

  function DoLoseCleaned(s: State, who: string): State {
    if ActorOf(s, who) != Removing(|GENERATED|) then s
    else Become(s.(inFlight := s.inFlight + {CleanedUpdate}), who, Away)
  }

  ghost function DoApply(s: State, update: Update): State {
    if update !in s.inFlight then s
    else match update
      case ExpiryUpdate => s.(row := s.row.(expired := true), inFlight := s.inFlight - {update})
      case CleanedUpdate =>
        if RowIsFree(s) then s.(row := s.row.(cleaned := true), inFlight := s.inFlight - {update}) else s
  }

  ghost function Next(s: State, step: Step): State {
    match step
    case Finish => s.(row := s.row.(terminal := true))
    case WorkerLock(who) => TakeShared(s, who, WorkerLocked)
    case WorkerCheckMarker(who) =>
      if ActorOf(s, who) != WorkerLocked then s else Become(s, who, if s.marker then Away else WorkerInside)
    case WorkerWrite(who, file) =>
      if ActorOf(s, who) != WorkerInside then s else s.(files := s.files + {file})
    case ReaderLock(who) => TakeShared(s, who, ReaderLocked)
    case ReaderCheckMarker(who) =>
      if ActorOf(s, who) != ReaderLocked then s else Become(s, who, if s.marker then Away else ReaderUnmarked)
    case ReaderCheckRow(who) =>
      if ActorOf(s, who) != ReaderUnmarked then s else Become(s, who, if s.row.expired then Away else ReaderInside)
    case Select(who, aged) => DoSelect(s, who, aged)
    case LockExclusive(who) => DoLockExclusive(s, who)
    case CommitExpiry(who) => DoCommitExpiry(s, who)
    case LoseExpiry(who) => DoLoseExpiry(s, who)
    case WriteMarker(who) => DoWriteMarker(s, who)
    case RemoveFile(who, file) => DoRemoveFile(s, who, file)
    case EntryDone(who) => DoEntryDone(s, who)
    case CommitCleaned(who) => DoCommitCleaned(s, who)
    case LoseCleaned(who) => DoLoseCleaned(s, who)
    case Apply(update) => DoApply(s, update)
    case Drop(update) => s.(inFlight := s.inFlight - {update})
    case Leave(who) => Become(s, who, Away)
  }

  ghost function Run(s: State, steps: seq<Step>): State {
    if steps == [] then s else Next(Run(s, steps[..|steps| - 1]), steps[|steps| - 1])
  }

  predicate Initial(s: State) {
    !s.row.expired && !s.row.cleaned && !s.marker && s.removed == {} && s.actors == map[] && s.inFlight == {}
  }

  // ---- invariants ----

  /** A cleaner that holds the directory is alone in it. */
  ghost predicate LockExcludes(actors: map<string, Actor>) {
    forall a, b | a in actors && b in actors && a != b && HoldsExclusive(actors[a]) ::
      !HoldsExclusive(actors[b]) && !HoldsShared(actors[b])
  }

  /** What an actor's position tells it about the row, the marker and the files. */
  ghost predicate Knows(a: Actor, row: Row, files: set<File>, marker: bool) {
    match a
    case WorkerInside => !marker
    case ReaderUnmarked => !marker
    case ReaderInside => !marker
    case Selected => row.terminal
    case Locked => row.terminal
    case Expired => row.expired
    case Removing(next) => row.expired && marker && next <= |GENERATED| && GoneUpTo(files, next)
    case _ => true
  }

  ghost predicate AllKnow(actors: map<string, Actor>, row: Row, files: set<File>, marker: bool) {
    forall who | who in actors :: Knows(actors[who], row, files, marker)
  }

  ghost predicate Records(row: Row, files: set<File>, marker: bool, removed: set<File>) {
    && (row.expired ==> row.terminal)
    && (marker ==> row.expired)
    && (removed != {} ==> marker)
    && (row.cleaned ==> marker && files == KeptFiles(files))
    && (forall f | f in removed :: f.entry != Kept)
  }

  /** What a commit in flight was sent after. */
  ghost predicate Justified(inFlight: set<Update>, row: Row, files: set<File>, marker: bool) {
    && (ExpiryUpdate in inFlight ==> row.terminal)
    && (CleanedUpdate in inFlight ==> marker && files == KeptFiles(files))
  }

  ghost predicate Inv(s: State) {
    && LockExcludes(s.actors)
    && Justified(s.inFlight, s.row, s.files, s.marker)
    && AllKnow(s.actors, s.row, s.files, s.marker)
    && Records(s.row, s.files, s.marker, s.removed)
  }

  /** An actor in one of the shared positions excludes every cleaner that is at work. */
  lemma TakeSharedKeeps(s: State, who: string)
    requires Inv(s)
    ensures Inv(Next(s, WorkerLock(who))) && Inv(Next(s, ReaderLock(who)))
  {
  }

  /** A cleaner takes the directory only when nobody holds it. */
  lemma LockExclusiveKeeps(s: State, who: string)
    requires Inv(s)
    ensures Inv(DoLockExclusive(s, who))
  {
    if ActorOf(s, who) == Selected {
      assert Knows(s.actors[who], s.row, s.files, s.marker);
    }
  }

  lemma CheckKeeps(s: State, who: string)
    requires Inv(s)
    ensures Inv(Next(s, WorkerCheckMarker(who))) && Inv(Next(s, ReaderCheckMarker(who)))
    ensures Inv(Next(s, ReaderCheckRow(who)))
  {
    if HoldsShared(ActorOf(s, who)) {
      assert Knows(s.actors[who], s.row, s.files, s.marker);
    }
  }

  lemma LeaveKeeps(s: State, who: string)
    requires Inv(s)
    ensures Inv(Next(s, Leave(who)))
  {
  }

  lemma WriteKeeps(s: State, who: string, file: File)
    requires Inv(s)
    ensures Inv(Next(s, WorkerWrite(who, file)))
  {
    if ActorOf(s, who) == WorkerInside {
      assert Knows(s.actors[who], s.row, s.files, s.marker);
      forall other | other in s.actors
        ensures Knows(s.actors[other], s.row, s.files + {file}, s.marker)
      {
        assert Knows(s.actors[other], s.row, s.files, s.marker);
      }
    }
  }

  lemma SelectKeeps(s: State, who: string, aged: bool)
    requires Inv(s)
    ensures Inv(Next(s, Select(who, aged))) && Inv(Next(s, Finish))
  {
  }

  lemma CommitExpiryKeeps(s: State, who: string)
    requires Inv(s)
    ensures Inv(Next(s, CommitExpiry(who))) && Inv(Next(s, LoseExpiry(who)))
  {
    if ActorOf(s, who) == Locked {
      assert Knows(s.actors[who], s.row, s.files, s.marker);
    }
  }

  lemma WriteMarkerKeeps(s: State, who: string)
    requires Inv(s)
    ensures Inv(Next(s, WriteMarker(who)))
  {
    if ActorOf(s, who) == Expired {
      assert Knows(s.actors[who], s.row, s.files, s.marker);
    }
  }

  lemma RemoveFileKeeps(s: State, who: string, file: File)
    requires Inv(s)
    ensures Inv(Next(s, RemoveFile(who, file)))
  {
    if ActorOf(s, who).Removing? {
      assert Knows(s.actors[who], s.row, s.files, s.marker);
      forall other | other in s.actors
        ensures Knows(s.actors[other], s.row, s.files - {file}, s.marker)
      {
        assert Knows(s.actors[other], s.row, s.files, s.marker);
      }
    }
  }

  lemma EntryDoneKeeps(s: State, who: string)
    requires Inv(s)
    ensures Inv(DoEntryDone(s, who)) && Inv(DoCommitCleaned(s, who)) && Inv(DoLoseCleaned(s, who))
  {
    if ActorOf(s, who).Removing? {
      assert Knows(s.actors[who], s.row, s.files, s.marker);
      AllGenerated(s.files);
    }
  }

  lemma SettleKeeps(s: State, update: Update)
    requires Inv(s)
    ensures Inv(Next(s, Apply(update))) && Inv(Next(s, Drop(update)))
  {
  }

  lemma NextKeepsInv(s: State, step: Step)
    requires Inv(s)
    ensures Inv(Next(s, step))
  {
    match step
    case Finish => SelectKeeps(s, "", false);
    case WorkerLock(who) => TakeSharedKeeps(s, who);
    case WorkerCheckMarker(who) => CheckKeeps(s, who);
    case WorkerWrite(who, file) => WriteKeeps(s, who, file);
    case ReaderLock(who) => TakeSharedKeeps(s, who);
    case ReaderCheckMarker(who) => CheckKeeps(s, who);
    case ReaderCheckRow(who) => CheckKeeps(s, who);
    case Select(who, aged) => SelectKeeps(s, who, aged);
    case LockExclusive(who) => LockExclusiveKeeps(s, who);
    case CommitExpiry(who) => CommitExpiryKeeps(s, who);
    case LoseExpiry(who) => CommitExpiryKeeps(s, who);
    case WriteMarker(who) => WriteMarkerKeeps(s, who);
    case RemoveFile(who, file) => RemoveFileKeeps(s, who, file);
    case EntryDone(who) => EntryDoneKeeps(s, who);
    case CommitCleaned(who) => EntryDoneKeeps(s, who);
    case LoseCleaned(who) => EntryDoneKeeps(s, who);
    case Apply(update) => SettleKeeps(s, update);
    case Drop(update) => SettleKeeps(s, update);
    case Leave(who) => LeaveKeeps(s, who);
  }

  lemma {:induction false} RunKeepsInv(s: State, steps: seq<Step>)
    requires Inv(s)
    ensures Inv(Run(s, steps))
  {
    if steps != [] {
      RunKeepsInv(s, steps[..|steps| - 1]);
      NextKeepsInv(Run(s, steps[..|steps| - 1]), steps[|steps| - 1]);
    }
  }

  lemma InitialInv(s: State)
    requires Initial(s)
    ensures Inv(s)
  {
  }

  // ---- guarantees ----

  ghost predicate SomeoneShares(s: State) { exists who :: who in s.actors && HoldsShared(s.actors[who]) }

  /**
    Nothing is removed or marked while a worker or a download holds the directory, and
    the expiry is not recorded either, save that of a cleaner that is already gone.
   */
  lemma SharedLockProtects(s: State, step: Step)
    requires Inv(s) && SomeoneShares(s)
    ensures s.files <= Next(s, step).files && Next(s, step).removed == s.removed
    ensures Next(s, step).marker == s.marker
    ensures Next(s, step).row.expired == s.row.expired || (step == Apply(ExpiryUpdate) && ExpiryUpdate in s.inFlight)
  {
  }

  predicate Inside(a: Actor) { a == WorkerInside || a == ReaderInside }

  predicate NeverLeaves(steps: seq<Step>, who: string) { forall i | 0 <= i < |steps| :: steps[i] != Leave(who) }

  lemma InsideStays(s: State, step: Step, who: string)
    requires Inv(s) && Inside(ActorOf(s, who)) && step != Leave(who)
    ensures ActorOf(Next(s, step), who) == ActorOf(s, who)
  {
  }

  /**
    From its last check until it lets go, an actor finds every generated file ever
    written: none was removed before, none is removed meanwhile.
   */
  lemma {:induction false} InsideSeesEverything(s: State, steps: seq<Step>, who: string)
    requires Inv(s) && Inside(ActorOf(s, who)) && NeverLeaves(steps, who)
    ensures var t := Run(s, steps);
            ActorOf(t, who) == ActorOf(s, who) && s.files <= t.files && t.removed == {}
  {
    if steps == [] {
      assert Knows(s.actors[who], s.row, s.files, s.marker);
    } else {
      var before, last := steps[..|steps| - 1], steps[|steps| - 1];
      assert forall i | 0 <= i < |before| :: before[i] == steps[i];
      InsideSeesEverything(s, before, who);
      RunKeepsInv(s, before);
      InsideStays(Run(s, before), last, who);
      SharedLockProtects(Run(s, before), last);
    }
  }

  /** The same over whole runs: what a reader or worker may rely on, whatever happened before and happens meanwhile. */
  lemma AccessIsSafe(start: State, first: seq<Step>, steps: seq<Step>, who: string)
    requires Initial(start) && NeverLeaves(steps, who)
    requires ActorOf(Run(start, first), who) == WorkerInside || ActorOf(Run(start, first), who) == ReaderInside
    ensures var s := Run(start, first);
            s.files <= Run(s, steps).files && Run(s, steps).removed == {} && start.files <= s.files
  {
    InitialInv(start);
    RunKeepsInv(start, first);
    InsideSeesEverything(Run(start, first), steps, who);
    FilesOnlyMove(start, first);
  }

  /** A file is there until it is removed. */
  lemma {:induction false} FilesOnlyMove(s: State, steps: seq<Step>)
    ensures s.files <= Run(s, steps).files + Run(s, steps).removed
  {
    if steps != [] {
      FilesOnlyMove(s, steps[..|steps| - 1]);
      FilesMoveStep(Run(s, steps[..|steps| - 1]), steps[|steps| - 1]);
    }
  }

  lemma FilesMoveStep(s: State, step: Step)
    ensures s.files + s.removed <= Next(s, step).files + Next(s, step).removed
  {
  }

  /** Removal starts only after the expiry is durable, takes generated files only, and stays due until recorded. */
  lemma RemovalIsRecorded(start: State, steps: seq<Step>)
    requires Initial(start)
    ensures var s := Run(start, steps);
            && (s.removed != {} ==> s.row.expired && s.row.terminal && s.marker)
            && (forall f | f in s.removed :: f.entry != Kept)
            && (s.row.expired && !s.row.cleaned ==> Eligible(s.row, false))
            && (s.row.cleaned ==> s.files == KeptFiles(s.files))
  {
    InitialInv(start);
    RunKeepsInv(start, steps);
  }

  lemma CleanedStep(s: State, step: Step)
    requires Inv(s) && s.row.cleaned
    ensures Next(s, step).row.cleaned && Next(s, step).files == s.files
  {
  }

  /** A recorded cleanup is final: no generated file comes back. */
  lemma {:induction false} CleanedForGood(s: State, steps: seq<Step>)
    requires Inv(s) && s.row.cleaned
    ensures Run(s, steps).row.cleaned && Run(s, steps).files == s.files == KeptFiles(s.files)
  {
    if steps != [] {
      var before := steps[..|steps| - 1];
      CleanedForGood(s, before);
      RunKeepsInv(s, before);
      CleanedStep(Run(s, before), steps[|steps| - 1]);
    }
  }

  // ---- who gets in, and what is recorded ----

  ghost predicate NoCleanerAtWork(s: State) {
    forall who | who in s.actors :: !s.actors[who].Locked? && !s.actors[who].Expired? && !s.actors[who].Removing?
  }

  /** A worker gets into a directory no cleaner is at work in and none has marked, and is turned away from any other. */
  lemma WorkerGetsInExactlyWhen(s: State, who: string)
    requires ActorOf(s, who) == Away
    ensures var t := Next(Next(s, WorkerLock(who)), WorkerCheckMarker(who));
      && ActorOf(t, who) == (if NoCleanerAtWork(s) && !s.marker then WorkerInside else Away)
      && t.files == s.files && t.row == s.row
  {
  }

  /** A download asks for the row as well: an expired run is served no more, even before it is marked. */
  lemma ReaderGetsInExactlyWhen(s: State, who: string)
    requires ActorOf(s, who) == Away
    ensures var t := Next(Next(Next(s, ReaderLock(who)), ReaderCheckMarker(who)), ReaderCheckRow(who));
      && ActorOf(t, who) == (if NoCleanerAtWork(s) && !s.marker && !s.row.expired then ReaderInside else Away)
      && t.files == s.files && t.row == s.row
  {
  }

  /** What a worker inside writes is there, and only it writes. */
  lemma WrittenFilesAreThere(s: State, who: string, file: File)
    ensures var t := Next(s, WorkerWrite(who, file));
            t.files == if ActorOf(s, who) == WorkerInside then s.files + {file} else s.files
    ensures forall step: Step | !step.WorkerWrite? :: Next(s, step).files <= s.files
  {
  }

  /**
    A cleaner takes up a finished run that is old or whose expiry is recorded, unless it is
    cleaned up or somebody has its row.
   */
  lemma SelectedExactlyWhen(s: State, who: string, aged: bool)
    requires ActorOf(s, who) == Away
    ensures ActorOf(Next(s, Select(who, aged)), who) == Selected <==>
            && s.row.terminal && !s.row.cleaned && (aged || s.row.expired) && ExpiryUpdate !in s.inFlight
            && forall other | other in s.actors :: s.actors[other] != Selected && s.actors[other] != Locked
  {
  }

  /** A directory in use ends the attempt, and nothing has changed. */
  lemma LockedExactlyWhenUnused(s: State, who: string)
    requires ActorOf(s, who) == Selected
    ensures var t := Next(s, LockExclusive(who));
      && ActorOf(t, who) == (if NoCleanerAtWork(s) && !SomeoneShares(s) then Locked else Away)
      && t == Become(s, who, ActorOf(t, who))
  {
  }

  /** While somebody has the row, or an expiry is on its way, nobody else's commit changes it. */
  lemma RowLockHolds(s: State, step: Step)
    requires ExpiryUpdate in s.inFlight || exists who :: who in s.actors && HoldsRow(s.actors[who])
    ensures Next(s, step).row.cleaned == s.row.cleaned
    ensures Next(s, step).row.expired == s.row.expired || step == Apply(ExpiryUpdate) ||
            (step.CommitExpiry? && ActorOf(s, step.who) == Locked)
  {
  }

  /** A commit whose cleaner is gone may still take effect, and then says what the cleaner would have recorded. */
  lemma LateCommits(s: State, who: string)
    ensures ActorOf(s, who) == Locked ==>
              var t := Next(Next(s, LoseExpiry(who)), Apply(ExpiryUpdate));
              t == Become(s.(row := s.row.(expired := true), inFlight := s.inFlight - {ExpiryUpdate}), who, Away)
    ensures ActorOf(s, who) == Removing(|GENERATED|) && RowIsFree(s) ==>
              var t := Next(Next(s, LoseCleaned(who)), Apply(CleanedUpdate));
              t == Become(s.(row := s.row.(cleaned := true), inFlight := s.inFlight - {CleanedUpdate}), who, Away)
  {
    assert s.inFlight + {ExpiryUpdate} - {ExpiryUpdate} == s.inFlight - {ExpiryUpdate};
    assert s.inFlight + {CleanedUpdate} - {CleanedUpdate} == s.inFlight - {CleanedUpdate};
  }

  // ---- a cleaner left undisturbed finishes ----

  lemma {:induction false} RunConcat(s: State, a: seq<Step>, b: seq<Step>)
    ensures Run(s, a + b) == Run(Run(s, a), b)
  {
    if b == [] {
      assert a + b == a;
    } else {
      RunConcat(s, a, b[..|b| - 1]);
      assert (a + b)[..|a + b| - 1] == a + b[..|b| - 1];
    }
  }

  lemma RunOne(s: State, step: Step)
    ensures Run(s, [step]) == Next(s, step)
  {
    assert [step][..0] == [];
  }

  /** Everybody else is away, and no commit of anybody's keeps the row locked. */
  ghost predicate Alone(s: State, who: string) {
    ExpiryUpdate !in s.inFlight && forall other | other in s.actors && other != who :: s.actors[other] == Away
  }

  lemma StepThen(s: State, step: Step, rest: seq<Step>)
    ensures Run(s, [step] + rest) == Run(Next(s, step), rest)
  {
    RunConcat(s, [step], rest);
    RunOne(s, step);
  }

  lemma RemovalCompletes(s: State, who: string) returns (steps: seq<Step>)
    requires Inv(s) && Alone(s, who) && ActorOf(s, who).Removing?
    ensures Run(s, steps).row.cleaned
    decreases |GENERATED| - ActorOf(s, who).next, |s.files|
  {
    var next := ActorOf(s, who).next;
    assert Knows(s.actors[who], s.row, s.files, s.marker);
    var step := CommitCleaned(who);
    if next == |GENERATED| {
      RunOne(s, step);
      return [step];
    }
    if NoneOf(s.files, GENERATED[next]) {
      step := EntryDone(who);
    } else {
      var f :| f in s.files && f.entry == GENERATED[next];
      step := RemoveFile(who, f);
    }
    NextKeepsInv(s, step);
    var rest := RemovalCompletes(Next(s, step), who);
    StepThen(s, step, rest);
    steps := [step] + rest;
  }

  lemma CommittedCompletes(s: State, who: string) returns (steps: seq<Step>)
    requires Inv(s) && Alone(s, who) && ActorOf(s, who) == Locked
    ensures Run(s, steps).row.cleaned
  {
    var expired := Next(s, CommitExpiry(who));
    NextKeepsInv(s, CommitExpiry(who));
    NextKeepsInv(expired, WriteMarker(who));
    var rest := RemovalCompletes(Next(expired, WriteMarker(who)), who);
    StepThen(expired, WriteMarker(who), rest);
    StepThen(s, CommitExpiry(who), [WriteMarker(who)] + rest);
    steps := [CommitExpiry(who)] + ([WriteMarker(who)] + rest);
  }

  lemma UndisturbedCompletes(s: State, who: string, aged: bool) returns (steps: seq<Step>)
    requires Inv(s) && Alone(s, who) && ActorOf(s, who) == Away && Eligible(s.row, aged)
    ensures Run(s, steps).row.cleaned
  {
    var selected := Next(s, Select(who, aged));
    SelectedAlone(s, who, aged);
    NextKeepsInv(s, Select(who, aged));
    NextKeepsInv(selected, LockExclusive(who));
    var rest := CommittedCompletes(Next(selected, LockExclusive(who)), who);
    StepThen(selected, LockExclusive(who), rest);
    StepThen(s, Select(who, aged), [LockExclusive(who)] + rest);
    steps := [Select(who, aged)] + ([LockExclusive(who)] + rest);
  }

  ghost function Busy(s: State): set<string> { set who | who in s.actors && s.actors[who] != Away }

  lemma EverybodyLeaves(s: State) returns (steps: seq<Step>)
    requires Inv(s)
    ensures var t := Run(s, steps); Inv(t) && Busy(t) == {} && t.row == s.row && t.inFlight == s.inFlight
    decreases Busy(s)
  {
    if Busy(s) == {} {
      return [];
    }
    var who :| who in Busy(s);
    NextKeepsInv(s, Leave(who));
    assert Busy(Next(s, Leave(who))) == Busy(s) - {who};
    var rest := EverybodyLeaves(Next(s, Leave(who)));
    StepThen(s, Leave(who), rest);
    steps := [Leave(who)] + rest;
  }

  /**
    From any reachable state an eligible run can still be cleaned: everybody lets go, an
    expiry in flight is rolled back, and any one cleaner finds the directory free.
   */
  lemma CleanupCanComplete(s: State, who: string, aged: bool) returns (steps: seq<Step>)
    requires Inv(s) && Eligible(s.row, aged)
    ensures Run(s, steps).row.cleaned
  {
    var leaving := EverybodyLeaves(s);
    var left := Run(s, leaving);
    NextKeepsInv(left, Drop(ExpiryUpdate));
    NobodyIsLeft(left, who);
    var rest := UndisturbedCompletes(Next(left, Drop(ExpiryUpdate)), who, aged);
    StepThen(left, Drop(ExpiryUpdate), rest);
    RunConcat(s, leaving, [Drop(ExpiryUpdate)] + rest);
    steps := leaving + ([Drop(ExpiryUpdate)] + rest);
  }

  lemma NobodyIsLeft(s: State, who: string)
    requires Busy(s) == {}
    ensures var t := Next(s, Drop(ExpiryUpdate)); Alone(t, who) && ActorOf(t, who) == Away
  {
    forall other | other in s.actors ensures s.actors[other] == Away {
      assert other !in Busy(s);
    }
  }

  lemma SelectedAlone(s: State, who: string, aged: bool)
    requires Alone(s, who) && ActorOf(s, who) == Away && Eligible(s.row, aged)
    ensures var b := Next(Next(s, Select(who, aged)), LockExclusive(who));
            ActorOf(b, who) == Locked && Alone(b, who)
  {
    SelectAlone(s, who, aged);
    LockAlone(Next(s, Select(who, aged)), who);
  }

  lemma SelectAlone(s: State, who: string, aged: bool)
    requires Alone(s, who) && ActorOf(s, who) == Away && Eligible(s.row, aged)
    ensures var a := Next(s, Select(who, aged)); ActorOf(a, who) == Selected && Alone(a, who)
  {
  }

  lemma LockAlone(s: State, who: string)
    requires Alone(s, who) && ActorOf(s, who) == Selected
    ensures var b := Next(s, LockExclusive(who)); ActorOf(b, who) == Locked && Alone(b, who)
  {
  }
}
