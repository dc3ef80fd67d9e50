/** Every committed step of a worker makes progress, and the phase deadlines bound how many an active download takes
    (internal/reconcile/reconcile.go). */
module Deadlines {
  import opened Paths
  import opened Domain
  import opened Workflow
  import opened RowInvariant
  import opened Lifecycle

  /** The shortest wait before a step that changed nothing is run again. */
  function Pace(cfg: Config): (p: int)
    requires cfg.Valid()
    ensures 0 < p <= cfg.poll && p <= 30
  {
    if cfg.poll < 30 then cfg.poll else 30
  }

  // ---- The rank --------------------------------------------------------------------------------

  function StateRank(s: State): nat {
    match s
    case Accepted => 6
    case SubmittingOffline => 5
    case WaitingOffline => 4
    case SubmittingCopy => 3
    case WaitingCopy => 2
    case VerifyingLocal => 1
    case _ => 0
  }

  function StatusRank(status: Status): nat {
    if MustRemoveCopy(status) then 4 else if MustDeleteCopy(status) then 3 else if !status.Is(DestinationClear) then 2
    else 1
  }

  /** How many durable steps are still ahead within the state. */
  function SubRank(d: Download): (r: nat)
    ensures r <= 6
  {
    match d.state
    case SubmittingOffline => if d.status.Is(OfflineError) then 1 else 0
    case SubmittingCopy =>
      (if d.places.copySource == "" then 1 else 0) + (if d.places.destination == "" then 1 else 0) +
        StatusRank(d.status)
    case CancelRequested => if d.pause && d.places.copySource != "" && !d.status.MarkedFirst(RemovedMark) then 1 else 0
    case DeleteRequested =>
      if || (d.places.copySource != "" && !d.status.MarkedFirst(RemovedMark))
         || (d.places.copySource == "" && d.times.completed.None? && d.places.content == ""
             && !d.status.MarkedFirst(CancelledMark))
      then 1 else 0
    case _ => 0
  }

  function Limit(cfg: Config, s: State): int {
    if s.SubmittingOffline? || s.WaitingOffline? then cfg.offlineTimeout
    else if s.VerifyingLocal? then cfg.verifyTimeout
    else cfg.copyTimeout
  }

  /** The phase has a deadline and it has passed. */
  predicate PhaseOver(cfg: Config, d: Download, now: int) {
    Active(d.state) && !d.state.Accepted? && TimedOut(d, now, Limit(cfg, d.state))
  }

  /** The row comes to rest; or it stays in its state with fewer steps ahead, or as many but only after a wait that
      the deadline allows; or it enters a later phase now. */
  predicate Progressed(cfg: Config, d: Download, next: Download, now: int)
    requires cfg.Valid()
  {
    || (next.nextRun.None? && (Active(d.state) ==> next.state.Completed? || next.state.Failed?))
    || (&& next.nextRun.Some? && next.nextRun.value >= now
        && next.state == d.state && next.times.phaseStarted == d.times.phaseStarted
        && (|| SubRank(next) < SubRank(d)
            || (SubRank(next) == SubRank(d) && next.nextRun.value >= now + Pace(cfg) && !PhaseOver(cfg, d, now))))
    || (&& next.nextRun.Some? && next.nextRun.value >= now
        && Active(d.state) && Active(next.state) && StateRank(next.state) < StateRank(d.state)
        && next.times.phaseStarted == now)
  }

  predicate ProgressDecision(cfg: Config, d: Download, decision: Decision, now: int)
    requires cfg.Valid()
  {
    decision.Propose? ==> Progressed(cfg, d, decision.download, now)
  }

  /** The same phase, seen again with some observations recorded. */
  predicate SamePhase(d: Download, seen: Download) {
    seen.state == d.state && seen.times.phaseStarted == d.times.phaseStarted && SubRank(seen) == SubRank(d)
  }

  lemma {:induction false} SharedProgress(cfg: Config, d: Download, seen: Download, problem: Problem, later: State,
                                          now: int, due: int)
    requires cfg.Valid() && SamePhase(d, seen) && Active(d.state)
    ensures Progressed(cfg, d, Fail(seen, problem), now)
    ensures !PhaseOver(cfg, d, now) ==> Progressed(cfg, d, Poll(cfg, seen, now), now)
    ensures Active(later) && StateRank(later) < StateRank(d.state) && due >= now ==>
              Progressed(cfg, d, Advance(seen, later, now, due), now)
  {
  }

  lemma {:induction false} CloudFailureProgresses(cfg: Config, d: Download, seen: Download, failure: Failure,
                                                  op: Operation, w: World)
    requires cfg.Valid() && w.now <= w.later && !PhaseOver(cfg, d, w.now)
    requires SamePhase(d, seen) && Active(d.state)
    ensures Progressed(cfg, d, CloudFailure(seen, failure, op, w.later), w.now)
  {
  }

  lemma {:induction false} LocalFailureProgresses(cfg: Config, d: Download, kind: FsKind, w: World)
    requires cfg.Valid() && w.now <= w.later && !PhaseOver(cfg, d, w.now) && Active(d.state)
    ensures Progressed(cfg, d, LocalFailure(d, kind, w.later), w.now)
  {
  }

  lemma {:induction false} OfflineEnsuredProgresses(cfg: Config, d: Download, seen: Download, state: OfflineState,
                                                    now: int)
    requires cfg.Valid() && d.state.SubmittingOffline? && seen.state == d.state
    ensures Progressed(cfg, d, OfflineEnsured(cfg, seen, state, now), now)
  {
  }

  lemma {:induction false} EnsureOfflineProgresses(cfg: Config, d: Download, w: World)
    requires cfg.Valid() && w.now <= w.later && d.state.SubmittingOffline? && !PhaseOver(cfg, d, w.now)
    ensures ProgressDecision(cfg, d, EnsureOffline(cfg, d, w), w.now)
  {
    var begun := if d.times.offlineStarted.None? then d.(times := d.times.(offlineStarted := Some(w.later))) else d;
    match w.offlineEnsured
    case Err(failure) => CloudFailureProgresses(cfg, d, begun, failure, OtherOperation, w);
    case Ok(task) =>
      SharedProgress(cfg, d, begun, CloudResponseInvalid, WaitingOffline, w.now, w.now);
      if ValidOfflineTask(d, task) {
        OfflineEnsuredProgresses(cfg, d, RecordOffline(begun, task), task.state, w.now);
      }
  }

  lemma {:induction false} SubmitOfflineProgresses(cfg: Config, d: Download, w: World)
    requires cfg.Valid() && w.now <= w.later && d.state.SubmittingOffline?
    ensures ProgressDecision(cfg, d, SubmitOffline(cfg, d, w), w.now)
  {
    if !PhaseOver(cfg, d, w.now) {
      if d.status.Is(OfflineError) && w.offlineCancelled.Err? {
        CloudFailureProgresses(cfg, d, d, w.offlineCancelled.failure, OtherOperation, w);
      }
      EnsureOfflineProgresses(cfg, d, w);
    }
  }

  lemma {:induction false} WaitOfflineProgresses(cfg: Config, d: Download, w: World)
    requires cfg.Valid() && w.now <= w.later && d.state.WaitingOffline?
    ensures ProgressDecision(cfg, d, WaitOffline(cfg, d, w), w.now)
  {
    if !PhaseOver(cfg, d, w.now) {
      match w.offlineSeen
      case Err(failure) => CloudFailureProgresses(cfg, d, d, failure, OtherOperation, w);
      case Ok(None) => SharedProgress(cfg, d, d, NoProblem, SubmittingCopy, w.now, w.now);
      case Ok(Some(task)) =>
        SharedProgress(cfg, d, d, CloudResponseInvalid, SubmittingCopy, w.now, w.now);
        if ValidOfflineTask(d, task) {
          var seen := RecordOffline(d, task);
          SharedProgress(cfg, d, seen, if task.state.TaskError? then OfflineDownloadFailed else CloudResponseInvalid,
                         SubmittingCopy, w.now, w.now);
          SharedProgress(cfg, d, OfflineDone(seen), NoProblem, SubmittingCopy, w.now, w.now);
        }
    }
  }

  lemma {:induction false} ResolveProgresses(cfg: Config, d: Download, w: World)
    requires cfg.Valid() && Inv(d) && w.now <= w.later && d.state.SubmittingCopy? && !PhaseOver(cfg, d, w.now)
    requires d.places.copySource == ""
    ensures ProgressDecision(cfg, d, ResolveSource(d, w), w.now)
  {
    match ResolveCopySource(d, w)
    case InspectionFailed(failure) => CloudFailureProgresses(cfg, d, d, failure, CopyOperation, w);
    case Resolved(path) => SourceIsAbsolute(d, w);
    case _ =>
  }

  lemma {:induction false} CleaningProgresses(cfg: Config, d: Download, w: World)
    requires cfg.Valid() && w.now <= w.later && d.state.SubmittingCopy? && !PhaseOver(cfg, d, w.now)
    ensures MustRemoveCopy(d.status) ==> ProgressDecision(cfg, d, RemoveOldCopy(d, w), w.now)
    ensures MustDeleteCopy(d.status) ==> ProgressDecision(cfg, d, DeleteOldCopy(d, w), w.now)
  {
    if MustRemoveCopy(d.status) && w.copyRemoved.Err? {
      CloudFailureProgresses(cfg, d, d, w.copyRemoved.failure, OtherOperation, w);
    }
    if MustRemoveCopy(d.status) {
      RemovedMustBeDeleted(d.status);
    }
  }

  lemma {:induction false} RemovedMustBeDeleted(status: Status)
    requires MustRemoveCopy(status)
    ensures MustDeleteCopy(MarkCopyRemoved(status)) && !MustRemoveCopy(MarkCopyRemoved(status))
  {
  }

  lemma {:induction false} PreflightProgresses(cfg: Config, d: Download, w: World)
    requires cfg.Valid() && w.now <= w.later && d.state.SubmittingCopy? && !PhaseOver(cfg, d, w.now)
    requires !MustRemoveCopy(d.status) && !MustDeleteCopy(d.status) && !d.status.Is(DestinationClear)
    ensures ProgressDecision(cfg, d, Preflight(d, w), w.now)
  {
    if Prepared(d, w).Some? {
      LocalFailureProgresses(cfg, d, Prepared(d, w).value, w);
    } else if w.destinationSeen.Some? {
      LocalFailureProgresses(cfg, d, w.destinationSeen.value, w);
    }
  }

  lemma {:induction false} EnsureCopyProgresses(cfg: Config, d: Download, w: World)
    requires cfg.Valid() && w.now <= w.later && d.state.SubmittingCopy? && !PhaseOver(cfg, d, w.now)
    ensures ProgressDecision(cfg, d, EnsureCopy(cfg, d, w), w.now)
  {
    if Prepared(d, w).Some? {
      LocalFailureProgresses(cfg, d, Prepared(d, w).value, w);
    } else if w.copyEnsured.Err? {
      CloudFailureProgresses(cfg, d, d, w.copyEnsured.failure, CopyOperation, w);
    }
  }

  lemma {:induction false} SubmitCopyProgresses(cfg: Config, d: Download, w: World)
    requires cfg.Valid() && Inv(d) && w.now <= w.later && d.state.SubmittingCopy?
    ensures ProgressDecision(cfg, d, SubmitCopy(cfg, d, w), w.now)
  {
    if !PhaseOver(cfg, d, w.now) {
      if d.places.copySource == "" {
        ResolveProgresses(cfg, d, w);
      } else if d.places.destination == "" {
      } else if MustRemoveCopy(d.status) || MustDeleteCopy(d.status) {
        CleaningProgresses(cfg, d, w);
      } else if !d.status.Is(DestinationClear) {
        PreflightProgresses(cfg, d, w);
      } else {
        EnsureCopyProgresses(cfg, d, w);
      }
    }
  }

  lemma {:induction false} WaitCopyProgresses(cfg: Config, d: Download, w: World)
    requires cfg.Valid() && w.now <= w.later && d.state.WaitingCopy?
    ensures ProgressDecision(cfg, d, WaitCopy(cfg, d, w), w.now)
  {
    if !PhaseOver(cfg, d, w.now) {
      match w.copySeen
      case Err(failure) => CloudFailureProgresses(cfg, d, d, failure, CopyOperation, w);
      case Ok(None) =>
        SharedProgress(cfg, d, d, NoProblem, VerifyingLocal, w.now, w.now);
        if w.verification.VerificationFailed? {
          LocalFailureProgresses(cfg, d, w.verification.kind, w);
        } else if w.verification.Verified? {
          SharedProgress(cfg, d, RecordCopyCompleted(RecordVerified(d, w.verification), w.now), NoProblem,
                         VerifyingLocal, w.now, w.now);
        }
      case Ok(Some(task)) =>
        SharedProgress(cfg, d, d, CloudResponseInvalid, VerifyingLocal, w.now, w.now);
        if ValidCopyTask(task, d.places.copySource, Root(d)) {
          var seen := RecordCopy(d, task);
          SharedProgress(cfg, d, seen, CopyTaskFailed, VerifyingLocal, w.now, w.now);
          SharedProgress(cfg, d, RecordCopyCompleted(seen, w.now), NoProblem, VerifyingLocal, w.now, w.now);
        }
    }
  }

  lemma {:induction false} VerifyLocalProgresses(cfg: Config, d: Download, w: World)
    requires cfg.Valid() && w.now <= w.later && d.state.VerifyingLocal?
    ensures ProgressDecision(cfg, d, VerifyLocal(cfg, d, w), w.now)
  {
  }

  lemma {:induction false} CancelProgresses(cfg: Config, d: Download, w: World)
    requires cfg.Valid() && w.now <= w.later && d.state.CancelRequested?
    ensures ProgressDecision(cfg, d, Cancel(d, w), w.now)
  {
  }

  lemma {:induction false} PauseProgresses(cfg: Config, d: Download, w: World)
    requires cfg.Valid() && w.now <= w.later && d.state.CancelRequested? && d.pause
    ensures ProgressDecision(cfg, d, Pause(d, w), w.now)
  {
  }

  lemma {:induction false} DeleteProgresses(cfg: Config, d: Download, w: World)
    requires cfg.Valid() && w.now <= w.later && d.state.DeleteRequested?
    ensures ProgressDecision(cfg, d, Delete(d, w), w.now)
  {
  }

  lemma {:induction false} DecideProgresses(cfg: Config, d: Download, w: World)
    requires cfg.Valid() && Inv(d) && w.now <= w.later && d.nextRun.Some?
    ensures ProgressDecision(cfg, d, Decide(cfg, d, w), w.now)
  {
    match d.state
    case SubmittingOffline => SubmitOfflineProgresses(cfg, d, w);
    case WaitingOffline => WaitOfflineProgresses(cfg, d, w);
    case SubmittingCopy => SubmitCopyProgresses(cfg, d, w);
    case WaitingCopy => WaitCopyProgresses(cfg, d, w);
    case VerifyingLocal => VerifyLocalProgresses(cfg, d, w);
    case CancelRequested =>
      if d.pause { PauseProgresses(cfg, d, w); } else { CancelProgresses(cfg, d, w); }
    case DeleteRequested => DeleteProgresses(cfg, d, w);
    case _ =>
  }

  /** A step that does no remote or local work ends at once, so it cannot outlive its lease. */
  predicate CanBeOverdue(cfg: Config, d: Download, now: int) {
    !d.state.Accepted? && !PhaseOver(cfg, d, now)
  }

  predicate Timely(cfg: Config, d: Download, w: World, fate: Fate) {
    fate.Overdue? ==> CanBeOverdue(cfg, d, w.now)
  }

  /** Every committed step progresses, however it ends. */
  lemma {:induction false} StepProgresses(cfg: Config, d: Download, w: World, fate: Fate)
    requires cfg.Valid() && Inv(d) && Believable(d, w) && d.nextRun.Some?
    requires fate != Lost && Possible(d, w, fate, Decide(cfg, d, w)) && Timely(cfg, d, w, fate)
    ensures Progressed(cfg, d, After(d, w, fate, Decide(cfg, d, w)), w.now)
  {
    DecideProgresses(cfg, d, w);
    if fate.NameTaken? {
      OnlyReservingAddsName(cfg, d, w);
    }
  }

  // ---- The bound -------------------------------------------------------------------------------

  /** How many steps fit before a deadline that is `gap` away, one of which may be late. */
  function Slots(gap: int, pace: int): (n: nat)
    requires pace > 0
    ensures n > 0
    decreases if gap > 0 then gap else 0
  {
    if gap <= 0 then 1 else 1 + Slots(gap - pace, pace)
  }

  lemma {:induction false} SlotsMonotone(a: int, b: int, pace: int)
    requires pace > 0 && a <= b
    ensures Slots(a, pace) <= Slots(b, pace)
    decreases if b > 0 then b else 0
  {
    if a > 0 {
      SlotsMonotone(a - pace, b - pace, pace);
    }
  }

  /** Slots counts the waits that start before the deadline, and the step that finds it passed. */
  lemma {:induction false} SlotsAreWaits(gap: int, pace: int)
    requires pace > 0 && gap > 0
    ensures (Slots(gap, pace) - 2) * pace < gap <= (Slots(gap, pace) - 1) * pace
    decreases gap
  {
    if gap > pace {
      SlotsAreWaits(gap - pace, pace);
      var n := Slots(gap - pace, pace);
      assert (n + 1 - 2) * pace == (n - 2) * pace + pace && (n + 1 - 1) * pace == (n - 1) * pace + pace;
    } else {
      assert Slots(gap, pace) == 2;
    }
  }

  function Gap(cfg: Config, d: Download): int
    requires d.nextRun.Some?
  {
    d.times.phaseStarted + Limit(cfg, d.state) - d.nextRun.value
  }

  /** The most steps that a phase entered now can take. */
  function Fresh(cfg: Config, rank: nat): nat
    requires cfg.Valid()
  {
    match rank
    case 1 => Slots(cfg.verifyTimeout, Pace(cfg))
    case 2 => Slots(cfg.copyTimeout, Pace(cfg))
    case 3 => Slots(cfg.copyTimeout, Pace(cfg)) + 6
    case 4 => Slots(cfg.offlineTimeout, Pace(cfg))
    case 5 => Slots(cfg.offlineTimeout, Pace(cfg)) + 6
    case _ => 1
  }

  function Later(cfg: Config, rank: nat): nat
    requires cfg.Valid()
  {
    if rank <= 1 then 0 else Fresh(cfg, rank - 1) + Later(cfg, rank - 1)
  }

  lemma {:induction false} LaterMonotone(cfg: Config, a: nat, b: nat)
    requires cfg.Valid() && 1 <= a < b
    ensures Fresh(cfg, a) + Later(cfg, a) <= Later(cfg, b)
  {
    if a < b - 1 {
      LaterMonotone(cfg, a, b - 1);
    }
  }

  /** The most committed steps that an active, scheduled row can still take. */
  function Budget(cfg: Config, d: Download): (n: nat)
    requires cfg.Valid() && Active(d.state) && d.nextRun.Some?
  {
    if d.state.Accepted? then 1 + Later(cfg, 6)
    else Slots(Gap(cfg, d), Pace(cfg)) + SubRank(d) + Later(cfg, StateRank(d.state))
  }

  /** What is left of the timeouts plus the durable steps ahead goes down with every committed step. */
  lemma {:induction false} ProgressLowersBudget(cfg: Config, d: Download, next: Download, now: int)
    requires cfg.Valid() && Active(d.state) && d.nextRun.Some? && d.nextRun.value <= now
    requires Progressed(cfg, d, next, now) && next.nextRun.Some? && !(next.state.Accepted?)
    ensures Active(next.state) && Budget(cfg, next) < Budget(cfg, d)
  {
    if next.state == d.state {
      SlotsMonotone(Gap(cfg, next), Gap(cfg, d), Pace(cfg));
      if SubRank(next) == SubRank(d) {
        assert Gap(cfg, d) > 0;
        SlotsMonotone(Gap(cfg, next), Gap(cfg, d) - Pace(cfg), Pace(cfg));
      }
    } else {
      SlotsMonotone(Gap(cfg, next), Limit(cfg, next.state), Pace(cfg));
      assert Slots(Gap(cfg, next), Pace(cfg)) + SubRank(next) <= Fresh(cfg, StateRank(next.state));
      LaterMonotone(cfg, StateRank(next.state), StateRank(d.state));
    }
  }

  lemma {:induction false} StepLowersBudget(cfg: Config, d: Download, w: World, fate: Fate)
    requires cfg.Valid() && Inv(d) && Believable(d, w) && Active(d.state) && d.nextRun.Some? && d.nextRun.value <= w.now
    requires fate != Lost && Possible(d, w, fate, Decide(cfg, d, w)) && Timely(cfg, d, w, fate)
    ensures var next := After(d, w, fate, Decide(cfg, d, w));
            || next.state.Completed? || next.state.Failed?
            || (Active(next.state) && next.nextRun.Some? && Budget(cfg, next) < Budget(cfg, d))
  {
    var next := After(d, w, fate, Decide(cfg, d, w));
    StepProgresses(cfg, d, w, fate);
    if next.nextRun.Some? {
      ProgressLowersBudget(cfg, d, next, w.now);
    }
  }

  /** Step i is a committed step of a worker from an active row. */
  predicate WorksAt(cfg: Config, rows: seq<Download>, moves: seq<Move>, i: nat)
    requires i < |moves| && |rows| == |moves| + 1
  {
    && Active(rows[i].state) && moves[i].Work? && moves[i].fate != Lost
    && Enabled(cfg, rows[i], moves[i]) && rows[i + 1] == Moved(cfg, rows[i], moves[i])
    && (moves[i].fate.Overdue? ==> CanBeOverdue(cfg, rows[i], moves[i].world.now))
  }

  /** Committed steps of workers alone. */
  predicate Attempt(cfg: Config, rows: seq<Download>, moves: seq<Move>) {
    && |rows| == |moves| + 1
    && forall i {:trigger WorksAt(cfg, rows, moves, i)} :: 0 <= i < |moves| ==> WorksAt(cfg, rows, moves, i)
  }

  /** Absent operator intents, an active download comes to COMPLETED or FAILED within the budget of its first row: no
      sequence of committed steps is longer, and none that stops earlier stops anywhere but at the end or on a row
      that is scheduled to go on. */
  lemma {:induction false} BoundedWorkflow(cfg: Config, rows: seq<Download>, moves: seq<Move>)
    requires cfg.Valid() && Attempt(cfg, rows, moves) && Inv(rows[0])
    requires Active(rows[0].state)
    ensures |moves| <= Budget(cfg, rows[0])
    ensures var last := rows[|moves|];
            || last.state.Completed? || last.state.Failed?
            || (Active(last.state) && last.nextRun.Some? && |moves| < Budget(cfg, rows[0]))
  {
    if moves != [] {
      assert WorksAt(cfg, rows, moves, 0);
      StepLowersBudget(cfg, rows[0], moves[0].world, moves[0].fate);
      MoveKeepsInv(cfg, rows[0], moves[0]);
      TailAttempt(cfg, rows, moves);
      assert |moves| > 1 ==> WorksAt(cfg, rows, moves, 1);
      if Active(rows[1].state) {
        BoundedWorkflow(cfg, rows[1..], moves[1..]);
      }
    }
  }

  lemma {:induction false} TailAttempt(cfg: Config, rows: seq<Download>, moves: seq<Move>)
    requires Attempt(cfg, rows, moves) && moves != []
    ensures Attempt(cfg, rows[1..], moves[1..])
  {
    var someRows, some := rows[1..], moves[1..];
    forall i | 0 <= i < |some| ensures WorksAt(cfg, someRows, some, i) {
      assert WorksAt(cfg, rows, moves, i + 1);
      assert some[i] == moves[i + 1] && someRows[i] == rows[i + 1] && someRows[i + 1] == rows[i + 2];
    }
  }
}
