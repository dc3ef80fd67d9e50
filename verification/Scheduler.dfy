/** The worker that advances one claimed row in place, proved against the step function
    (internal/reconcile/reconcile.go). */
module Schedulers {
  import opened Paths
  import opened Domain
  import W = Workflow
  import opened Workflow
  import R = RowInvariant
  import L = Lifecycle
  import Deadlines
  import CopyOrder

  /** What a proposal is worth to its caller: the store accepts it and the row keeps its invariant, it makes progress,
      it does to cloud and disk only what its status allows, and a removal marker keeps its evidence. */
  ghost predicate Serves(cfg: Config, d: Download, w: World, next: Download, log: seq<Effect>) {
    && R.Good(d, next) && (cfg.Valid() ==> Deadlines.Progressed(cfg, d, next, w.now))
    && (forall e :: e in log ==> CopyOrder.EffectFits(d, e))
    && (CopyOrder.MarkerHasEvidence(d) ==> CopyOrder.MarkerHasEvidence(next))
  }

  lemma {:induction false} ProposalServes(cfg: Config, d: Download, w: World)
    requires Inv(d) && d.nextRun.Some? && R.Believable(d, w) && W.Decide(cfg, d, w).Propose?
    ensures Serves(cfg, d, w, W.Decide(cfg, d, w).download, W.Decide(cfg, d, w).log)
  {
    R.DecideIsAccepted(cfg, d, w);
    if cfg.Valid() {
      Deadlines.StepProgresses(cfg, d, w, L.Committed);
    }
    forall e | e in W.Decide(cfg, d, w).log ensures CopyOrder.EffectFits(d, e) {
      CopyOrder.EffectsNeedStatus(cfg, d, w, e);
    }
    if CopyOrder.MarkerHasEvidence(d) {
      CopyOrder.DecideExplained(cfg, d, w);
    }
  }

  class Worker {
    const cfg: Config
    var d: Download
    var log: seq<Effect>

    constructor (cfg: Config, claimed: Download)
      ensures this.cfg == cfg && d == claimed && log == []
    {
      this.cfg := cfg;
      d := claimed;
      log := [];
    }

    // ---- The updates every phase shares --------------------------------------------------------

    method Advance(state: State, now: int, due: int)
      modifies this`d
      ensures d == W.Advance(old(d), state, now, due)
    {
      d := d.(state := state, attempts := 0, problem := NoProblem);
      d := d.(times := d.times.(phaseStarted := now), nextRun := Some(due));
    }

    method RunAgain(due: int)
      modifies this`d
      ensures d == W.Again(old(d), due)
    {
      d := d.(attempts := 0, problem := NoProblem);
      d := d.(nextRun := Some(due));
    }

    method Fail(problem: Problem)
      modifies this`d
      ensures d == W.Fail(old(d), problem)
    {
      d := d.(state := Failed, problem := problem, nextRun := None);
    }

    method Retry(problem: Problem, later: int)
      modifies this`d
      ensures d == W.Retry(old(d), problem, later)
    {
      d := d.(attempts := d.attempts + 1);
      d := d.(problem := problem);
      d := d.(nextRun := Some(later + Backoff(d.attempts)));
    }

    method CleanupProblem(problem: Problem)
      modifies this`d
      ensures d == W.CleanupProblem(old(d), problem)
    {
      d := d.(attempts := d.attempts + 1);
      d := d.(problem := problem, nextRun := None);
    }

    method Rest(state: State)
      modifies this`d
      ensures d == W.Rest(old(d), state)
    {
      d := d.(state := state, problem := NoProblem, attempts := 0, nextRun := None);
    }

    method CloudFailure(failure: Failure, op: Operation, later: int)
      modifies this`d
      ensures d == W.CloudFailure(old(d), failure, op, later)
    {
      var problem := CloudProblem(failure, op);
      if RetryObservation(failure, op) {
        Retry(problem, later);
      } else {
        Fail(problem);
      }
    }

    method CleanupFailure(failure: Failure, later: int)
      modifies this`d
      ensures d == W.CleanupFailure(old(d), failure, later)
    {
      var problem := CloudProblem(failure, OtherOperation);
      if RetryObservation(failure, OtherOperation) {
        Retry(problem, later);
      } else {
        CleanupProblem(problem);
      }
    }

    method LocalFailure(kind: FsKind, later: int)
      modifies this`d
      ensures d == W.LocalFailure(old(d), kind, later)
    {
      match kind
      case PermissionDenied => Fail(LocalPermissionDenied);
      case UnsafePath => Fail(LocalPathUnsafe);
      case WrongLayout => Fail(LocalContentLayoutInvalid);
      case _ => Retry(LocalFilesystemUnavailable, later);
    }

    method MarkCleanupCancelled()
      modifies this`d
      ensures d == old(d).(status := W.MarkCleanupCancelled(old(d).status))
    {
      if !d.status.MarkedFirst(CancelledMark) {
        d := d.(status := Status([CancelledMark] + d.status.marks, d.status.report));
      }
    }

    method MarkCopyRemoved()
      modifies this`d
      ensures d == old(d).(status := W.MarkCopyRemoved(old(d).status))
    {
      if d.status.MarkedFirst(RemovedMark) {
        return;
      }
      var status := d.status.Trimmed(CancelledMark);
      if status == Plain(Nothing) || status == Status([CancelledMark], Nothing) {
        d := d.(status := Status([RemovedMark], Nothing));
        return;
      }
      d := d.(status := Status([RemovedMark] + status.marks, status.report));
    }

    method RecordOffline(task: OfflineTask)
      requires !task.state.TaskUnknown?
      modifies this`d
      ensures d == W.RecordOffline(old(d), task)
    {
      d := d.(shares := d.shares.(offline := task.progress, qbit := 0.9 * task.progress));
      d := d.(status := Plain(OfflineReported(task.state)));
      if task.state.TaskFinished? {
        d := d.(places := d.places.(cloudTask := task.name, cloudResult := task.source));
        if d.id.kind.Magnet? && !d.id.nameOverridden {
          d := d.(id := d.id.(name := task.name));
        }
      }
      if d.id.kind.Magnet? && d.shape.totalSize == 0 && task.size > 0 {
        d := d.(shape := d.shape.(totalSize := task.size));
      }
    }

    method RecordCopy(task: CopyTask)
      requires !task.state.TaskOther?
      modifies this`d
      ensures d == W.RecordCopy(old(d), task)
    {
      d := d.(shares := d.shares.(copy := task.progress, qbit := 0.9 + 0.09 * task.progress));
      d := d.(status := Plain(CopyReported(task.state)));
    }

    method RecordCopyCompleted(at: int)
      modifies this`d
      ensures d == W.RecordCopyCompleted(old(d), at)
    {
      if d.times.copyCompleted.None? {
        d := d.(times := d.times.(copyCompleted := Some(at)));
      }
    }

    method RecordVerified(v: Verification)
      requires v.Verified?
      modifies this`d
      ensures d == W.RecordVerified(old(d), v)
    {
      if d.id.kind.Magnet? || d.shape.multiFile.None? {
        d := d.(shape := d.shape.(multiFile := Some(v.multiFile)));
      }
      d := d.(places := d.places.(content := v.path), shape := d.shape.(totalSize := v.size));
    }

    // ---- The phases ----------------------------------------------------------------------------

    /** What the store is asked to write, or that the step ended in an error and nothing is written. */
    function Result(halted: bool): Decision
      reads this
    {
      if halted then Halt(log) else Propose(d, log)
    }

    method EnsureOffline(w: World)
      requires log == []
      modifies this
      ensures Result(false) == W.EnsureOffline(cfg, old(d), w)
    {
      if d.times.offlineStarted.None? {
        d := d.(times := d.times.(offlineStarted := Some(w.later)));
      }
      match w.offlineEnsured
      case Err(failure) => CloudFailure(failure, OtherOperation, w.later);
      case Ok(task) =>
        if !ValidOfflineTask(d, task) {
          Fail(CloudResponseInvalid);
          return;
        }
        RecordOffline(task);
        FollowOffline(task.state, w.now);
    }

    method FollowOffline(state: OfflineState, now: int)
      modifies this`d
      ensures d == W.OfflineEnsured(cfg, old(d), state, now)
    {
      if state.TaskFinished? {
        d := OfflineDone(d);
        Advance(SubmittingCopy, now, now);
      } else if state.TaskError? {
        Fail(OfflineDownloadFailed);
      } else {
        Advance(WaitingOffline, now, now + cfg.poll);
      }
    }

    method SubmitOffline(w: World)
      requires log == []
      modifies this
      ensures Result(false) == W.SubmitOffline(cfg, old(d), w)
    {
      if TimedOut(d, w.now, cfg.offlineTimeout) {
        Fail(DeadlineProblem(d, OfflineTimeout));
      } else if d.status.Is(OfflineError) {
        match w.offlineCancelled
        case Err(failure) => CloudFailure(failure, OtherOperation, w.later);
        case Ok(_) =>
          d := d.(shares := d.shares.(offline := 0.0, qbit := 0.0));
          d := d.(status := Plain(Nothing));
          RunAgain(w.now);
      } else {
        EnsureOffline(w);
      }
    }

    method WaitOffline(w: World)
      requires log == []
      modifies this
      ensures Result(false) == W.WaitOffline(cfg, old(d), w)
    {
      if TimedOut(d, w.now, cfg.offlineTimeout) {
        Fail(DeadlineProblem(d, OfflineTimeout));
        return;
      }
      match w.offlineSeen
      case Err(failure) => CloudFailure(failure, OtherOperation, w.later);
      case Ok(None) => RunAgain(w.now + cfg.poll);
      case Ok(Some(task)) =>
        if !ValidOfflineTask(d, task) {
          Fail(CloudResponseInvalid);
          return;
        }
        RecordOffline(task);
        if task.state.TaskFinished? {
          // A valid finished task has a name and a source, so the check for empty ones cannot fire.
          d := OfflineDone(d);
          Advance(SubmittingCopy, w.now, w.now);
        } else if task.state.TaskError? {
          Fail(OfflineDownloadFailed);
        } else {
          RunAgain(w.now + cfg.poll);
        }
    }

    method ResolveSource(w: World) returns (halted: bool)
      requires log == []
      modifies this
      ensures Result(halted) == W.ResolveSource(old(d), w)
    {
      halted := false;
      match ResolveCopySource(d, w)
      case LayoutInvalid => Fail(CloudContentLayoutInvalid);
      case InspectionFailed(failure) => CloudFailure(failure, CopyOperation, w.later);
      case ResolutionError => halted := true;
      case Resolved(path) =>
        d := d.(places := d.places.(copySource := path));
        RunAgain(w.now);
    }

    method ReserveDestination(w: World)
      requires log == []
      modifies this
      ensures Result(false) == W.ReserveDestination(old(d), w)
    {
      var name := Base(Clean(d.places.copySource));
      if !GoodComponent(name) {
        Fail(CloudContentLayoutInvalid);
        return;
      }
      d := d.(places := d.places.(destination := name));
      RunAgain(w.now);
    }

    method RemoveOldCopy(w: World)
      requires log == []
      modifies this
      ensures Result(false) == W.RemoveOldCopy(old(d), w)
    {
      if d.places.destination == "" {
        Fail(InternalWorkflowError);
        return;
      }
      match w.copyRemoved
      case Err(failure) => CloudFailure(failure, OtherOperation, w.later);
      case Ok(_) =>
        log := [CopyRemoved(d.places.copySource, Root(d))];
        d := d.(shares := CopyUndone(d.shares));
        MarkCopyRemoved();
        RunAgain(w.now);
    }

    method DeleteOldCopy(w: World)
      requires log == []
      modifies this
      ensures Result(false) == W.DeleteOldCopy(old(d), w)
    {
      if d.places.destination == "" {
        Fail(InternalWorkflowError);
        return;
      }
      log := [LocalDeleted(d.id.hash)];
      if !w.localDeleted {
        Fail(LocalDeleteFailed);
        d := d.(attempts := d.attempts + 1);
        return;
      }
      if d.places.workspace == "" {
        if Clean(d.id.savePath) != d.id.savePath {
          Fail(InternalWorkflowError);
          return;
        }
        d := d.(places := d.places.(workspace := WorkspacePath(d.id.savePath, d.id.hash)));
      }
      d := d.(shares := CopyUndone(d.shares));
      d := d.(places := d.places.(content := ""), times := d.times.(copyCompleted := None));
      d := d.(status := Plain(OfflineFinished));
      RunAgain(w.now);
    }

    method Preflight(w: World)
      requires log == []
      modifies this
      ensures Result(false) == W.Preflight(old(d), w)
    {
      var prepared := Prepared(d, w);
      if prepared.Some? {
        LocalFailure(prepared.value, w.later);
      } else if w.destinationSeen.Some? {
        LocalFailure(w.destinationSeen.value, w.later);
      } else if w.destinationExists {
        Fail(DestinationCollision);
      } else {
        log := [DestinationSeenEmpty(Root(d), d.places.destination)];
        d := d.(status := Plain(DestinationClear));
        RunAgain(w.now);
      }
    }

    method EnsureCopy(w: World)
      requires log == []
      modifies this
      ensures Result(false) == W.EnsureCopy(cfg, old(d), w)
    {
      var prepared := Prepared(d, w);
      if prepared.Some? {
        LocalFailure(prepared.value, w.later);
        return;
      }
      log := [CopyRequested(d.places.copySource, Root(d))];
      match w.copyEnsured
      case Err(failure) => CloudFailure(failure, CopyOperation, w.later);
      case Ok(task) =>
        if !ValidCopyTask(task, d.places.copySource, Root(d)) {
          Fail(CloudResponseInvalid);
          return;
        }
        RecordCopy(task);
        if task.state.TaskCompleted? {
          RecordCopyCompleted(w.now);
          Advance(WaitingCopy, w.now, w.now);
        } else if task.state.TaskFailed? {
          Fail(CopyTaskFailed);
        } else {
          Advance(WaitingCopy, w.now, w.now + cfg.poll);
        }
    }

    method SubmitCopy(w: World) returns (halted: bool)
      requires log == []
      modifies this
      ensures Result(halted) == W.SubmitCopy(cfg, old(d), w)
    {
      halted := false;
      if TimedOut(d, w.now, cfg.copyTimeout) {
        Fail(DeadlineProblem(d, CopyTimeout));
      } else if d.places.cloudResult == "" {
        Fail(CloudContentLayoutInvalid);
      } else if d.places.copySource == "" {
        halted := ResolveSource(w);
      } else if d.places.destination == "" {
        ReserveDestination(w);
      } else if MustRemoveCopy(d.status) {
        RemoveOldCopy(w);
      } else if MustDeleteCopy(d.status) {
        DeleteOldCopy(w);
      } else if !d.status.Is(DestinationClear) {
        Preflight(w);
      } else {
        EnsureCopy(w);
      }
    }

    method WaitCopy(w: World) returns (halted: bool)
      requires log == []
      modifies this
      ensures Result(halted) == W.WaitCopy(cfg, old(d), w)
    {
      halted := false;
      if TimedOut(d, w.now, cfg.copyTimeout) {
        Fail(DeadlineProblem(d, CopyTimeout));
        return;
      }
      match w.copySeen
      case Err(failure) => CloudFailure(failure, CopyOperation, w.later);
      case Ok(None) =>
        match w.verification {
          case Verified(_, _, _) =>
            RecordVerified(w.verification);
            RecordCopyCompleted(w.now);
            Advance(VerifyingLocal, w.now, w.now);
          case ManifestUnavailable => halted := true;
          case ContentMissing => RunAgain(w.now + cfg.poll);
          case VerificationFailed(kind) => LocalFailure(kind, w.later);
        }
      case Ok(Some(task)) =>
        if !ValidCopyTask(task, d.places.copySource, Root(d)) {
          Fail(CloudResponseInvalid);
          return;
        }
        RecordCopy(task);
        if task.state.TaskCompleted? {
          RecordCopyCompleted(w.now);
          Advance(VerifyingLocal, w.now, w.now);
        } else if task.state.TaskFailed? {
          Fail(CopyTaskFailed);
        } else {
          RunAgain(w.now + cfg.poll);
        }
    }

    method VerifyLocal(w: World) returns (halted: bool)
      requires log == []
      modifies this
      ensures Result(halted) == W.VerifyLocal(cfg, old(d), w)
    {
      halted := false;
      if TimedOut(d, w.now, cfg.verifyTimeout) {
        Fail(if d.problem.LocalFilesystemUnavailable? then LocalFilesystemUnavailableTimeout
             else LocalVerificationTimeout);
        return;
      }
      match w.verification
      case Verified(_, _, _) =>
        RecordVerified(w.verification);
        d := d.(shares := Shares(1.0, 1.0, 1.0));
        d := d.(times := d.times.(completed := Some(w.now)));
        Rest(Completed);
      case ManifestUnavailable => halted := true;
      case ContentMissing => RunAgain(w.now + cfg.poll);
      case VerificationFailed(kind) => LocalFailure(kind, w.later);
    }

    method Cancel(w: World)
      requires log == []
      modifies this
      ensures Result(false) == W.Cancel(old(d), w)
    {
      if d.places.copySource != "" {
        if w.copyRemoved.Err? {
          CleanupFailure(w.copyRemoved.failure, w.later);
          return;
        }
        log := [CopyRemoved(d.places.copySource, Root(d))];
        MarkCopyRemoved();
      } else {
        if w.offlineCancelled.Err? && !Gone(w.offlineCancelled.failure) {
          CleanupFailure(w.offlineCancelled.failure, w.later);
          return;
        }
        MarkCleanupCancelled();
      }
      Rest(Cancelled);
    }

    method Pause(w: World)
      requires log == []
      modifies this
      ensures Result(false) == W.Pause(old(d), w)
    {
      if d.places.content != "" || d.status.Is(CopyCompleted) {
        Rest(Stopped);
        return;
      }
      if d.places.copySource == "" {
        if w.offlineCancelled.Err? && !Gone(w.offlineCancelled.failure) {
          CleanupFailure(w.offlineCancelled.failure, w.later);
          return;
        }
        d := d.(shares := Shares(0.0, 0.0, 0.0), status := Plain(Nothing));
        Rest(Stopped);
        return;
      }
      if !d.status.MarkedFirst(RemovedMark) {
        if w.copyRemoved.Err? {
          CleanupFailure(w.copyRemoved.failure, w.later);
          return;
        }
        log := [CopyRemoved(d.places.copySource, Root(d))];
        MarkCopyRemoved();
        RunAgain(w.now);
        return;
      }
      PauseCopy(w);
    }

    method PauseCopy(w: World)
      requires log == []
      modifies this
      ensures Result(false) == W.PauseCopy(old(d), w)
    {
      if d.places.workspace == "" && d.places.destination == "" {
        if CopyEvidence(d.status) {
          Fail(InternalWorkflowError);
          return;
        }
      } else {
        log := [LocalDeleted(d.id.hash)];
        if !w.localDeleted {
          CleanupProblem(LocalDeleteFailed);
          return;
        }
      }
      d := d.(shares := CopyUndone(d.shares));
      d := d.(status := Plain(OfflineFinished));
      Rest(Stopped);
    }

    method DeleteLocal(w: World)
      requires log == []
      modifies this
      ensures Result(false) == W.DeleteLocal(old(d), w)
    {
      if d.deleteFiles {
        var something := d.places.workspace != "" || d.places.content != "";
        if !something && CopyEvidence(d.status) {
          if d.places.destination == "" {
            Fail(InternalWorkflowError);
            return;
          }
          something := true;
        }
        if something {
          log := [LocalDeleted(d.id.hash)];
          if !w.localDeleted {
            CleanupProblem(LocalDeleteFailed);
            return;
          }
        }
      }
      if d.times.removed.None? {
        d := d.(times := d.times.(removed := Some(w.now)));
      }
      Rest(Deleted);
    }

    method Delete(w: World)
      requires log == []
      modifies this
      ensures Result(false) == W.Delete(old(d), w)
    {
      var copyNeedsRemoval := d.places.copySource != "" && !d.status.MarkedFirst(RemovedMark);
      var offlineNeedsCancellation :=
        d.places.copySource == "" && d.times.completed.None? && d.places.content == ""
          && !d.status.MarkedFirst(CancelledMark);
      if copyNeedsRemoval {
        if w.copyRemoved.Err? {
          CleanupFailure(w.copyRemoved.failure, w.later);
          return;
        }
        log := [CopyRemoved(d.places.copySource, Root(d))];
        MarkCopyRemoved();
        RunAgain(w.now);
      } else if offlineNeedsCancellation {
        if w.offlineCancelled.Err? && !Gone(w.offlineCancelled.failure) {
          CleanupFailure(w.offlineCancelled.failure, w.later);
          return;
        }
        MarkCleanupCancelled();
        RunAgain(w.now);
      } else {
        DeleteLocal(w);
      }
    }

    /** One decision, in place: the row that the worker would commit and what it did on the way are those of the
        step function, and for a stored row that is due they serve. */
    method Decide(w: World) returns (halted: bool)
      requires log == []
      modifies this
      ensures Result(halted) == W.Decide(cfg, old(d), w)
      ensures !halted && Inv(old(d)) && old(d).nextRun.Some? && R.Believable(old(d), w) ==>
                Serves(cfg, old(d), w, d, log)
    {
      if Inv(d) && d.nextRun.Some? && R.Believable(d, w) && W.Decide(cfg, d, w).Propose? {
        ProposalServes(cfg, d, w);
      }
      halted := false;
      match d.state
      case Accepted => Advance(SubmittingOffline, w.now, w.now);
      case SubmittingOffline => SubmitOffline(w);
      case WaitingOffline => WaitOffline(w);
      case SubmittingCopy => halted := SubmitCopy(w);
      case WaitingCopy => halted := WaitCopy(w);
      case VerifyingLocal => halted := VerifyLocal(w);
      case CancelRequested =>
        if d.pause {
          Pause(w);
        } else {
          Cancel(w);
        }
      case DeleteRequested => Delete(w);
      case _ => halted := true;
    }
  }
}
