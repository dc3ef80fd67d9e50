/** Every row a worker proposes is accepted by the store, and every stored row keeps the invariant. */
module RowInvariant {
  import opened Paths
  import opened Domain
  import opened Workflow

  /** What the local verifier guarantees about the path and size it reports, and that time does not run backwards. */
  predicate Believable(d: Download, w: World) {
    && w.now <= w.later
    && (w.verification.Verified? ==>
          && IsAbs(w.verification.path) && Clean(w.verification.path) != Clean(d.id.savePath)
          && w.verification.size >= 0)
  }

  /** sameClaimIdentity, on the fields this model has. */
  predicate SameIdentity(current: Download, next: Download) {
    && current.id.hash == next.id.hash && current.id.kind == next.id.kind
    && current.id.cloudFolder == next.id.cloudFolder && current.id.savePath == next.id.savePath
  }

  /** validateClaimWorkspace: a legacy row may be given its workspace only where its old copy has just been deleted. */
  predicate WorkspaceMayChange(current: Download, next: Download) {
    || current.places.workspace == next.places.workspace
    || (&& current.places.workspace == "" && next.places.workspace != ""
        && current.state.SubmittingCopy? && current.id.savePath == next.id.savePath && next.places.content == ""
        && next.status.Is(OfflineFinished)
        && (|| current.status.Is(OfflineFinished)
            || (|current.status.marks| == 1 && current.status.MarkedFirst(RemovedMark)
                && CopyReport(current.status.report)))
        && IsAbs(next.id.savePath) && Clean(next.id.savePath) == next.id.savePath
        && next.places.workspace == WorkspacePath(next.id.savePath, next.id.hash))
  }

  /** Every check the store makes before it tries to write the row. */
  predicate CommitAccepts(current: Download, next: Download) {
    && SameIdentity(current, next) && WorkspaceMayChange(current, next)
    && (next.state != current.state ==> CanTransition(current.state, next.state))
    && ValidDownload(next)
  }

  predicate Good(current: Download, next: Download) {
    CommitAccepts(current, next) && Inv(next)
  }

  predicate GoodDecision(current: Download, decision: Decision) {
    decision.Propose? ==> Good(current, decision.download)
  }

  // ---- The updates every phase shares ----------------------------------------------------------

  /** An intermediate row of the same step: what was claimed, with some observations recorded. */
  predicate Observed(claimed: Download, d: Download) {
    && SameIdentity(claimed, d) && claimed.places.workspace == d.places.workspace && claimed.state == d.state
    && Inv(d)
  }

  predicate FailsHere(d: Download, problem: Problem) {
    !problem.DestinationConflict? && (LocalProblem(problem) ==> d.places.cloudResult != "")
  }

  lemma {:induction false} FailGood(claimed: Download, d: Download, problem: Problem)
    requires Observed(claimed, d) && Active(d.state) && FailsHere(d, problem)
    ensures Good(claimed, Fail(d, problem))
  {
  }

  lemma {:induction false} DeadlineGood(d: Download, fallback: Problem)
    requires Inv(d) && Active(d.state) && FailsHere(d, fallback)
    ensures Good(d, Fail(d, DeadlineProblem(d, fallback)))
  {
    FailGood(d, d, DeadlineProblem(d, fallback));
  }

  lemma {:induction false} RetryGood(claimed: Download, d: Download, problem: Problem, later: int)
    requires Observed(claimed, d) && Claimable(d.state)
    requires problem.LocalFilesystemUnavailable? ==> RequiresCloudResult(d.state)
    ensures Good(claimed, Retry(d, problem, later))
  {
  }

  lemma {:induction false} AgainGood(claimed: Download, d: Download, now: int)
    requires Observed(claimed, d) && Claimable(d.state)
    ensures Good(claimed, Again(d, now))
  {
  }

  lemma {:induction false} AdvanceGood(claimed: Download, d: Download, state: State, now: int, due: int)
    requires Observed(claimed, d) && Active(d.state) && Active(state) && CanTransition(d.state, state)
    requires RequiresCloudResult(state) ==> d.places.cloudResult != ""
    requires RequiresCopySource(state) ==> d.places.copySource != "" && d.places.destination != ""
    ensures Good(claimed, Advance(d, state, now, due))
  {
  }

  lemma {:induction false} RestGood(claimed: Download, d: Download, state: State)
    requires Observed(claimed, d) && CanTransition(d.state, state)
    requires state.Stopped? || state.Cancelled? || state.Deleted?
    requires d.state.CancelRequested? || d.state.DeleteRequested?
    ensures Good(claimed, Rest(d, state))
  {
  }

  lemma {:induction false} CleanupProblemGood(d: Download, problem: Problem)
    requires Inv(d) && (d.state.CancelRequested? || d.state.DeleteRequested?) && problem != NoProblem
    ensures Good(d, CleanupProblem(d, problem))
  {
  }

  lemma {:induction false} CloudFailureGood(claimed: Download, d: Download, failure: Failure, op: Operation, later: int)
    requires Observed(claimed, d) && Active(d.state)
    ensures Good(claimed, CloudFailure(d, failure, op, later))
  {
    if RetryObservation(failure, op) {
      RetryGood(claimed, d, CloudProblem(failure, op), later);
    } else {
      FailGood(claimed, d, CloudProblem(failure, op));
    }
  }

  lemma {:induction false} CleanupFailureGood(d: Download, failure: Failure, later: int)
    requires Inv(d) && (d.state.CancelRequested? || d.state.DeleteRequested?)
    ensures Good(d, CleanupFailure(d, failure, later))
  {
  }

  lemma {:induction false} LocalFailureGood(d: Download, kind: FsKind, later: int)
    requires Inv(d) && Active(d.state) && RequiresCloudResult(d.state)
    ensures Good(d, LocalFailure(d, kind, later))
  {
  }

  // ---- What is recorded before the state changes -----------------------------------------------

  lemma {:induction false} TaskPlacesValid(d: Download, task: OfflineTask)
    requires Inv(d) && ValidOfflineTask(d, task)
    ensures ValidIdentity(RecordOffline(d, task).id)
              && ValidPlaces(RecordOffline(d, task).id, RecordOffline(d, task).places)
    ensures task.state.TaskFinished? ==> RecordOffline(d, task).places.cloudResult != ""
  {
  }

  lemma {:induction false} OfflineRecorded(claimed: Download, d: Download, task: OfflineTask)
    requires Observed(claimed, d) && (d.state.SubmittingOffline? || d.state.WaitingOffline?)
    requires ValidOfflineTask(d, task)
    ensures Observed(claimed, RecordOffline(d, task))
  {
    TaskPlacesValid(d, task);
  }

  lemma {:induction false} OfflineFinishedRecorded(claimed: Download, d: Download, task: OfflineTask)
    requires Observed(claimed, d) && (d.state.SubmittingOffline? || d.state.WaitingOffline?)
    requires ValidOfflineTask(d, task) && task.state.TaskFinished?
    ensures Observed(claimed, OfflineDone(RecordOffline(d, task))) && RecordOffline(d, task).places.cloudResult != ""
  {
    TaskPlacesValid(d, task);
    OfflineRecorded(claimed, d, task);
  }

  lemma {:induction false} CopyRecorded(d: Download, task: CopyTask, now: int)
    requires Inv(d) && (d.state.SubmittingCopy? || d.state.WaitingCopy?) && d.places.copySource != ""
              && d.places.destination != ""
    requires Progress(task.progress) && !task.state.TaskOther?
    ensures Observed(d, RecordCopy(d, task)) && Observed(d, RecordCopyCompleted(RecordCopy(d, task), now))
    ensures RecordCopyCompleted(RecordCopy(d, task), now).places == d.places
  {
  }

  lemma {:induction false} VerifiedRecorded(d: Download, w: World)
    requires Inv(d) && Believable(d, w) && (d.state.WaitingCopy? || d.state.VerifyingLocal?) && w.verification.Verified?
    ensures Observed(d, RecordVerified(d, w.verification))
    ensures Observed(d, RecordCopyCompleted(RecordVerified(d, w.verification), w.now))
  {
  }

  // ---- Phase by phase --------------------------------------------------------------------------

  lemma {:induction false} OfflineEnsuredGood(cfg: Config, claimed: Download, d: Download, task: OfflineTask, now: int)
    requires Observed(claimed, d) && d.state.SubmittingOffline? && ValidOfflineTask(d, task)
    ensures Good(claimed, OfflineEnsured(cfg, RecordOffline(d, task), task.state, now))
  {
    OfflineRecorded(claimed, d, task);
    if task.state.TaskFinished? {
      OfflineFinishedRecorded(claimed, d, task);
      AdvanceGood(claimed, OfflineDone(RecordOffline(d, task)), SubmittingCopy, now, now);
    } else if task.state.TaskError? {
      FailGood(claimed, RecordOffline(d, task), OfflineDownloadFailed);
    } else {
      AdvanceGood(claimed, RecordOffline(d, task), WaitingOffline, now, now + cfg.poll);
    }
  }

  lemma {:induction false} OfflineSeenGood(cfg: Config, d: Download, task: OfflineTask, now: int)
    requires Inv(d) && d.state.WaitingOffline? && ValidOfflineTask(d, task)
    ensures Good(d, OfflineSeen(cfg, RecordOffline(d, task), task, now))
  {
    OfflineRecorded(d, d, task);
    if task.state.TaskFinished? {
      OfflineFinishedRecorded(d, d, task);
      AdvanceGood(d, OfflineDone(RecordOffline(d, task)), SubmittingCopy, now, now);
      FailGood(d, RecordOffline(d, task), CloudResponseInvalid);
    } else if task.state.TaskError? {
      FailGood(d, RecordOffline(d, task), OfflineDownloadFailed);
    } else {
      AgainGood(d, RecordOffline(d, task), now + cfg.poll);
    }
  }

  lemma {:induction false} EnsureOfflineGood(cfg: Config, d: Download, w: World)
    requires Inv(d) && d.state.SubmittingOffline?
    ensures GoodDecision(d, EnsureOffline(cfg, d, w))
  {
    var begun := if d.times.offlineStarted.None? then d.(times := d.times.(offlineStarted := Some(w.later))) else d;
    match w.offlineEnsured
    case Err(failure) => CloudFailureGood(d, begun, failure, OtherOperation, w.later);
    case Ok(task) =>
      if ValidOfflineTask(d, task) {
        OfflineEnsuredGood(cfg, d, begun, task, w.now);
      } else {
        FailGood(d, begun, CloudResponseInvalid);
      }
  }

  lemma {:induction false} SubmitOfflineGood(cfg: Config, d: Download, w: World)
    requires Inv(d) && d.state.SubmittingOffline?
    ensures GoodDecision(d, SubmitOffline(cfg, d, w))
  {
    if TimedOut(d, w.now, cfg.offlineTimeout) {
      DeadlineGood(d, OfflineTimeout);
    } else if d.status.Is(OfflineError) {
      match w.offlineCancelled
      case Err(failure) => CloudFailureGood(d, d, failure, OtherOperation, w.later);
      case Ok(_) => AgainGood(d, d.(shares := d.shares.(offline := 0.0, qbit := 0.0), status := Plain(Nothing)), w.now);
    } else {
      EnsureOfflineGood(cfg, d, w);
    }
  }

  lemma {:induction false} WaitOfflineGood(cfg: Config, d: Download, w: World)
    requires Inv(d) && d.state.WaitingOffline?
    ensures GoodDecision(d, WaitOffline(cfg, d, w))
  {
    if TimedOut(d, w.now, cfg.offlineTimeout) {
      DeadlineGood(d, OfflineTimeout);
      return;
    }
    match w.offlineSeen
    case Err(failure) => CloudFailureGood(d, d, failure, OtherOperation, w.later);
    case Ok(None) => AgainGood(d, d, w.now + cfg.poll);
    case Ok(Some(task)) =>
      if ValidOfflineTask(d, task) {
        OfflineSeenGood(cfg, d, task, w.now);
      } else {
        FailGood(d, d, CloudResponseInvalid);
      }
  }

  lemma {:induction false} SourceIsAbsolute(d: Download, w: World)
    requires ResolveCopySource(d, w).Resolved? && ValidPlaces(d.id, d.places)
    ensures IsAbs(ResolveCopySource(d, w).path)
  {
  }

  lemma {:induction false} ResolveSourceGood(d: Download, w: World)
    requires Inv(d) && d.state.SubmittingCopy? && d.places.copySource == ""
    ensures GoodDecision(d, ResolveSource(d, w))
  {
    match ResolveCopySource(d, w)
    case LayoutInvalid => FailGood(d, d, CloudContentLayoutInvalid);
    case InspectionFailed(failure) => CloudFailureGood(d, d, failure, CopyOperation, w.later);
    case ResolutionError =>
    case Resolved(path) =>
      SourceIsAbsolute(d, w);
      AgainGood(d, d.(places := d.places.(copySource := path)), w.now);
  }

  lemma {:induction false} ReserveDestinationGood(d: Download, w: World)
    requires Inv(d) && d.state.SubmittingCopy? && d.places.copySource != "" && d.places.destination == ""
    ensures GoodDecision(d, ReserveDestination(d, w))
  {
    var name := Base(Clean(d.places.copySource));
    if !GoodComponent(name) {
      FailGood(d, d, CloudContentLayoutInvalid);
    } else {
      AgainGood(d, d.(places := d.places.(destination := name)), w.now);
    }
  }

  predicate CopyIsSet(d: Download) {
    Inv(d) && d.state.SubmittingCopy? && d.places.copySource != "" && d.places.destination != ""
  }

  /** A marker is put in front of the report and adds no evidence. */
  lemma {:induction false} MarksKeepEvidence(d: Download)
    requires Inv(d)
    ensures CopyEvidence(MarkCopyRemoved(d.status)) ==> CopyEvidence(d.status)
    ensures CopyEvidence(MarkCleanupCancelled(d.status)) ==> CopyEvidence(d.status)
    ensures MarkCopyRemoved(d.status).report.OfflineFinished? ==> d.status.report.OfflineFinished?
    ensures MarkCleanupCancelled(d.status).report.OfflineFinished? ==> d.status.report.OfflineFinished?
    ensures MarkCopyRemoved(d.status).report.RetainedContent? ==> d.status.report.RetainedContent?
    ensures MarkCleanupCancelled(d.status).report.RetainedContent? ==> d.status.report.RetainedContent?
  {
  }

  lemma {:induction false} MarkedIsObserved(d: Download, marked: Download)
    requires Inv(d) && (marked == d.(status := MarkCopyRemoved(d.status))
                        || marked == d.(status := MarkCleanupCancelled(d.status)))
    ensures Observed(d, marked)
  {
    MarksKeepEvidence(d);
  }

  lemma {:induction false} RemoveOldCopyGood(d: Download, w: World)
    requires CopyIsSet(d)
    ensures GoodDecision(d, RemoveOldCopy(d, w))
  {
    match w.copyRemoved
    case Err(failure) => CloudFailureGood(d, d, failure, OtherOperation, w.later);
    case Ok(_) =>
      var undone := d.(shares := CopyUndone(d.shares));
      assert Observed(d, undone);
      MarkedIsObserved(undone, undone.(status := MarkCopyRemoved(d.status)));
      AgainGood(d, d.(shares := CopyUndone(d.shares), status := MarkCopyRemoved(d.status)), w.now);
  }

  /** The only step that gives a legacy row its workspace. */
  lemma {:induction false} DeleteOldCopyGood(d: Download, w: World)
    requires CopyIsSet(d) && MustDeleteCopy(d.status)
    ensures GoodDecision(d, DeleteOldCopy(d, w))
  {
    if !w.localDeleted {
      FailGood(d, d.(attempts := d.attempts + 1), LocalDeleteFailed);
    } else if d.places.workspace == "" && Clean(d.id.savePath) != d.id.savePath {
      FailGood(d, d, InternalWorkflowError);
    }
  }

  lemma {:induction false} PreflightGood(d: Download, w: World)
    requires CopyIsSet(d)
    ensures GoodDecision(d, Preflight(d, w))
  {
    if Prepared(d, w).Some? {
      LocalFailureGood(d, Prepared(d, w).value, w.later);
    } else if w.destinationSeen.Some? {
      LocalFailureGood(d, w.destinationSeen.value, w.later);
    } else if w.destinationExists {
      FailGood(d, d, DestinationCollision);
    } else {
      AgainGood(d, d.(status := Plain(DestinationClear)), w.now);
    }
  }

  lemma {:induction false} CopyEnsuredGood(cfg: Config, d: Download, w: World, task: CopyTask)
    requires CopyIsSet(d) && Prepared(d, w).None? && w.copyEnsured == Ok(task)
    requires ValidCopyTask(task, d.places.copySource, Root(d))
    ensures GoodDecision(d, EnsureCopy(cfg, d, w))
  {
    CopyRecorded(d, task, w.now);
    var seen := RecordCopy(d, task);
    match task.state
    case TaskCompleted => AdvanceGood(d, RecordCopyCompleted(seen, w.now), WaitingCopy, w.now, w.now);
    case TaskFailed => FailGood(d, seen, CopyTaskFailed);
    case _ => AdvanceGood(d, seen, WaitingCopy, w.now, w.now + cfg.poll);
  }

  lemma {:induction false} EnsureCopyGood(cfg: Config, d: Download, w: World)
    requires CopyIsSet(d)
    ensures GoodDecision(d, EnsureCopy(cfg, d, w))
  {
    if Prepared(d, w).Some? {
      LocalFailureGood(d, Prepared(d, w).value, w.later);
      return;
    }
    match w.copyEnsured
    case Err(failure) => CloudFailureGood(d, d, failure, CopyOperation, w.later);
    case Ok(task) =>
      if !ValidCopyTask(task, d.places.copySource, Root(d)) {
        FailGood(d, d, CloudResponseInvalid);
      } else {
        CopyEnsuredGood(cfg, d, w, task);
      }
  }

  lemma {:induction false} SubmitCopyGood(cfg: Config, d: Download, w: World)
    requires Inv(d) && d.state.SubmittingCopy?
    ensures GoodDecision(d, SubmitCopy(cfg, d, w))
  {
    if TimedOut(d, w.now, cfg.copyTimeout) {
      DeadlineGood(d, CopyTimeout);
    } else if d.places.copySource == "" {
      ResolveSourceGood(d, w);
    } else if d.places.destination == "" {
      ReserveDestinationGood(d, w);
    } else if MustRemoveCopy(d.status) {
      RemoveOldCopyGood(d, w);
    } else if MustDeleteCopy(d.status) {
      DeleteOldCopyGood(d, w);
    } else if !d.status.Is(DestinationClear) {
      PreflightGood(d, w);
    } else {
      EnsureCopyGood(cfg, d, w);
    }
  }

  lemma {:induction false} UnseenCopyGood(cfg: Config, d: Download, w: World)
    requires Inv(d) && Believable(d, w) && d.state.WaitingCopy?
    ensures w.verification.Verified? ==>
              Good(d, Advance(RecordCopyCompleted(RecordVerified(d, w.verification), w.now), VerifyingLocal, w.now,
                              w.now))
    ensures Good(d, Poll(cfg, d, w.now))
    ensures w.verification.VerificationFailed? ==> Good(d, LocalFailure(d, w.verification.kind, w.later))
  {
    if w.verification.Verified? {
      VerifiedRecorded(d, w);
      AdvanceGood(d, RecordCopyCompleted(RecordVerified(d, w.verification), w.now), VerifyingLocal, w.now, w.now);
    } else if w.verification.VerificationFailed? {
      LocalFailureGood(d, w.verification.kind, w.later);
    }
    AgainGood(d, d, w.now + cfg.poll);
  }

  lemma {:induction false} SeenCopyGood(cfg: Config, d: Download, task: CopyTask, now: int)
    requires Inv(d) && d.state.WaitingCopy? && Progress(task.progress) && !task.state.TaskOther?
    ensures Good(d, Advance(RecordCopyCompleted(RecordCopy(d, task), now), VerifyingLocal, now, now))
    ensures Good(d, Fail(RecordCopy(d, task), CopyTaskFailed))
    ensures Good(d, Poll(cfg, RecordCopy(d, task), now))
  {
    CopyRecorded(d, task, now);
    var seen := RecordCopy(d, task);
    AdvanceGood(d, RecordCopyCompleted(seen, now), VerifyingLocal, now, now);
    FailGood(d, seen, CopyTaskFailed);
    AgainGood(d, seen, now + cfg.poll);
  }

  lemma {:induction false} WaitCopyGood(cfg: Config, d: Download, w: World)
    requires Inv(d) && Believable(d, w) && d.state.WaitingCopy?
    ensures GoodDecision(d, WaitCopy(cfg, d, w))
  {
    if TimedOut(d, w.now, cfg.copyTimeout) {
      DeadlineGood(d, CopyTimeout);
    } else {
      match w.copySeen
      case Err(failure) => CloudFailureGood(d, d, failure, CopyOperation, w.later);
      case Ok(None) => UnseenCopyGood(cfg, d, w);
      case Ok(Some(task)) =>
        if ValidCopyTask(task, d.places.copySource, Root(d)) {
          SeenCopyGood(cfg, d, task, w.now);
        } else {
          FailGood(d, d, CloudResponseInvalid);
        }
    }
  }

  lemma {:induction false} CompletedGood(d: Download, w: World)
    requires Inv(d) && Believable(d, w) && d.state.VerifyingLocal? && w.verification.Verified?
    ensures Good(d, Rest(RecordVerified(d, w.verification).(shares := Shares(1.0, 1.0, 1.0),
                                                            times := d.times.(completed := Some(w.now))),
                         Completed))
  {
  }

  lemma {:induction false} VerifyLocalGood(cfg: Config, d: Download, w: World)
    requires Inv(d) && Believable(d, w) && d.state.VerifyingLocal?
    ensures GoodDecision(d, VerifyLocal(cfg, d, w))
  {
    if TimedOut(d, w.now, cfg.verifyTimeout) {
      FailGood(d, d, if d.problem.LocalFilesystemUnavailable? then LocalFilesystemUnavailableTimeout
               else LocalVerificationTimeout);
    } else {
      match w.verification
      case Verified(_, _, _) => CompletedGood(d, w);
      case ManifestUnavailable =>
      case ContentMissing => AgainGood(d, d, w.now + cfg.poll);
      case VerificationFailed(kind) => LocalFailureGood(d, kind, w.later);
    }
  }

  lemma {:induction false} CancelGood(d: Download, w: World)
    requires Inv(d) && d.state.CancelRequested?
    ensures GoodDecision(d, Cancel(d, w))
  {
    MarkedIsObserved(d, d.(status := MarkCopyRemoved(d.status)));
    MarkedIsObserved(d, d.(status := MarkCleanupCancelled(d.status)));
    if d.places.copySource != "" {
      match w.copyRemoved
      case Err(failure) => CleanupFailureGood(d, failure, w.later);
      case Ok(_) => RestGood(d, d.(status := MarkCopyRemoved(d.status)), Cancelled);
    } else if w.offlineCancelled.Err? && !Gone(w.offlineCancelled.failure) {
      CleanupFailureGood(d, w.offlineCancelled.failure, w.later);
    } else {
      RestGood(d, d.(status := MarkCleanupCancelled(d.status)), Cancelled);
    }
  }

  /** The branch that would fail the download is out of reach: evidence of a copy comes with a reserved name. */
  lemma {:induction false} PauseCopyGood(d: Download, w: World)
    requires Inv(d) && d.state.CancelRequested? && d.places.copySource != ""
    ensures GoodDecision(d, PauseCopy(d, w))
  {
    var undone := d.(shares := CopyUndone(d.shares), status := Plain(OfflineFinished));
    assert Observed(d, undone);
    RestGood(d, undone, Stopped);
    CleanupProblemGood(d, LocalDeleteFailed);
  }

  lemma {:induction false} PauseGood(d: Download, w: World)
    requires Inv(d) && d.state.CancelRequested?
    ensures GoodDecision(d, Pause(d, w))
  {
    if d.places.content != "" || d.status.Is(CopyCompleted) {
      RestGood(d, d, Stopped);
    } else if d.places.copySource == "" {
      if w.offlineCancelled.Err? && !Gone(w.offlineCancelled.failure) {
        CleanupFailureGood(d, w.offlineCancelled.failure, w.later);
      } else {
        RestGood(d, d.(shares := Shares(0.0, 0.0, 0.0), status := Plain(Nothing)), Stopped);
      }
    } else if !d.status.MarkedFirst(RemovedMark) {
      match w.copyRemoved
      case Err(failure) => CleanupFailureGood(d, failure, w.later);
      case Ok(_) =>
        MarkedIsObserved(d, d.(status := MarkCopyRemoved(d.status)));
        AgainGood(d, d.(status := MarkCopyRemoved(d.status)), w.now);
    } else {
      PauseCopyGood(d, w);
    }
  }

  lemma {:induction false} GravestoneGood(d: Download, w: World)
    requires Inv(d) && d.state.DeleteRequested?
    ensures Good(d, Gravestone(d, w))
  {
  }

  lemma {:induction false} DeleteLocalGood(d: Download, w: World)
    requires Inv(d) && d.state.DeleteRequested?
    ensures GoodDecision(d, DeleteLocal(d, w))
  {
    GravestoneGood(d, w);
    CleanupProblemGood(d, LocalDeleteFailed);
  }

  lemma {:induction false} DeleteGood(d: Download, w: World)
    requires Inv(d) && d.state.DeleteRequested?
    ensures GoodDecision(d, Delete(d, w))
  {
    if d.places.copySource != "" && !d.status.MarkedFirst(RemovedMark) {
      match w.copyRemoved
      case Err(failure) => CleanupFailureGood(d, failure, w.later);
      case Ok(_) =>
        MarkedIsObserved(d, d.(status := MarkCopyRemoved(d.status)));
        AgainGood(d, d.(status := MarkCopyRemoved(d.status)), w.now);
    } else if d.places.copySource == "" && d.times.completed.None? && d.places.content == ""
              && !d.status.MarkedFirst(CancelledMark) {
      if w.offlineCancelled.Err? && !Gone(w.offlineCancelled.failure) {
        CleanupFailureGood(d, w.offlineCancelled.failure, w.later);
        return;
      } else {
        MarkedIsObserved(d, d.(status := MarkCleanupCancelled(d.status)));
        AgainGood(d, d.(status := MarkCleanupCancelled(d.status)), w.now);
        return;
      }
    } else {
      DeleteLocalGood(d, w);
    }
  }

  /** Whatever the cloud and the disk answer, the row a worker proposes passes every check of the store, and keeps
      the invariant. A claimed row never meets the branch for impossible states. */
  lemma {:induction false} DecideIsAccepted(cfg: Config, d: Download, w: World)
    requires Inv(d) && Believable(d, w) && d.nextRun.Some?
    ensures Claimable(d.state)
    ensures GoodDecision(d, Decide(cfg, d, w))
  {
    match d.state
    case Accepted => AdvanceGood(d, d, SubmittingOffline, w.now, w.now);
    case SubmittingOffline => SubmitOfflineGood(cfg, d, w);
    case WaitingOffline => WaitOfflineGood(cfg, d, w);
    case SubmittingCopy => SubmitCopyGood(cfg, d, w);
    case WaitingCopy => WaitCopyGood(cfg, d, w);
    case VerifyingLocal => VerifyLocalGood(cfg, d, w);
    case CancelRequested =>
      PauseGood(d, w);
      CancelGood(d, w);
    case DeleteRequested => DeleteGood(d, w);
    case _ =>
  }
}
