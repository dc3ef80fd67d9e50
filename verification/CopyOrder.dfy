/** The order of copy requests, copy removals, preflights and local deletions over a whole life
    (internal/reconcile/reconcile.go). */
module CopyOrder {
  import opened Paths
  import opened Domain
  import opened Workflow
  import opened RowInvariant
  import opened Lifecycle

  /** The cloud copy was removed, and none has been requested since. */
  predicate RemovedSince(h: seq<Effect>, source: string, root: string) {
    exists i :: 0 <= i < |h| && h[i] == CopyRemoved(source, root) && forall j :: i < j < |h| ==> !h[j].CopyRequested?
  }

  /** A preflight found the place empty, and since then nothing was done but to ask for this same copy. */
  predicate EmptySince(h: seq<Effect>, source: string, root: string, destination: string) {
    exists i :: 0 <= i < |h| && h[i] == DestinationSeenEmpty(root, destination)
                && forall j :: i < j < |h| ==> h[j] == CopyRequested(source, root)
  }

  /** States from which a workflow can go on without a new submission. */
  predicate Resumable(s: State) {
    Active(s) || s.Failed? || s.Stopped? || s.Completed?
  }

  /** Outside cleanup a removal marker stands in front of evidence of the copy that was removed. */
  predicate MarkerHasEvidence(d: Download) {
    d.status.MarkedFirst(RemovedMark) && (Resumable(d.state) || (d.state.CancelRequested? && d.places.content != ""))
    ==> CopyEvidence(d.status)
  }

  /** The row may still request a copy with the status it has: it can go on, or is being paused with its content. */
  predicate MayCopy(d: Download) {
    Resumable(d.state) || (d.state.CancelRequested? && d.pause && d.places.content != "")
  }

  /** What the status of a row says about the past. */
  predicate Remembers(d: Download, h: seq<Effect>) {
    && (d.status.MarkedFirst(RemovedMark) ==> RemovedSince(h, d.places.copySource, Root(d)))
    && (d.status.Is(DestinationClear) && MayCopy(d) ==>
          EmptySince(h, d.places.copySource, Root(d), d.places.destination))
  }

  /** What holds of a row and the history of its life. */
  predicate Sound(d: Download, h: seq<Effect>) {
    MarkerHasEvidence(d) && Remembers(d, h)
  }

  /** A copy is requested only into a place that a preflight found empty, since which nothing else was done; local files
      of a copy are deleted only after the cloud copy is gone for good. */
  predicate SafeEffect(d: Download, h: seq<Effect>, e: Effect) {
    match e
    case CopyRequested(source, root) =>
      d.places.copySource == source && Root(d) == root && EmptySince(h, source, root, d.places.destination)
    case LocalDeleted(_) => d.places.copySource != "" ==> RemovedSince(h, d.places.copySource, Root(d))
    case _ => true
  }

  // ---- What one decision can do ----------------------------------------------------------------

  /** Everything in the log asks for the copy of this row. */
  predicate OnlyAsks(d: Download, log: seq<Effect>) {
    forall e :: e in log ==> e == CopyRequested(d.places.copySource, Root(d))
  }

  /** Copies are requested, and local files deleted, only from these statuses; with a clear destination nothing else is
      done. */
  predicate EffectFits(d: Download, e: Effect) {
    && (e.CopyRequested? ==>
          e == CopyRequested(d.places.copySource, Root(d)) && d.status.Is(DestinationClear) && d.state.SubmittingCopy?)
    && (e.LocalDeleted? && d.places.copySource != "" ==> d.status.MarkedFirst(RemovedMark))
    && (d.status.Is(DestinationClear) && MayCopy(d) ==> e == CopyRequested(d.places.copySource, Root(d)))
  }

  lemma {:induction false} WaitsHaveNoEffect(cfg: Config, d: Download, w: World)
    ensures SubmitOffline(cfg, d, w).log == [] && WaitOffline(cfg, d, w).log == []
    ensures WaitCopy(cfg, d, w).log == [] && VerifyLocal(cfg, d, w).log == []
  {
  }

  lemma {:induction false} EffectsNeedStatus(cfg: Config, d: Download, w: World, e: Effect)
    requires e in Decide(cfg, d, w).log
    ensures EffectFits(d, e)
  {
    WaitsHaveNoEffect(cfg, d, w);
    match d.state
    case SubmittingCopy => SubmitCopyEffects(cfg, d, w, e);
    case CancelRequested => return;
    case DeleteRequested => return;
    case _ => return;
  }

  lemma {:induction false} SubmitCopyEffects(cfg: Config, d: Download, w: World, e: Effect)
    requires d.state.SubmittingCopy? && e in SubmitCopy(cfg, d, w).log
    ensures EffectFits(d, e)
  {
    if TimedOut(d, w.now, cfg.copyTimeout) || d.places.cloudResult == "" {
      return;
    } else if d.places.copySource == "" {
      return;
    } else if MustRemoveCopy(d.status) {
      return;
    } else if MustDeleteCopy(d.status) {
      return;
    }
  }

  /** A removal marker on the proposed row comes from a removal in this step, or was there and stays true. */
  predicate MarkerExplained(d: Download, decision: Decision) {
    decision.Propose? && decision.download.status.MarkedFirst(RemovedMark) ==>
      || decision.log == [CopyRemoved(decision.download.places.copySource, Root(decision.download))]
      || (&& d.status.MarkedFirst(RemovedMark) && decision.download.places.copySource == d.places.copySource
          && Root(decision.download) == Root(d))
  }

  /** A clear destination on the proposed row was seen in this step, or was there and is the same place, for which this
      step did nothing but ask for the copy. */
  predicate ClearExplained(d: Download, decision: Decision) {
    decision.Propose? && decision.download.status.Is(DestinationClear) && MayCopy(decision.download) ==>
      || decision.log == [DestinationSeenEmpty(Root(decision.download), decision.download.places.destination)]
      || (&& d.status.Is(DestinationClear) && MayCopy(d)
          && decision.download.places.copySource == d.places.copySource
          && decision.download.places.destination == d.places.destination
          && Root(decision.download) == Root(d)
          && OnlyAsks(d, decision.log))
  }

  predicate Explained(d: Download, decision: Decision) {
    && MarkerExplained(d, decision) && ClearExplained(d, decision)
    && (decision.Propose? ==> MarkerHasEvidence(decision.download))
  }

  /** The step leaves the status and the places of the copy alone. */
  predicate CopyUntouched(d: Download, next: Download) {
    && next.id.savePath == d.id.savePath && next.status == d.status && next.places.workspace == d.places.workspace
    && next.places.copySource == d.places.copySource && next.places.destination == d.places.destination
  }

  predicate PlainStatus(next: Download) {
    next.status.marks == [] && !next.status.report.DestinationClear?
  }

  predicate Simple(d: Download, decision: Decision) {
    decision.Propose? ==>
      (CopyUntouched(d, decision.download) && OnlyAsks(d, decision.log)) || PlainStatus(decision.download)
  }

  lemma {:induction false} SimpleIsExplained(d: Download, decision: Decision)
    requires PathsInOrder(d) && MarkerHasEvidence(d) && Simple(d, decision)
    requires Resumable(d.state)
    ensures Explained(d, decision)
  {
  }

  lemma {:induction false} SubmitOfflineSimple(cfg: Config, d: Download, w: World)
    ensures Simple(d, SubmitOffline(cfg, d, w))
  {
    if TimedOut(d, w.now, cfg.offlineTimeout) {
      return;
    } else if d.status.Is(OfflineError) {
      match w.offlineCancelled
      case Err(failure) => return;
      case Ok(_) => return;
    } else {
      EnsureOfflineSimple(cfg, d, w);
    }
  }

  lemma {:induction false} EnsureOfflineSimple(cfg: Config, d: Download, w: World)
    ensures Simple(d, EnsureOffline(cfg, d, w))
  {
    match w.offlineEnsured
    case Err(failure) => return;
    case Ok(task) => return;
  }

  lemma {:induction false} WaitOfflineSimple(cfg: Config, d: Download, w: World)
    ensures Simple(d, WaitOffline(cfg, d, w))
  {
    if TimedOut(d, w.now, cfg.offlineTimeout) {
      return;
    }
    match w.offlineSeen
    case Err(failure) => return;
    case Ok(None) => return;
    case Ok(Some(task)) => return;
  }

  lemma {:induction false} LocalFailureSimple(d: Download, kind: FsKind, later: int)
    ensures Simple(d, Propose(LocalFailure(d, kind, later), []))
  {
  }

  lemma {:induction false} EnsureCopySimple(cfg: Config, d: Download, w: World)
    ensures Simple(d, EnsureCopy(cfg, d, w))
  {
    if Prepared(d, w).Some? {
      LocalFailureSimple(d, Prepared(d, w).value, w.later);
      return;
    }
    match w.copyEnsured
    case Err(failure) => return;
    case Ok(task) => CopyEnsuredSimple(cfg, d, w, task);
  }

  lemma {:induction false} CopyEnsuredSimple(cfg: Config, d: Download, w: World, task: CopyTask)
    requires Prepared(d, w).None? && w.copyEnsured == Ok(task)
    ensures Simple(d, EnsureCopy(cfg, d, w))
  {
    if !ValidCopyTask(task, d.places.copySource, Root(d)) {
      return;
    } else if task.state.TaskCompleted? {
      return;
    } else if task.state.TaskFailed? {
      return;
    }
  }

  lemma {:induction false} WaitCopySimple(cfg: Config, d: Download, w: World)
    ensures Simple(d, WaitCopy(cfg, d, w))
  {
    if TimedOut(d, w.now, cfg.copyTimeout) {
      return;
    }
    match w.copySeen
    case Err(failure) => return;
    case Ok(None) =>
      match w.verification {
        case VerificationFailed(kind) => LocalFailureSimple(d, kind, w.later);
        case _ => return;
      }
    case Ok(Some(task)) => CopySeenSimple(cfg, d, w, task);
  }

  lemma {:induction false} CopySeenSimple(cfg: Config, d: Download, w: World, task: CopyTask)
    requires !TimedOut(d, w.now, cfg.copyTimeout) && w.copySeen == Ok(Some(task))
    ensures Simple(d, WaitCopy(cfg, d, w))
  {
    if !ValidCopyTask(task, d.places.copySource, Root(d)) {
      return;
    } else if task.state.TaskCompleted? {
      return;
    } else {
      return;
    }
  }

  lemma {:induction false} VerifyLocalSimple(cfg: Config, d: Download, w: World)
    ensures Simple(d, VerifyLocal(cfg, d, w))
  {
  }

  lemma {:induction false} ResolveExplained(d: Download, w: World)
    requires PathsInOrder(d) && MarkerHasEvidence(d) && d.state.SubmittingCopy?
    ensures d.places.copySource == "" ==> Explained(d, ResolveSource(d, w))
    ensures d.places.copySource != "" && d.places.destination == "" ==> Explained(d, ReserveDestination(d, w))
  {
  }

  lemma {:induction false} RemovalExplained(d: Download, w: World)
    requires PathsInOrder(d) && MarkerHasEvidence(d) && d.state.SubmittingCopy? && MustRemoveCopy(d.status)
    ensures Explained(d, RemoveOldCopy(d, w))
  {
  }

  lemma {:induction false} DeletionExplained(d: Download, w: World)
    requires PathsInOrder(d) && MarkerHasEvidence(d) && d.state.SubmittingCopy? && MustDeleteCopy(d.status)
    ensures Explained(d, DeleteOldCopy(d, w))
  {
  }

  lemma {:induction false} ClearedExplained(d: Download, w: World)
    requires d.state.SubmittingCopy?
    ensures Explained(d, Propose(Again(d.(status := Plain(DestinationClear)), w.now),
                                 [DestinationSeenEmpty(Root(d), d.places.destination)]))
  {
  }

  lemma {:induction false} PreflightExplained(d: Download, w: World)
    requires PathsInOrder(d) && MarkerHasEvidence(d) && d.state.SubmittingCopy?
    ensures Explained(d, Preflight(d, w))
  {
    if Prepared(d, w).Some? {
      LocalFailureSimple(d, Prepared(d, w).value, w.later);
      SimpleIsExplained(d, Propose(LocalFailure(d, Prepared(d, w).value, w.later), []));
    } else if w.destinationSeen.Some? {
      LocalFailureSimple(d, w.destinationSeen.value, w.later);
      SimpleIsExplained(d, Propose(LocalFailure(d, w.destinationSeen.value, w.later), []));
    } else if w.destinationExists {
      SimpleIsExplained(d, Propose(Fail(d, DestinationCollision), []));
    } else {
      ClearedExplained(d, w);
    }
  }

  lemma {:induction false} SubmitCopyExplained(cfg: Config, d: Download, w: World)
    requires PathsInOrder(d) && MarkerHasEvidence(d) && d.state.SubmittingCopy?
    ensures Explained(d, SubmitCopy(cfg, d, w))
  {
    if TimedOut(d, w.now, cfg.copyTimeout) {
      SimpleIsExplained(d, SubmitCopy(cfg, d, w));
    } else if d.places.copySource == "" || d.places.destination == "" {
      ResolveExplained(d, w);
    } else if MustRemoveCopy(d.status) {
      RemovalExplained(d, w);
    } else if MustDeleteCopy(d.status) {
      DeletionExplained(d, w);
    } else if !d.status.Is(DestinationClear) {
      PreflightExplained(d, w);
    } else {
      EnsureCopySimple(cfg, d, w);
      SimpleIsExplained(d, EnsureCopy(cfg, d, w));
    }
  }

  lemma {:induction false} CleanupKeeps(d: Download, next: Download, log: seq<Effect>)
    requires PathsInOrder(d) && MarkerHasEvidence(d) && (d.state.CancelRequested? || d.state.DeleteRequested?)
    requires CopyUntouched(d, next) && next.places.content == d.places.content
    requires (next.state == d.state && next.pause == d.pause) || next.state.Deleted?
    requires log == [] || d.state.DeleteRequested? || d.status.MarkedFirst(RemovedMark)
    ensures Explained(d, Propose(next, log))
  {
  }

  lemma {:induction false} CleanupMarks(d: Download, next: Download)
    requires PathsInOrder(d) && (d.state.CancelRequested? || d.state.DeleteRequested?)
    requires next.id == d.id && next.places == d.places
    requires next.state.Cancelled? || next.state.DeleteRequested?
              || (next.state.CancelRequested? && d.places.content == "")
    requires !next.status.Is(DestinationClear)
    ensures next.status == MarkCopyRemoved(d.status) ==>
              Explained(d, Propose(next, [CopyRemoved(d.places.copySource, Root(d))]))
    ensures !next.status.MarkedFirst(RemovedMark) ==> Explained(d, Propose(next, []))
  {
  }

  lemma {:induction false} CancelExplained(d: Download, w: World)
    requires PathsInOrder(d) && MarkerHasEvidence(d) && d.state.CancelRequested?
    ensures Explained(d, Cancel(d, w))
  {
    if d.places.copySource != "" {
      match w.copyRemoved
      case Err(failure) => CleanupKeeps(d, CleanupFailure(d, failure, w.later), []);
      case Ok(_) => CleanupMarks(d, Rest(d.(status := MarkCopyRemoved(d.status)), Cancelled));
    } else if w.offlineCancelled.Err? && !Gone(w.offlineCancelled.failure) {
      CleanupKeeps(d, CleanupFailure(d, w.offlineCancelled.failure, w.later), []);
    } else {
      CleanupMarks(d, Rest(d.(status := MarkCleanupCancelled(d.status)), Cancelled));
    }
  }

  lemma {:induction false} PauseExplained(d: Download, w: World)
    requires PathsInOrder(d) && MarkerHasEvidence(d) && d.state.CancelRequested? && d.pause
    ensures Explained(d, Pause(d, w))
  {
    if d.places.content != "" || d.status.Is(CopyCompleted) {
      assert CopyUntouched(d, Rest(d, Stopped));
    } else if d.places.copySource == "" {
      if w.offlineCancelled.Err? && !Gone(w.offlineCancelled.failure) {
        CleanupKeeps(d, CleanupFailure(d, w.offlineCancelled.failure, w.later), []);
      }
    } else if !d.status.MarkedFirst(RemovedMark) {
      match w.copyRemoved
      case Err(failure) => CleanupKeeps(d, CleanupFailure(d, failure, w.later), []);
      case Ok(_) => CleanupMarks(d, Again(d.(status := MarkCopyRemoved(d.status)), w.now));
    } else {
      CleanupKeeps(d, CleanupProblem(d, LocalDeleteFailed), [LocalDeleted(d.id.hash)]);
    }
  }

  lemma {:induction false} DeleteLocalExplained(d: Download, w: World)
    requires PathsInOrder(d) && MarkerHasEvidence(d) && d.state.DeleteRequested?
    ensures Explained(d, DeleteLocal(d, w))
  {
    CleanupKeeps(d, CleanupProblem(d, LocalDeleteFailed), [LocalDeleted(d.id.hash)]);
    CleanupKeeps(d, Gravestone(d, w), []);
    CleanupKeeps(d, Gravestone(d, w), [LocalDeleted(d.id.hash)]);
  }

  lemma {:induction false} DeleteExplained(d: Download, w: World)
    requires PathsInOrder(d) && MarkerHasEvidence(d) && d.state.DeleteRequested?
    ensures Explained(d, Delete(d, w))
  {
    if d.places.copySource != "" && !d.status.MarkedFirst(RemovedMark) {
      match w.copyRemoved
      case Err(failure) => CleanupKeeps(d, CleanupFailure(d, failure, w.later), []);
      case Ok(_) => CleanupMarks(d, Again(d.(status := MarkCopyRemoved(d.status)), w.now));
    } else if d.places.copySource == "" && d.times.completed.None? && d.places.content == ""
              && !d.status.MarkedFirst(CancelledMark) {
      if w.offlineCancelled.Err? && !Gone(w.offlineCancelled.failure) {
        CleanupKeeps(d, CleanupFailure(d, w.offlineCancelled.failure, w.later), []);
        return;
      } else {
        CleanupMarks(d, Again(d.(status := MarkCleanupCancelled(d.status)), w.now));
        return;
      }
    } else {
      DeleteLocalExplained(d, w);
    }
  }

  lemma {:induction false} DecideExplained(cfg: Config, d: Download, w: World)
    requires PathsInOrder(d) && MarkerHasEvidence(d)
    ensures Explained(d, Decide(cfg, d, w))
  {
    match d.state
    case Accepted => SimpleIsExplained(d, Propose(Advance(d, SubmittingOffline, w.now, w.now), []));
    case SubmittingOffline =>
      SubmitOfflineSimple(cfg, d, w);
      SimpleIsExplained(d, SubmitOffline(cfg, d, w));
    case WaitingOffline =>
      WaitOfflineSimple(cfg, d, w);
      SimpleIsExplained(d, WaitOffline(cfg, d, w));
    case SubmittingCopy => SubmitCopyExplained(cfg, d, w);
    case WaitingCopy =>
      WaitCopySimple(cfg, d, w);
      SimpleIsExplained(d, WaitCopy(cfg, d, w));
    case VerifyingLocal =>
      VerifyLocalSimple(cfg, d, w);
      SimpleIsExplained(d, VerifyLocal(cfg, d, w));
    case CancelRequested =>
      if d.pause {
        PauseExplained(d, w);
      } else {
        CancelExplained(d, w);
      }
    case DeleteRequested => DeleteExplained(d, w);
    case _ =>
  }

  // ---- Histories -------------------------------------------------------------------------------

  lemma {:induction false} RemovedSinceGrows(h: seq<Effect>, log: seq<Effect>, source: string, root: string)
    requires RemovedSince(h, source, root) && forall e :: e in log ==> !e.CopyRequested?
    ensures RemovedSince(h + log, source, root)
  {
    var i :| 0 <= i < |h| && h[i] == CopyRemoved(source, root) && forall j :: i < j < |h| ==> !h[j].CopyRequested?;
    assert (h + log)[i] == CopyRemoved(source, root);
    forall j | i < j < |h + log| ensures !(h + log)[j].CopyRequested? {
      assert j >= |h| ==> (h + log)[j] == log[j - |h|];
    }
  }

  lemma {:induction false} RemovedNow(h: seq<Effect>, source: string, root: string)
    ensures RemovedSince(h + [CopyRemoved(source, root)], source, root)
  {
    assert (h + [CopyRemoved(source, root)])[|h|] == CopyRemoved(source, root);
  }

  lemma {:induction false} EmptySinceGrows(h: seq<Effect>, log: seq<Effect>, d: Download)
    requires EmptySince(h, d.places.copySource, Root(d), d.places.destination) && OnlyAsks(d, log)
    ensures EmptySince(h + log, d.places.copySource, Root(d), d.places.destination)
  {
    var source, root := d.places.copySource, Root(d);
    var i :| 0 <= i < |h| && h[i] == DestinationSeenEmpty(root, d.places.destination)
             && forall j :: i < j < |h| ==> h[j] == CopyRequested(source, root);
    assert (h + log)[i] == h[i];
    forall j | i < j < |h + log| ensures (h + log)[j] == CopyRequested(source, root) {
      if j < |h| {
        assert (h + log)[j] == h[j];
      } else {
        assert (h + log)[j] == log[j - |h|] && log[j - |h|] in log;
      }
    }
  }

  lemma {:induction false} EmptyNow(h: seq<Effect>, source: string, root: string, destination: string)
    ensures EmptySince(h + [DestinationSeenEmpty(root, destination)], source, root, destination)
  {
    assert (h + [DestinationSeenEmpty(root, destination)])[|h|] == DestinationSeenEmpty(root, destination);
  }

  /** What may have happened by the time the step ended: all of it if the step was committed. */
  predicate Happened(decision: Decision, fate: Fate, log: seq<Effect>) {
    log == decision.log || (log == [] && (fate.Lost? || fate.Overdue?))
  }

  lemma {:induction false} ProposalRemembers(cfg: Config, d: Download, w: World, h: seq<Effect>)
    requires PathsInOrder(d) && MarkerHasEvidence(d) && Remembers(d, h) && Decide(cfg, d, w).Propose?
    ensures Remembers(Decide(cfg, d, w).download, h + Decide(cfg, d, w).log)
  {
    var decision := Decide(cfg, d, w);
    var next, log := decision.download, decision.log;
    DecideExplained(cfg, d, w);
    if next.status.MarkedFirst(RemovedMark) {
      if log == [CopyRemoved(next.places.copySource, Root(next))] {
        RemovedNow(h, next.places.copySource, Root(next));
      } else {
        forall e | e in log ensures !e.CopyRequested? {
          EffectsNeedStatus(cfg, d, w, e);
        }
        RemovedSinceGrows(h, log, next.places.copySource, Root(next));
      }
    }
    if next.status.Is(DestinationClear) && MayCopy(next) {
      if log == [DestinationSeenEmpty(Root(next), next.places.destination)] {
        EmptyNow(h, next.places.copySource, Root(next), next.places.destination);
      } else {
        EmptySinceGrows(h, log, d);
      }
    }
  }

  lemma {:induction false} UntouchedRemembers(cfg: Config, d: Download, w: World, next: Download, h: seq<Effect>,
                                              log: seq<Effect>)
    requires Remembers(d, h) && CopyUntouched(d, next) && (log == [] || log == Decide(cfg, d, w).log)
    requires MayCopy(next) ==> MayCopy(d)
    ensures Remembers(next, h + log)
  {
    forall e | e in log ensures EffectFits(d, e) {
      EffectsNeedStatus(cfg, d, w, e);
    }
    if d.status.MarkedFirst(RemovedMark) {
      RemovedSinceGrows(h, log, d.places.copySource, Root(d));
    }
    if d.status.Is(DestinationClear) && MayCopy(d) {
      EmptySinceGrows(h, log, d);
    }
  }

  lemma {:induction false} WorkRemembers(cfg: Config, d: Download, w: World, fate: Fate, h: seq<Effect>,
                                         log: seq<Effect>)
    requires Inv(d) && d.nextRun.Some? && Sound(d, h)
    requires Possible(d, w, fate, Decide(cfg, d, w)) && Happened(Decide(cfg, d, w), fate, log)
    ensures Sound(After(d, w, fate, Decide(cfg, d, w)), h + log)
    ensures forall e :: e in log ==> SafeEffect(d, h, e)
  {
    var decision := Decide(cfg, d, w);
    DecideExplained(cfg, d, w);
    match fate {
      case Committed => ProposalRemembers(cfg, d, w, h);
      case Overdue => UntouchedRemembers(cfg, d, w, Retry(d, WorkflowOperationTimeout, w.later), h, log);
      case NameTaken =>
        OnlyReservingAddsName(cfg, d, w);
        UntouchedRemembers(cfg, d, w, After(d, w, fate, decision), h, log);
      case Lost => UntouchedRemembers(cfg, d, w, d, h, log);
    }
    forall e | e in log ensures SafeEffect(d, h, e) {
      EffectsNeedStatus(cfg, d, w, e);
    }
  }

  lemma {:induction false} IntentRemembers(d: Download, intent: Intent, now: int, h: seq<Effect>)
    requires PathsInOrder(d) && ProblemsInPhase(d) && Scheduled(d) && Sound(d, h) && Guarded(d, intent)
    ensures Sound(Intended(d, intent, now), h)
  {
    var next := Intended(d, intent, now);
    match intent
    case RetryIntent(seen) =>
      if d.state.Failed? && d.problem.DestinationConflict? {
        assert !CopyEvidence(d.status);
      }
    case MoveIntent(savePath) => assert !CopyEvidence(d.status);
    case _ =>
  }

  function History(logs: seq<seq<Effect>>, n: nat): seq<Effect>
    requires n <= |logs|
  {
    if n == 0 then [] else History(logs, n - 1) + logs[n - 1]
  }

  predicate RecordedStep(cfg: Config, d: Download, move: Move, log: seq<Effect>) {
    if move.Work? then Happened(Decide(cfg, d, move.world), move.fate, log) else log == []
  }

  predicate RecordedAt(cfg: Config, rows: seq<Download>, moves: seq<Move>, logs: seq<seq<Effect>>, i: nat)
    requires |rows| == |moves| + 1 && |logs| == |moves| && i < |moves|
  {
    RecordedStep(cfg, rows[i], moves[i], logs[i])
  }

  /** A life, with what each worker step did to the cloud and the disk. */
  predicate Recorded(cfg: Config, rows: seq<Download>, moves: seq<Move>, logs: seq<seq<Effect>>) {
    && Life(cfg, rows, moves) && |logs| == |moves|
    && forall i {:trigger RecordedAt(cfg, rows, moves, logs, i)} :: 0 <= i < |moves| ==>
         RecordedAt(cfg, rows, moves, logs, i)
  }

  lemma {:induction false} SubmittedRemembers(q: Request, existing: Option<Download>, found: Verification, at: int,
                                              h: seq<Effect>)
    ensures Sound(Submitted(q, existing, found, at), h)
  {
  }

  lemma {:induction false} MoveRemembers(cfg: Config, d: Download, move: Move, h: seq<Effect>, log: seq<Effect>)
    requires Inv(d) && Enabled(cfg, d, move) && Sound(d, h) && RecordedStep(cfg, d, move, log)
    ensures Sound(Moved(cfg, d, move), h + log)
  {
    match move
    case Work(w, fate) => WorkRemembers(cfg, d, w, fate, h, log);
    case Operate(intent, at) =>
      IntentRemembers(d, intent, at, h);
      assert h + log == h;
    case Resubmit(q, found, at) => SubmittedRemembers(q, Some(d), found, at, h + log);
  }

  lemma {:induction false} StepRemembers(cfg: Config, rows: seq<Download>, moves: seq<Move>, logs: seq<seq<Effect>>,
                                         i: nat, h: seq<Effect>)
    requires Recorded(cfg, rows, moves, logs) && i < |moves| && Inv(rows[i]) && Sound(rows[i], h)
    ensures Sound(rows[i + 1], h + logs[i])
    ensures forall e :: e in logs[i] ==> SafeEffect(rows[i], h, e)
  {
    assert LifeStep(cfg, rows, moves, i) && RecordedAt(cfg, rows, moves, logs, i);
    MoveRemembers(cfg, rows[i], moves[i], h, logs[i]);
    if moves[i].Work? {
      WorkRemembers(cfg, rows[i], moves[i].world, moves[i].fate, h, logs[i]);
    }
  }

  lemma {:induction false} LifeRemembers(cfg: Config, rows: seq<Download>, moves: seq<Move>, logs: seq<seq<Effect>>,
                                         i: nat)
    requires Recorded(cfg, rows, moves, logs) && i < |rows| && Inv(rows[0]) && Sound(rows[0], [])
    ensures Sound(rows[i], History(logs, i))
  {
    if i > 0 {
      LifeKeepsInv(cfg, rows, moves, i - 1);
      LifeRemembers(cfg, rows, moves, logs, i - 1);
      StepRemembers(cfg, rows, moves, logs, i - 1, History(logs, i - 1));
    }
  }

  /** Over a whole life, with crashes and lost commits, every copy is requested into a place that a preflight found
      empty, and while a copy source is recorded every local deletion follows a removal of that copy from the cloud
      after which no copy was requested. */
  lemma {:induction false} CopiesAreOrdered(cfg: Config, q: Request, at: int, rows: seq<Download>, moves: seq<Move>,
                                            logs: seq<seq<Effect>>, i: nat, e: Effect)
    requires ValidRequest(q) && Recorded(cfg, rows, moves, logs) && rows[0] == Submitted(q, None, ContentMissing, at)
    requires i < |moves| && e in logs[i]
    ensures SafeEffect(rows[i], History(logs, i), e)
  {
    SubmittedGood(q, None, ContentMissing, at);
    SubmittedRemembers(q, None, ContentMissing, at, []);
    LifeKeepsInv(cfg, rows, moves, i);
    LifeRemembers(cfg, rows, moves, logs, i);
    StepRemembers(cfg, rows, moves, logs, i, History(logs, i));
  }
}
