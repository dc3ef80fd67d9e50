/** When the cloud and the disk play along, a submitted download is completed with the content that was verified
    (internal/reconcile/reconcile.go). */
module Cooperation {
  import opened Paths
  import opened Domain
  import opened Workflow
  import opened RowInvariant
  import opened Lifecycle

  /** The row after one decision is committed. */
  function Next(cfg: Config, d: Download, w: World): Download {
    var decision := Decide(cfg, d, w);
    if decision.Propose? then decision.download else d
  }

  function Driven(cfg: Config, d: Download, w: World, n: nat): Download {
    if n == 0 then d else Next(cfg, Driven(cfg, d, w, n - 1), w)
  }

  /** The offline task finishes with `task`, `source` is what has to be copied, its place is free, the copy completes
      and the local content verifies. */
  predicate Cooperates(q: Request, w: World, task: OfflineTask, source: string) {
    && w.offlineEnsured == Ok(task) && task.state.TaskFinished?
    && ValidOfflineTask(NewRow(q, w.now), task)
    && IsAbs(source) && GoodComponent(Base(Clean(source)))
    && w.workspacePrepared.None? && w.destinationSeen.None? && !w.destinationExists
    && w.copyEnsured == Ok(CopyTask(Clean(source), Clean(WorkspacePath(q.id.savePath, q.id.hash)), TaskCompleted, 1.0))
    && w.copySeen == Ok(None)
    && w.verification.Verified?
  }

  predicate Resolves(d: Download, w: World, source: string) {
    ResolveCopySource(d, w) == Resolved(source)
  }

  predicate Within(d: Download, q: Request, w: World) {
    && d.times.phaseStarted == w.now && d.places.workspace == WorkspacePath(q.id.savePath, q.id.hash) != ""
    && d.id.savePath == q.id.savePath && d.id.hash == q.id.hash && Clean(d.id.savePath) == d.id.savePath
  }

  lemma {:induction false} OfflineSteps(cfg: Config, q: Request, w: World, task: OfflineTask, source: string)
    requires cfg.Valid() && ValidRequest(q) && Cooperates(q, w, task, source)
    ensures var d := Next(cfg, Next(cfg, NewRow(q, w.now), w), w);
            && d.state.SubmittingCopy? && d.status.Is(OfflineFinished) && Within(d, q, w)
            && d.places.cloudResult == task.source && d.places.copySource == "" && d.places.destination == ""
  {
  }

  lemma {:induction false} ResolveStep(cfg: Config, d: Download, q: Request, w: World, source: string)
    requires cfg.Valid() && Within(d, q, w) && d.state.SubmittingCopy? && d.status.Is(OfflineFinished)
    requires d.places.cloudResult != "" && d.places.copySource == "" && Resolves(d, w, source)
    ensures Next(cfg, d, w) == Again(d.(places := d.places.(copySource := source)), w.now)
  {
  }

  lemma {:induction false} ReserveStep(cfg: Config, d: Download, q: Request, w: World)
    requires cfg.Valid() && Within(d, q, w) && d.state.SubmittingCopy?
    requires d.places.cloudResult != "" && d.places.copySource != "" && d.places.destination == ""
    requires GoodComponent(Base(Clean(d.places.copySource)))
    ensures Next(cfg, d, w) == Again(d.(places := d.places.(destination := Base(Clean(d.places.copySource)))), w.now)
  {
  }

  predicate CopySet(d: Download) {
    d.state.SubmittingCopy? && d.places.cloudResult != "" && d.places.copySource != "" && d.places.destination != ""
  }

  lemma {:induction false} PreflightStep(cfg: Config, d: Download, q: Request, w: World, task: OfflineTask)
    requires cfg.Valid() && Within(d, q, w) && CopySet(d) && d.status.Is(OfflineFinished)
    requires Cooperates(q, w, task, d.places.copySource)
    ensures Next(cfg, d, w) == Again(d.(status := Plain(DestinationClear)), w.now)
  {
  }

  lemma {:induction false} CopyStep(cfg: Config, d: Download, q: Request, w: World, task: OfflineTask)
    requires cfg.Valid() && Within(d, q, w) && CopySet(d) && d.status.Is(DestinationClear)
    requires Cooperates(q, w, task, d.places.copySource)
    ensures Next(cfg, d, w) == Advance(RecordCopyCompleted(RecordCopy(d, w.copyEnsured.value), w.now), WaitingCopy,
                                       w.now, w.now)
  {
  }

  lemma {:induction false} FinalSteps(cfg: Config, d: Download, q: Request, w: World)
    requires cfg.Valid() && d.times.phaseStarted == w.now && d.state.WaitingCopy?
    requires w.copySeen == Ok(None) && w.verification.Verified?
    ensures var last := Next(cfg, Next(cfg, d, w), w);
            && last.state.Completed? && last.nextRun.None? && last.problem == NoProblem
            && last.places == d.places.(content := w.verification.path) && last.shape.totalSize == w.verification.size
            && last.shares == Shares(1.0, 1.0, 1.0) && last.times.completed == Some(w.now)
  {
  }

  /** Eight committed steps take a new download to COMPLETED, recording where its content is. */
  lemma {:induction false} CooperationCompletes(cfg: Config, q: Request, w: World, task: OfflineTask, source: string)
    requires cfg.Valid() && ValidRequest(q) && Cooperates(q, w, task, source)
    requires Resolves(Driven(cfg, NewRow(q, w.now), w, 2), w, source)
    ensures var last := Driven(cfg, NewRow(q, w.now), w, 8);
            && last.state.Completed? && last.nextRun.None? && last.problem == NoProblem
            && last.places == Places(WorkspacePath(q.id.savePath, q.id.hash), Base(Clean(source)), task.name,
                                     task.source, source, w.verification.path)
            && last.shape.totalSize == w.verification.size && last.times.completed == Some(w.now)
  {
    var d0 := NewRow(q, w.now);
    var d2 := Driven(cfg, d0, w, 2);
    assert d2 == Next(cfg, Next(cfg, d0, w), w) by {
      assert Driven(cfg, d0, w, 1) == Next(cfg, Driven(cfg, d0, w, 0), w);
    }
    OfflineSteps(cfg, q, w, task, source);
    OfflineTaskName(cfg, q, w, task, source);
    ResolveStep(cfg, d2, q, w, source);
    var d3 := Driven(cfg, d0, w, 3);
    ReserveStep(cfg, d3, q, w);
    var d4 := Driven(cfg, d0, w, 4);
    PreflightStep(cfg, d4, q, w, task);
    var d5 := Driven(cfg, d0, w, 5);
    CopyStep(cfg, d5, q, w, task);
    var d6 := Driven(cfg, d0, w, 6);
    FinalSteps(cfg, d6, q, w);
    assert Driven(cfg, d0, w, 7) == Next(cfg, d6, w);
  }

  lemma {:induction false} OfflineTaskName(cfg: Config, q: Request, w: World, task: OfflineTask, source: string)
    requires cfg.Valid() && ValidRequest(q) && Cooperates(q, w, task, source)
    ensures Next(cfg, Next(cfg, NewRow(q, w.now), w), w).places.cloudTask == task.name
  {
  }
}
