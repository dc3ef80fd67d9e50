/** The life of one row: what operators do to it, what a worker commits to it, and what holds whatever they do
    (internal/store/queries, internal/store/repository.go, internal/submission/service.go, internal/reconcile). */
module Lifecycle {
  import opened Paths
  import opened Domain
  import opened Workflow
  import opened RowInvariant

  // ---- Operator intents ------------------------------------------------------------------------

  function Restarted(d: Download, state: State, now: int): Download {
    d.(state := state, nextRun := Some(now), times := d.times.(phaseStarted := now))
  }

  function StartTarget(d: Download): State {
    if d.places.cloudResult == "" then Accepted
    else if d.places.content != "" || d.status.Is(CopyCompleted) || d.status.Is(RetainedContent) then VerifyingLocal
    else SubmittingCopy
  }

  function Start(d: Download, now: int): Download
    requires d.state.Stopped?
  {
    Restarted(d, StartTarget(d), now).(pause := false)
  }

  /** The retry statement takes its target as an argument; the handlers compute it from a row they read before. A
      destination conflict also forgets the source and the name. */
  function RetryWith(d: Download, target: State, now: int): Download
    requires d.state.Failed?
  {
    var again := Restarted(d, target, now).(problem := NoProblem, attempts := 0);
    if target.SubmittingCopy? && d.problem.DestinationConflict?
    then again.(places := d.places.(copySource := "", destination := ""))
    else again
  }

  function RetryCleanup(d: Download, now: int): Download {
    Restarted(d, d.state, now).(problem := NoProblem, attempts := 0)
  }

  function PauseDownload(d: Download, now: int): Download { Restarted(d, CancelRequested, now).(pause := true) }

  function CancelDownload(d: Download, now: int): Download { Restarted(d, CancelRequested, now).(pause := false) }

  function RequestDelete(d: Download, files: bool, now: int): Download {
    d.(state := DeleteRequested, pause := false, deleteFiles := d.deleteFiles || files, nextRun := Some(now),
       times := d.times.(phaseStarted := now, removed := if d.times.removed.None? then Some(now) else d.times.removed))
  }

  function Reverify(d: Download, now: int): Download {
    d.(state := VerifyingLocal, problem := NoProblem, attempts := 0, nextRun := Some(now),
       times := d.times.(phaseStarted := now, completed := None))
  }

  function MoveSavePath(d: Download, savePath: string): Download {
    d.(id := d.id.(savePath := savePath), places := d.places.(workspace := WorkspacePath(savePath, d.id.hash)))
  }

  /** What operators ask for. A retry carries the row that its handler read. */
  datatype Intent =
    | StartIntent | RetryIntent(seen: Download) | PauseIntent | CancelIntent | DeleteIntent(files: bool)
    | ReverifyIntent | MoveIntent(savePath: string) | RenameIntent(name: string) | ContentIntent(path: string)
    | TouchIntent

  /** Which intents a row admits, as the guarded updates state it. */
  predicate Guarded(d: Download, intent: Intent) {
    match intent
    case StartIntent => d.state.Stopped?
    case RetryIntent(seen) =>
      && CanRetry(seen)
      && if seen.state.Failed? then d.state.Failed? else !d.state.Failed? && CanRetry(d)
    case PauseIntent => Active(d.state)
    case CancelIntent => Active(d.state) || d.state.Stopped?
    case DeleteIntent(files) => !d.state.Deleted? && (!d.state.DeleteRequested? || (files && !d.deleteFiles))
    case ReverifyIntent => d.state.Completed?
    case MoveIntent(savePath) =>
      && (d.state.Stopped? || d.state.Accepted?)
      && d.places.content == "" && d.places.copySource == "" && d.places.cloudResult == ""
      && IsAbs(savePath) && Clean(savePath) == savePath
    case RenameIntent(name) => !d.state.Deleted? && GoodComponent(name)
    case ContentIntent(path) => d.state.Completed? && IsAbs(path) && Clean(path) != Clean(d.id.savePath)
    case TouchIntent => !d.state.Deleted?
  }

  /** The later row still has the paths that the earlier one had. */
  predicate KeepsPaths(seen: Download, d: Download) {
    && (seen.places.cloudResult != "" ==> d.places.cloudResult != "")
    && (seen.places.copySource != "" && seen.places.destination != "" ==>
          d.places.copySource != "" && d.places.destination != "")
  }

  /** The guard holds, and a retry was read from a row whose paths are still recorded. */
  predicate Admits(d: Download, intent: Intent) {
    Guarded(d, intent) && (intent.RetryIntent? ==> Inv(intent.seen) && KeepsPaths(intent.seen, d))
  }

  function Intended(d: Download, intent: Intent, now: int): Download
    requires Guarded(d, intent)
  {
    match intent
    case StartIntent => Start(d, now)
    case RetryIntent(seen) =>
      if seen.state.Failed? then RetryWith(d, RetryTarget(seen), now) else RetryCleanup(d, now)
    case PauseIntent => PauseDownload(d, now)
    case CancelIntent => CancelDownload(d, now)
    case DeleteIntent(files) => RequestDelete(d, files, now)
    case ReverifyIntent => Reverify(d, now)
    case MoveIntent(savePath) => MoveSavePath(d, savePath)
    case RenameIntent(name) => d.(id := d.id.(name := name, nameOverridden := true))
    case ContentIntent(path) => d.(places := d.places.(content := path))
    case TouchIntent => d
  }

  /** The target needs these paths and they are recorded. */
  predicate PathsFor(target: State, d: Download) {
    && (RequiresCloudResult(target) ==> d.places.cloudResult != "")
    && (RequiresCopySource(target) ==> d.places.copySource != "" && d.places.destination != "")
  }

  /** Whatever row a retry target was computed from, applying it to a failed row leaves a row that can run if and only
      if the paths that the target needs are recorded. */
  lemma {:induction false} RetryWithExact(d: Download, target: State, now: int)
    requires Inv(d) && d.state.Failed? && Active(target)
    ensures Inv(RetryWith(d, target, now)) <==> PathsFor(target, d)
  {
    if d.problem.DestinationConflict? {
      return;
    } else {
      return;
    }
  }

  lemma {:induction false} TargetHasPaths(d: Download)
    requires Inv(d) && d.state.Failed?
    ensures CanTransition(Failed, RetryTarget(d)) && Active(RetryTarget(d)) && PathsFor(RetryTarget(d), d)
  {
  }

  /** A retry resumes a phase whose prerequisites are recorded, by a legal transition, also when its target was computed
      from an earlier row, as long as the paths of that row are still recorded. */
  lemma {:induction false} RetryIsRunnable(seen: Download, d: Download, now: int)
    requires Inv(seen) && seen.state.Failed? && Inv(d) && d.state.Failed? && KeepsPaths(seen, d)
    ensures var next := RetryWith(d, RetryTarget(seen), now);
            CanTransition(Failed, next.state) && Claimable(next.state) && Inv(next) && next.nextRun == Some(now)
  {
    TargetHasPaths(seen);
    RetryWithExact(d, RetryTarget(seen), now);
  }

  lemma {:induction false} StartIsRunnable(d: Download, now: int)
    requires Inv(d) && d.state.Stopped?
    ensures CanTransition(Stopped, StartTarget(d)) && Inv(Start(d, now)) && Claimable(Start(d, now).state)
  {
  }

  lemma {:induction false} CleanupIntentGood(d: Download, state: State, pause: bool, now: int)
    requires Inv(d) && state.CancelRequested? && (Active(d.state) || d.state.Stopped?)
    ensures Inv(Restarted(d, state, now).(pause := pause)) && CanTransition(d.state, state)
  {
  }

  lemma {:induction false} RequestDeleteGood(d: Download, files: bool, now: int)
    requires Inv(d) && !d.state.Deleted?
    ensures Inv(RequestDelete(d, files, now))
    ensures !d.state.DeleteRequested? ==> CanTransition(d.state, DeleteRequested)
  {
  }

  lemma {:induction false} RetryCleanupGood(d: Download, now: int)
    requires Inv(d) && CanRetry(d) && !d.state.Failed?
    ensures Inv(RetryCleanup(d, now))
  {
  }

  lemma {:induction false} ReverifyGood(d: Download, now: int)
    requires Inv(d) && d.state.Completed?
    ensures Inv(Reverify(d, now)) && CanTransition(Completed, VerifyingLocal)
  {
  }

  lemma {:induction false} MoveGood(d: Download, savePath: string)
    requires Inv(d) && Admits(d, MoveIntent(savePath))
    ensures Inv(MoveSavePath(d, savePath))
  {
  }

  lemma {:induction false} FieldIntentsGood(d: Download, intent: Intent, now: int)
    requires Inv(d) && Admits(d, intent) && (intent.RenameIntent? || intent.ContentIntent? || intent.TouchIntent?)
    ensures Inv(Intended(d, intent, now))
  {
  }

  /** Every operator intent keeps the invariant and moves along a legal transition. */
  lemma {:induction false} IntentGood(d: Download, intent: Intent, now: int)
    requires Inv(d) && Admits(d, intent)
    ensures Inv(Intended(d, intent, now))
    ensures Intended(d, intent, now).state != d.state ==> CanTransition(d.state, Intended(d, intent, now).state)
  {
    match intent
    case StartIntent => StartIsRunnable(d, now);
    case RetryIntent(seen) =>
      if seen.state.Failed? {
        RetryIsRunnable(seen, d, now);
      } else {
        RetryCleanupGood(d, now);
      }
    case PauseIntent => CleanupIntentGood(d, CancelRequested, true, now);
    case CancelIntent => CleanupIntentGood(d, CancelRequested, false, now);
    case DeleteIntent(files) => RequestDeleteGood(d, files, now);
    case ReverifyIntent => ReverifyGood(d, now);
    case MoveIntent(savePath) => MoveGood(d, savePath);
    case _ => FieldIntentsGood(d, intent, now);
  }

  // ---- Submissions -----------------------------------------------------------------------------

  /** What a new submission brings. A torrent knows its shape, a magnet does not. */
  datatype Request = Request(id: Identity, shape: Shape, stopped: bool)

  predicate ValidRequest(q: Request) {
    && ValidIdentity(q.id) && Clean(q.id.savePath) == q.id.savePath && q.shape.totalSize >= 0
    && (q.id.kind.Torrent? <==> q.shape.multiFile.Some?)
  }

  function NewRow(q: Request, now: int): Download {
    Download(q.id, Places(WorkspacePath(q.id.savePath, q.id.hash), "", "", "", "", ""), q.shape, Shares(0.0, 0.0, 0.0),
             Times(now, None, None, None, None), Accepted, Plain(Nothing), NoProblem, Some(now), 0, false, false)
  }

  /** The deleted row still has verified content that the new submission can take over. */
  predicate Retainable(existing: Download, q: Request) {
    && existing.state.Deleted? && !existing.deleteFiles
    && existing.places.content != "" && existing.places.cloudResult != "" && existing.places.copySource != ""
    && existing.shape.multiFile.Some? && Clean(existing.id.savePath) == Clean(q.id.savePath)
    && existing.places.destination != "" && existing.id.hash == q.id.hash
  }

  /** `found` is what the verifier says about the retained content. */
  function Retained(q: Request, existing: Download, found: Verification, now: int): Download
    requires found.Verified? && Retainable(existing, q)
  {
    var magnet := q.id.kind.Magnet?;
    Download(if magnet && !q.id.nameOverridden then q.id.(name := existing.id.name) else q.id,
             Places(existing.places.workspace, existing.places.destination, existing.places.cloudTask,
                    existing.places.cloudResult, existing.places.copySource, found.path),
             if magnet then Shape(existing.shape.multiFile, found.size) else q.shape,
             Shares(1.0, 1.0, 0.99), Times(now, None, None, None, None),
             VerifyingLocal, Plain(RetainedContent), NoProblem, Some(now), 0, false, false)
  }

  function Submitted(q: Request, existing: Option<Download>, found: Verification, now: int): Download {
    var row := if existing.Some? && Retainable(existing.value, q) && found.Verified?
      && Clean(found.path) == Clean(existing.value.places.content)
               then Retained(q, existing.value, found, now)
               else NewRow(q, now);
    if q.stopped then row.(state := Stopped, nextRun := None) else row
  }

  /** New, revived and taken-over rows start with the invariant. */
  lemma {:induction false} SubmittedGood(q: Request, existing: Option<Download>, found: Verification, now: int)
    requires ValidRequest(q) && (existing.Some? ==> Inv(existing.value))
    requires found.Verified? ==> IsAbs(found.path) && found.size >= 0
    ensures Inv(Submitted(q, existing, found, now))
  {
  }

  // ---- Worker steps ----------------------------------------------------------------------------

  /** What became of a step: committed as proposed, replaced because the operation outlived its lease, replaced because
      another download holds the name it reserved, or lost (a crash, a lost claim, an error). */
  datatype Fate = Committed | Overdue | NameTaken | Lost

  predicate Possible(d: Download, w: World, fate: Fate, decision: Decision) {
    match fate
    case Committed => decision.Propose?
    case Overdue => true
    case NameTaken => decision.Propose? && d.places.destination == "" && decision.download.places.destination != ""
    case Lost => true
  }

  function After(d: Download, w: World, fate: Fate, decision: Decision): Download
    requires Possible(d, w, fate, decision)
  {
    match fate
    case Committed => decision.download
    case Overdue => Retry(d, WorkflowOperationTimeout, w.later)
    case NameTaken => Fail(decision.download.(places := decision.download.places.(destination := "")),
                           DestinationConflict)
    case Lost => d
  }

  lemma {:induction false} NameTakenGood(cfg: Config, d: Download, w: World)
    requires Inv(d) && Believable(d, w) && d.nextRun.Some? && Possible(d, w, NameTaken, Decide(cfg, d, w))
    ensures Good(d, After(d, w, NameTaken, Decide(cfg, d, w)))
  {
    DecideIsAccepted(cfg, d, w);
    OnlyReservingAddsName(cfg, d, w);
  }

  lemma {:induction false} EnsureOfflineKeepsName(cfg: Config, d: Download, w: World)
    ensures EnsureOffline(cfg, d, w).Propose? ==>
              EnsureOffline(cfg, d, w).download.places.destination == d.places.destination
  {
  }

  lemma {:induction false} WaitOfflineKeepsName(cfg: Config, d: Download, w: World)
    ensures WaitOffline(cfg, d, w).Propose? ==>
              WaitOffline(cfg, d, w).download.places.destination == d.places.destination
  {
    if TimedOut(d, w.now, cfg.offlineTimeout) {
      return;
    }
    match w.offlineSeen
    case Err(failure) => return;
    case Ok(None) => return;
    case Ok(Some(task)) => return;
  }

  lemma {:induction false} WaitCopyKeepsName(cfg: Config, d: Download, w: World)
    ensures WaitCopy(cfg, d, w).Propose? ==> WaitCopy(cfg, d, w).download.places.destination == d.places.destination
  {
  }

  lemma {:induction false} OtherPhasesKeepName(cfg: Config, d: Download, w: World)
    requires !d.state.SubmittingCopy? && Decide(cfg, d, w).Propose?
    ensures Decide(cfg, d, w).download.places.destination == d.places.destination
  {
    match d.state
    case SubmittingOffline => EnsureOfflineKeepsName(cfg, d, w);
    case WaitingOffline => WaitOfflineKeepsName(cfg, d, w);
    case WaitingCopy => WaitCopyKeepsName(cfg, d, w);
    case _ => return;
  }

  lemma {:induction false} OnlyReservingAddsName(cfg: Config, d: Download, w: World)
    requires Inv(d) && d.nextRun.Some? && d.places.destination == ""
    requires Decide(cfg, d, w).Propose? && Decide(cfg, d, w).download.places.destination != ""
    ensures d.state.SubmittingCopy? && d.places.copySource != "" && Decide(cfg, d, w) == ReserveDestination(d, w)
    ensures Decide(cfg, d, w).download ==
              Again(d.(places := d.places.(destination := Base(Clean(d.places.copySource)))), w.now)
  {
    if !d.state.SubmittingCopy? {
      OtherPhasesKeepName(cfg, d, w);
    }
  }

  /** Every row that a worker step commits, in whatever way it ends, passes the store's checks and keeps the
      invariant. */
  lemma {:induction false} StepGood(cfg: Config, d: Download, w: World, fate: Fate)
    requires Inv(d) && Believable(d, w) && d.nextRun.Some? && Possible(d, w, fate, Decide(cfg, d, w))
    ensures Inv(After(d, w, fate, Decide(cfg, d, w)))
    ensures fate != Lost ==> CommitAccepts(d, After(d, w, fate, Decide(cfg, d, w)))
  {
    DecideIsAccepted(cfg, d, w);
    match fate
    case Committed =>
    case Overdue => RetryGood(d, d, WorkflowOperationTimeout, w.later);
    case NameTaken => NameTakenGood(cfg, d, w);
    case Lost =>
  }

  // ---- Whole lives -----------------------------------------------------------------------------

  datatype Move =
    | Work(world: World, fate: Fate)
    | Operate(intent: Intent, at: int)
    | Resubmit(request: Request, found: Verification, at: int)

  predicate Enabled(cfg: Config, d: Download, move: Move) {
    match move
    case Work(w, fate) => d.nextRun.Some? && d.nextRun.value <= w.now && Believable(d, w)
      && Possible(d, w, fate, Decide(cfg, d, w))
    case Operate(intent, _) => Guarded(d, intent)
    case Resubmit(q, found, _) =>
      && d.state.Deleted? && ValidRequest(q) && q.id.hash == d.id.hash
      && (found.Verified? ==> IsAbs(found.path) && found.size >= 0)
  }

  function Moved(cfg: Config, d: Download, move: Move): Download
    requires Enabled(cfg, d, move)
  {
    match move
    case Work(w, fate) => After(d, w, fate, Decide(cfg, d, w))
    case Operate(intent, at) => Intended(d, intent, at)
    case Resubmit(q, found, at) => Submitted(q, Some(d), found, at)
  }

  lemma {:induction false} MoveKeepsInv(cfg: Config, d: Download, move: Move)
    requires Inv(d) && Enabled(cfg, d, move) && (move.Operate? ==> Admits(d, move.intent))
    ensures Inv(Moved(cfg, d, move))
  {
    match move
    case Work(w, fate) => StepGood(cfg, d, w, fate);
    case Operate(intent, at) => IntentGood(d, intent, at);
    case Resubmit(q, found, at) => SubmittedGood(q, Some(d), found, at);
  }

  // ---- Paths stay recorded ---------------------------------------------------------------------

  lemma {:induction false} RecordingKeepsPaths(d: Download, begun: Download, task: OfflineTask)
    requires ValidOfflineTask(d, task) && begun.places == d.places
    ensures KeepsPaths(d, RecordOffline(begun, task))
  {
  }

  lemma {:induction false} EnsureOfflineKeepsPaths(cfg: Config, d: Download, w: World)
    ensures EnsureOffline(cfg, d, w).Propose? && KeepsPaths(d, EnsureOffline(cfg, d, w).download)
  {
    var begun := if d.times.offlineStarted.None? then d.(times := d.times.(offlineStarted := Some(w.later))) else d;
    match w.offlineEnsured
    case Err(failure) => return;
    case Ok(task) =>
      if ValidOfflineTask(d, task) {
        RecordingKeepsPaths(d, begun, task);
      }
  }

  lemma {:induction false} OfflineKeepsPaths(cfg: Config, d: Download, w: World)
    ensures SubmitOffline(cfg, d, w).Propose? && KeepsPaths(d, SubmitOffline(cfg, d, w).download)
  {
    if TimedOut(d, w.now, cfg.offlineTimeout) {
      return;
    } else if d.status.Is(OfflineError) {
      match w.offlineCancelled
      case Err(failure) => return;
      case Ok(_) => return;
    } else {
      EnsureOfflineKeepsPaths(cfg, d, w);
    }
  }

  lemma {:induction false} WaitOfflineKeepsPaths(cfg: Config, d: Download, w: World)
    ensures WaitOffline(cfg, d, w).Propose? && KeepsPaths(d, WaitOffline(cfg, d, w).download)
  {
    if TimedOut(d, w.now, cfg.offlineTimeout) {
      return;
    }
    match w.offlineSeen
    case Err(failure) => return;
    case Ok(None) => return;
    case Ok(Some(task)) =>
      if ValidOfflineTask(d, task) {
        RecordingKeepsPaths(d, d, task);
      }
  }

  lemma {:induction false} SubmitCopyKeepsPaths(cfg: Config, d: Download, w: World)
    ensures SubmitCopy(cfg, d, w).Propose? ==> KeepsPaths(d, SubmitCopy(cfg, d, w).download)
  {
    if TimedOut(d, w.now, cfg.copyTimeout) || d.places.cloudResult == "" {
      return;
    } else if d.places.copySource == "" || d.places.destination == "" {
      return;
    } else if MustRemoveCopy(d.status) {
      return;
    } else if MustDeleteCopy(d.status) {
      return;
    } else if !d.status.Is(DestinationClear) {
      return;
    } else {
      EnsureCopyKeepsPaths(cfg, d, w);
    }
  }

  lemma {:induction false} EnsureCopyKeepsPaths(cfg: Config, d: Download, w: World)
    ensures EnsureCopy(cfg, d, w).Propose? && KeepsPaths(d, EnsureCopy(cfg, d, w).download)
    ensures EnsureCopy(cfg, d, w).download.places.destination == d.places.destination
  {
  }

  lemma {:induction false} CleanupKeepsPaths(cfg: Config, d: Download, w: World)
    requires d.state.CancelRequested? || d.state.DeleteRequested?
    ensures Decide(cfg, d, w).Propose? && Decide(cfg, d, w).download.places == d.places
  {
    if d.state.DeleteRequested? {
      return;
    } else if d.pause {
      return;
    } else {
      return;
    }
  }

  lemma {:induction false} LaterPhasesKeepPaths(cfg: Config, d: Download, w: World)
    ensures WaitCopy(cfg, d, w).Propose? ==> KeepsPaths(d, WaitCopy(cfg, d, w).download)
    ensures VerifyLocal(cfg, d, w).Propose? ==> KeepsPaths(d, VerifyLocal(cfg, d, w).download)
  {
  }

  lemma {:induction false} DecideKeepsPaths(cfg: Config, d: Download, w: World)
    requires Decide(cfg, d, w).Propose?
    ensures KeepsPaths(d, Decide(cfg, d, w).download)
  {
    match d.state
    case SubmittingOffline => OfflineKeepsPaths(cfg, d, w);
    case WaitingOffline => WaitOfflineKeepsPaths(cfg, d, w);
    case SubmittingCopy => SubmitCopyKeepsPaths(cfg, d, w);
    case WaitingCopy => LaterPhasesKeepPaths(cfg, d, w);
    case VerifyingLocal => LaterPhasesKeepPaths(cfg, d, w);
    case CancelRequested => CleanupKeepsPaths(cfg, d, w);
    case DeleteRequested => CleanupKeepsPaths(cfg, d, w);
    case _ => return;
  }

  lemma {:induction false} IntentKeepsPaths(d: Download, intent: Intent, now: int)
    requires ProblemsInPhase(d) && Guarded(d, intent)
    ensures KeepsPaths(d, Intended(d, intent, now))
  {
  }

  /** Whatever happens to a row, short of a new submission, its paths stay recorded. */
  lemma {:induction false} MoveKeepsPaths(cfg: Config, d: Download, move: Move)
    requires ProblemsInPhase(d) && Enabled(cfg, d, move) && !move.Resubmit?
    ensures KeepsPaths(d, Moved(cfg, d, move))
  {
    match move
    case Work(w, fate) =>
      if fate.Committed? || fate.NameTaken? {
        DecideKeepsPaths(cfg, d, w);
      }
    case Operate(intent, at) => IntentKeepsPaths(d, intent, at);
  }

  // ---- Lives -----------------------------------------------------------------------------------

  /** The row that a handler read is an earlier one of this life, with no new submission in between. */
  predicate SeenBefore(rows: seq<Download>, moves: seq<Move>, i: nat, seen: Download)
    requires i < |rows| && i <= |moves|
  {
    exists j :: 0 <= j <= i && rows[j] == seen && forall k :: j <= k < i ==> !moves[k].Resubmit?
  }

  predicate LifeStep(cfg: Config, rows: seq<Download>, moves: seq<Move>, i: nat)
    requires |rows| == |moves| + 1 && i < |moves|
  {
    && Enabled(cfg, rows[i], moves[i]) && rows[i + 1] == Moved(cfg, rows[i], moves[i])
    && (moves[i].Operate? && moves[i].intent.RetryIntent? ==> SeenBefore(rows, moves, i, moves[i].intent.seen))
  }

  predicate Life(cfg: Config, rows: seq<Download>, moves: seq<Move>) {
    && |rows| == |moves| + 1
    && forall i {:trigger LifeStep(cfg, rows, moves, i)} :: 0 <= i < |moves| ==> LifeStep(cfg, rows, moves, i)
  }

  lemma {:induction false} LifeKeepsPaths(cfg: Config, rows: seq<Download>, moves: seq<Move>, j: nat, i: nat)
    requires Life(cfg, rows, moves) && Inv(rows[0]) && j <= i < |rows|
    requires forall k :: j <= k < i ==> !moves[k].Resubmit?
    ensures KeepsPaths(rows[j], rows[i])
    decreases i, 1
  {
    if j < i {
      LifeKeepsPaths(cfg, rows, moves, j, i - 1);
      LifeKeepsInv(cfg, rows, moves, i - 1);
      assert LifeStep(cfg, rows, moves, i - 1);
      MoveKeepsPaths(cfg, rows[i - 1], moves[i - 1]);
    }
  }

  lemma {:induction false} SeenIsKept(cfg: Config, rows: seq<Download>, moves: seq<Move>, i: nat, seen: Download)
    requires Life(cfg, rows, moves) && Inv(rows[0]) && i < |rows| && SeenBefore(rows, moves, i, seen)
    ensures Inv(seen) && KeepsPaths(seen, rows[i])
    decreases i, 2
  {
    var j :| 0 <= j <= i && rows[j] == seen && forall k :: j <= k < i ==> !moves[k].Resubmit?;
    LifeKeepsInv(cfg, rows, moves, j);
    LifeKeepsPaths(cfg, rows, moves, j, i);
  }

  lemma {:induction false} StepAdmits(cfg: Config, rows: seq<Download>, moves: seq<Move>, i: nat)
    requires Life(cfg, rows, moves) && Inv(rows[0]) && i < |moves| && moves[i].Operate?
    ensures Admits(rows[i], moves[i].intent)
    decreases i, 3
  {
    assert LifeStep(cfg, rows, moves, i);
    if moves[i].intent.RetryIntent? {
      SeenIsKept(cfg, rows, moves, i, moves[i].intent.seen);
    }
  }

  lemma {:induction false} StepKeepsInv(cfg: Config, rows: seq<Download>, moves: seq<Move>, i: nat)
    requires Life(cfg, rows, moves) && i < |moves| && Inv(rows[i])
    requires moves[i].Operate? ==> Admits(rows[i], moves[i].intent)
    ensures Inv(rows[i + 1])
  {
    assert LifeStep(cfg, rows, moves, i);
    MoveKeepsInv(cfg, rows[i], moves[i]);
  }

  lemma {:induction false} LifeKeepsInv(cfg: Config, rows: seq<Download>, moves: seq<Move>, i: nat)
    requires Life(cfg, rows, moves) && Inv(rows[0]) && i < |rows|
    ensures Inv(rows[i])
    decreases i, 0
  {
    if i > 0 {
      LifeKeepsInv(cfg, rows, moves, i - 1);
      if moves[i - 1].Operate? {
        StepAdmits(cfg, rows, moves, i - 1);
      }
      StepKeepsInv(cfg, rows, moves, i - 1);
    }
  }

  /** In every life that begins with a submission, no claim meets an unclaimable state, nothing a worker proposes is
      refused, a failed row can be retried, also by a handler that read an earlier failed row since the last submission,
      and a row that nobody will run is at rest or waits for an operator. */
  lemma {:induction false} LifeIsSound(cfg: Config, q: Request, at: int, rows: seq<Download>, moves: seq<Move>, i: nat)
    requires ValidRequest(q) && Life(cfg, rows, moves) && rows[0] == Submitted(q, None, ContentMissing, at)
              && i < |rows|
    ensures rows[i].nextRun.Some? ==> Claimable(rows[i].state)
    ensures rows[i].nextRun.None? ==>
              || rows[i].state in {Stopped, Completed, Failed, Cancelled, Deleted}
              || (rows[i].state in {CancelRequested, DeleteRequested} && CanRetry(rows[i]))
    ensures forall seen :: SeenBefore(rows, moves, i, seen) && seen.state.Failed? && rows[i].state.Failed? ==>
              CanTransition(Failed, RetryTarget(seen)) && Inv(RetryWith(rows[i], RetryTarget(seen), at))
    ensures i < |moves| && moves[i].Work? && moves[i].fate != Lost ==> CommitAccepts(rows[i], rows[i + 1])
  {
    SubmittedGood(q, None, ContentMissing, at);
    LifeKeepsInv(cfg, rows, moves, i);
    forall seen | SeenBefore(rows, moves, i, seen) && seen.state.Failed? && rows[i].state.Failed?
      ensures CanTransition(Failed, RetryTarget(seen)) && Inv(RetryWith(rows[i], RetryTarget(seen), at))
    {
      SeenIsKept(cfg, rows, moves, i, seen);
      RetryIsRunnable(seen, rows[i], at);
    }
    if i < |moves| && moves[i].Work? {
      assert LifeStep(cfg, rows, moves, i);
      StepGood(cfg, rows[i], moves[i].world, moves[i].fate);
    }
  }

  /** A target that survived a new submission: the handler read a failed copy, the download was deleted and submitted
      again, and failed before the cloud had a result. The statement's guard lets the retry through, and the row it
      writes lacks the result that its state needs. */
  lemma {:induction false} StaleRetryBreaks(q: Request, deleted: Option<Download>, seen: Download, at: int)
    requires ValidRequest(q) && !q.stopped && (deleted.Some? ==> Inv(deleted.value))
    requires Inv(seen) && seen.state.Failed? && RetryTarget(seen).SubmittingCopy?
    ensures var d := Fail(Advance(Submitted(q, deleted, ContentMissing, at), SubmittingOffline, at, at),
                          OfflineTimeout);
            && Inv(d) && Guarded(d, RetryIntent(seen))
            && !ValidDownload(Intended(d, RetryIntent(seen), at))
  {
    SubmittedGood(q, deleted, ContentMissing, at);
  }
}
