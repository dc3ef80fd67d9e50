/** One step of the download workflow as a function of the row and of what the cloud and the local disk answer
    (internal/reconcile/reconcile.go). */
module Workflow {
  import opened Paths
  import opened Domain
  import opened Manifests

  datatype Config = Config(poll: int, offlineTimeout: int, copyTimeout: int, verifyTimeout: int) {
    predicate Valid() { poll > 0 && offlineTimeout > 0 && copyTimeout > 0 && verifyTimeout > 0 }
  }

  // ---- What the environment answers ------------------------------------------------------------

  datatype Kind = Temporary | Unauthorized | NotFound | Rejected | InvalidInput | InvalidResponse | Unclassified

  /** The remote call that failed, as far as the classification looks at it. */
  datatype Call = CreateFolder | AddOffline | OtherCall

  /** `gone` says that the wrapped transport status is not-found. */
  datatype Failure = CloudError(kind: Kind, call: Call, gone: bool) | ContextEnded | ForeignError(gone: bool)

  datatype Reply<+T> = Ok(value: T) | Err(failure: Failure)

  datatype OfflineState = TaskInit | TaskDownloading | TaskFinished | TaskError | TaskUnknown
  datatype OfflineTask = OfflineTask(infoHash: string, name: string, source: string, state: OfflineState,
                                     progress: real, size: int)

  datatype CopyState = TaskPending | TaskScanning | TaskScanned | TaskCompleted | TaskFailed | TaskOther
  datatype CopyTask = CopyTask(source: string, destination: string, state: CopyState, progress: real)

  datatype FsKind = PermissionDenied | UnsafePath | WrongLayout | MissingPath | Transient

  datatype Verification =
    | Verified(path: string, size: int, multiFile: bool)
    | ManifestUnavailable
    | ContentMissing
    | VerificationFailed(kind: FsKind)

  datatype Content = Content(directory: bool, size: int)

  datatype Resolution = Resolved(path: string) | LayoutInvalid | InspectionFailed(failure: Failure) | ResolutionError

  /** Every answer a step could ask for. `later` is a second look at the clock. */
  datatype World = World(
    now: int, later: int,
    manifest: Option<seq<ManifestFile>>, contentSeen: Reply<Content>, childSeen: Reply<Content>,
    offlineEnsured: Reply<OfflineTask>, offlineSeen: Reply<Option<OfflineTask>>, offlineCancelled: Reply<()>,
    copyEnsured: Reply<CopyTask>, copySeen: Reply<Option<CopyTask>>, copyRemoved: Reply<()>,
    workspacePrepared: Option<FsKind>, destinationSeen: Option<FsKind>, destinationExists: bool,
    verification: Verification, localDeleted: bool)

  /** What a step did to the cloud or the disk, or saw there, as far as the order of these matters. */
  datatype Effect =
    | CopyRequested(source: string, root: string)
    | CopyRemoved(source: string, root: string)
    | DestinationSeenEmpty(root: string, destination: string)
    | LocalDeleted(hash: string)

  datatype Decision = Propose(download: Download, log: seq<Effect>) | Halt(log: seq<Effect>)

  // ---- Answers the code accepts ----------------------------------------------------------------

  function Base(p: string): string {
    if p == "/" then "/" else var parts := Split(p); parts[|parts| - 1]
  }

  predicate SafeCloudPath(p: string) {
    IsAbs(p) && Clean(p) == p && forall c :: c in p ==> c != '\\' && !IsControl(c)
  }

  predicate CloudDescendant(folder: string, source: string) {
    var f, s := Clean(folder), Clean(source);
    if f == "/" then s != "/" && IsAbs(s) else f + "/" <= s
  }

  predicate ValidOfflineTask(d: Download, task: OfflineTask) {
    && !task.state.TaskUnknown?
    && task.infoHash == d.id.hash && Progress(task.progress) && task.size >= 0
    && (task.name == "" ==> task.source == "" && task.state.TaskInit?)
    && (task.name != "" ==> GoodComponent(task.name) && SafeCloudPath(task.source) && Base(task.source) == task.name
                            && CloudDescendant(d.id.cloudFolder, task.source))
  }

  predicate ValidCopyTask(task: CopyTask, source: string, root: string) {
    task.source == Clean(source) && task.destination == Clean(root) && Progress(task.progress) && !task.state.TaskOther?
  }

  // ---- Updates every phase shares --------------------------------------------------------------

  function Root(d: Download): string {
    if d.places.workspace != "" then d.places.workspace else d.id.savePath
  }

  predicate TimedOut(d: Download, now: int, limit: int) {
    now - d.times.phaseStarted >= limit
  }

  function Backoff(attempt: int): (wait: int)
    ensures 30 <= wait <= 300
  {
    if attempt <= 1 then 30 else if attempt == 2 then 60 else if attempt == 3 then 120 else if attempt == 4 then 240
    else 300
  }

  function Advance(d: Download, state: State, now: int, due: int): Download {
    d.(state := state, problem := NoProblem, attempts := 0, nextRun := Some(due),
       times := d.times.(phaseStarted := now))
  }

  function Again(d: Download, now: int): Download {
    d.(problem := NoProblem, attempts := 0, nextRun := Some(now))
  }

  function Poll(cfg: Config, d: Download, now: int): Download {
    Again(d, now + cfg.poll)
  }

  function Fail(d: Download, problem: Problem): Download {
    d.(state := Failed, problem := problem, nextRun := None)
  }

  function Retry(d: Download, problem: Problem, later: int): Download {
    d.(attempts := d.attempts + 1, problem := problem, nextRun := Some(later + Backoff(d.attempts + 1)))
  }

  function CleanupProblem(d: Download, problem: Problem): Download {
    d.(attempts := d.attempts + 1, problem := problem, nextRun := None)
  }

  function Rest(d: Download, state: State): Download {
    d.(state := state, problem := NoProblem, attempts := 0, nextRun := None)
  }

  function DeadlineProblem(d: Download, fallback: Problem): Problem {
    match d.problem
    case CloudCopyNotReady => if fallback.CopyTimeout? then CloudCopyNotReadyTimeout else fallback
    case CloudAuthenticationRequired => CloudAuthenticationTimeout
    case CloudUnreachable => CloudUnreachableTimeout
    case LocalFilesystemUnavailable => LocalFilesystemUnavailableTimeout
    case _ => fallback
  }

  /** Copy submission, copy inspection and content inspection share a classification. */
  datatype Operation = CopyOperation | OtherOperation

  function CloudProblem(failure: Failure, op: Operation): Problem {
    match failure
    case ContextEnded => CloudUnreachable
    case ForeignError(_) => CloudResponseInvalid
    case CloudError(kind, call, _) =>
      match kind
      case Temporary => CloudUnreachable
      case Unauthorized => CloudAuthenticationRequired
      case NotFound => if op.CopyOperation? then CloudCopyNotReady else CloudFolderUnavailable
      case Rejected =>
        if op.CopyOperation? then CloudCopyNotReady
        else (match call
              case CreateFolder => CloudFolderUnavailable
              case AddOffline => OfflineSubmissionRejected
              case OtherCall => CloudRequestRejected)
      case InvalidInput => InternalWorkflowError
      case InvalidResponse => CloudResponseInvalid
      case Unclassified => InternalWorkflowError
  }

  predicate RetryObservation(failure: Failure, op: Operation) {
    match failure
    case ContextEnded => true
    case ForeignError(_) => false
    case CloudError(kind, _, _) =>
      kind.Temporary? || kind.Unauthorized? || ((kind.NotFound? || kind.Rejected?) && op.CopyOperation?)
  }

  predicate Gone(failure: Failure) {
    match failure
    case ContextEnded => false
    case ForeignError(gone) => gone
    case CloudError(_, _, gone) => gone
  }

  function CloudFailure(d: Download, failure: Failure, op: Operation, later: int): Download {
    if RetryObservation(failure, op) then Retry(d, CloudProblem(failure, op), later)
    else Fail(d, CloudProblem(failure, op))
  }

  function CleanupFailure(d: Download, failure: Failure, later: int): Download {
    if RetryObservation(failure, OtherOperation) then Retry(d, CloudProblem(failure, OtherOperation), later)
    else CleanupProblem(d, CloudProblem(failure, OtherOperation))
  }

  /** A missing workspace is transient, and so is a missing path wherever it is not the expected content. */
  function LocalFailure(d: Download, kind: FsKind, later: int): Download {
    match kind
    case PermissionDenied => Fail(d, LocalPermissionDenied)
    case UnsafePath => Fail(d, LocalPathUnsafe)
    case WrongLayout => Fail(d, LocalContentLayoutInvalid)
    case MissingPath => Retry(d, LocalFilesystemUnavailable, later)
    case Transient => Retry(d, LocalFilesystemUnavailable, later)
  }

  function MarkCleanupCancelled(status: Status): Status {
    if status.MarkedFirst(CancelledMark) then status else Status([CancelledMark] + status.marks, status.report)
  }

  function MarkCopyRemoved(status: Status): Status {
    if status.MarkedFirst(RemovedMark) then status
    else
      var rest := status.Trimmed(CancelledMark);
      if rest == Status([], Nothing) || rest == Status([CancelledMark], Nothing) then Status([RemovedMark], Nothing)
      else Status([RemovedMark] + rest.marks, rest.report)
  }

  // ---- The offline phases ----------------------------------------------------------------------

  function OfflineReported(state: OfflineState): Report
    requires !state.TaskUnknown?
  {
    match state
    case TaskInit => OfflineInit
    case TaskDownloading => OfflineDownloading
    case TaskFinished => OfflineFinished
    case TaskError => OfflineError
  }

  function RecordOffline(d: Download, task: OfflineTask): Download
    requires !task.state.TaskUnknown?
  {
    var done := task.state.TaskFinished?;
    d.(status := Plain(OfflineReported(task.state)),
       shares := d.shares.(offline := task.progress, qbit := 0.9 * task.progress),
       places := if done then d.places.(cloudTask := task.name, cloudResult := task.source) else d.places,
       id := if done && d.id.kind.Magnet? && !d.id.nameOverridden then d.id.(name := task.name) else d.id,
       shape := if d.id.kind.Magnet? && d.shape.totalSize == 0 && task.size > 0
                then d.shape.(totalSize := task.size) else d.shape)
  }

  function OfflineDone(d: Download): Download {
    d.(shares := d.shares.(offline := 1.0, qbit := 0.9))
  }

  /** The next phase, or the end, after the offline task was submitted and recorded. */
  function OfflineEnsured(cfg: Config, seen: Download, state: OfflineState, now: int): Download {
    match state
    case TaskFinished => Advance(OfflineDone(seen), SubmittingCopy, now, now)
    case TaskError => Fail(seen, OfflineDownloadFailed)
    case _ => Advance(seen, WaitingOffline, now, now + cfg.poll)
  }

  function EnsureOffline(cfg: Config, d: Download, w: World): Decision {
    var begun := if d.times.offlineStarted.None? then d.(times := d.times.(offlineStarted := Some(w.later))) else d;
    match w.offlineEnsured
    case Err(failure) => Propose(CloudFailure(begun, failure, OtherOperation, w.later), [])
    case Ok(task) =>
      if !ValidOfflineTask(d, task) then Propose(Fail(begun, CloudResponseInvalid), [])
      else Propose(OfflineEnsured(cfg, RecordOffline(begun, task), task.state, w.now), [])
  }

  function SubmitOffline(cfg: Config, d: Download, w: World): Decision {
    if TimedOut(d, w.now, cfg.offlineTimeout) then Propose(Fail(d, DeadlineProblem(d, OfflineTimeout)), [])
    else if d.status.Is(OfflineError) then
      match w.offlineCancelled
      case Err(failure) => Propose(CloudFailure(d, failure, OtherOperation, w.later), [])
      case Ok(_) => Propose(Again(d.(shares := d.shares.(offline := 0.0, qbit := 0.0), status := Plain(Nothing)),
                                  w.now), [])
    else EnsureOffline(cfg, d, w)
  }

  /** The same after another look at the offline download. */
  function OfflineSeen(cfg: Config, seen: Download, task: OfflineTask, now: int): Download {
    match task.state
    case TaskFinished =>
      if task.name == "" || task.source == "" then Fail(seen, CloudResponseInvalid)
      else Advance(OfflineDone(seen), SubmittingCopy, now, now)
    case TaskError => Fail(seen, OfflineDownloadFailed)
    case _ => Poll(cfg, seen, now)
  }

  function WaitOffline(cfg: Config, d: Download, w: World): Decision {
    if TimedOut(d, w.now, cfg.offlineTimeout) then Propose(Fail(d, DeadlineProblem(d, OfflineTimeout)), [])
    else
      match w.offlineSeen
      case Err(failure) => Propose(CloudFailure(d, failure, OtherOperation, w.later), [])
      case Ok(None) => Propose(Poll(cfg, d, w.now), [])
      case Ok(Some(task)) =>
        if !ValidOfflineTask(d, task) then Propose(Fail(d, CloudResponseInvalid), [])
        else Propose(OfflineSeen(cfg, RecordOffline(d, task), task, w.now), [])
  }

  // ---- Submitting the copy ---------------------------------------------------------------------

  function Inspected(failure: Failure): Resolution {
    if failure.CloudError? then InspectionFailed(failure) else ResolutionError
  }

  /** Which cloud object has to be copied. A directory that wraps the one file of a flat manifest is looked into. */
  function ResolveCopySource(d: Download, w: World): Resolution {
    var result := d.places.cloudResult;
    if !SafeCloudPath(result) then LayoutInvalid
    else if d.id.kind.Magnet? || d.shape.multiFile.None? then Resolved(result)
    else if w.manifest.None? then ResolutionError
    else if !ValidManifest(d.id.hash, d.shape.multiFile.value, d.shape.totalSize, w.manifest.value) then LayoutInvalid
    else if w.contentSeen.Err? then Inspected(w.contentSeen.failure)
    else
      var content, files := w.contentSeen.value, w.manifest.value;
      if content.directory && |files| == 1 && '/' !in files[0].path then
        var child := Clean(result + "/" + files[0].path);
        if !CloudDescendant(result, child) then LayoutInvalid
        else if w.childSeen.Err? then Inspected(w.childSeen.failure)
        else if w.childSeen.value.directory || w.childSeen.value.size != files[0].size then LayoutInvalid
        else Resolved(child)
      else if d.shape.multiFile.value then
        if content.directory then Resolved(result) else LayoutInvalid
      else if content.directory || content.size != files[0].size then LayoutInvalid
      else Resolved(result)
  }

  function ResolveSource(d: Download, w: World): Decision {
    match ResolveCopySource(d, w)
    case LayoutInvalid => Propose(Fail(d, CloudContentLayoutInvalid), [])
    case InspectionFailed(failure) => Propose(CloudFailure(d, failure, CopyOperation, w.later), [])
    case ResolutionError => Halt([])
    case Resolved(path) => Propose(Again(d.(places := d.places.(copySource := path)), w.now), [])
  }

  function ReserveDestination(d: Download, w: World): Decision {
    var name := Base(Clean(d.places.copySource));
    if !GoodComponent(name) then Propose(Fail(d, CloudContentLayoutInvalid), [])
    else Propose(Again(d.(places := d.places.(destination := name)), w.now), [])
  }

  /** A failed or finished copy has to be taken off the cloud before a new one. */
  predicate MustRemoveCopy(status: Status) {
    var prior := status.Trimmed(CancelledMark);
    (prior.Is(CopyCompleted) || prior.Is(CopyFailed)) && !status.MarkedFirst(RemovedMark)
  }

  /** The cloud copy is gone and its local files have to follow. */
  predicate MustDeleteCopy(status: Status) {
    status == Status([RemovedMark], CopyFailed) || status == Status([RemovedMark], CopyCompleted)
  }

  function CopyUndone(shares: Shares): Shares {
    shares.(copy := 0.0, qbit := 0.9)
  }

  function RemoveOldCopy(d: Download, w: World): Decision {
    if d.places.destination == "" then Propose(Fail(d, InternalWorkflowError), [])
    else
      match w.copyRemoved
      case Err(failure) => Propose(CloudFailure(d, failure, OtherOperation, w.later), [])
      case Ok(_) =>
        Propose(Again(d.(shares := CopyUndone(d.shares), status := MarkCopyRemoved(d.status)), w.now),
                [CopyRemoved(d.places.copySource, Root(d))])
  }

  function DeleteOldCopy(d: Download, w: World): Decision {
    if d.places.destination == "" then Propose(Fail(d, InternalWorkflowError), [])
    else if !w.localDeleted then
      Propose(Fail(d.(attempts := d.attempts + 1), LocalDeleteFailed), [LocalDeleted(d.id.hash)])
    else if d.places.workspace == "" && Clean(d.id.savePath) != d.id.savePath then
      Propose(Fail(d, InternalWorkflowError), [LocalDeleted(d.id.hash)])
    else
      var workspace := if d.places.workspace == "" then WorkspacePath(d.id.savePath, d.id.hash) else d.places.workspace;
      Propose(Again(d.(places := d.places.(workspace := workspace, content := ""), shares := CopyUndone(d.shares),
                       times := d.times.(copyCompleted := None), status := Plain(OfflineFinished)), w.now),
              [LocalDeleted(d.id.hash)])
  }

  /** The answer of preparing the workspace; rows without one have nothing to prepare. */
  function Prepared(d: Download, w: World): Option<FsKind> {
    if d.places.workspace == "" then None
    else if d.places.workspace != WorkspacePath(d.id.savePath, d.id.hash) || Clean(d.id.savePath) != d.id.savePath then
      Some(Transient)
    else w.workspacePrepared
  }

  function Preflight(d: Download, w: World): Decision {
    if Prepared(d, w).Some? then Propose(LocalFailure(d, Prepared(d, w).value, w.later), [])
    else if w.destinationSeen.Some? then Propose(LocalFailure(d, w.destinationSeen.value, w.later), [])
    else if w.destinationExists then Propose(Fail(d, DestinationCollision), [])
    else Propose(Again(d.(status := Plain(DestinationClear)), w.now),
                 [DestinationSeenEmpty(Root(d), d.places.destination)])
  }

  function CopyReported(state: CopyState): Report
    requires !state.TaskOther?
  {
    match state
    case TaskPending => CopyPending
    case TaskScanning => CopyScanning
    case TaskScanned => CopyScanned
    case TaskCompleted => CopyCompleted
    case TaskFailed => CopyFailed
  }

  function RecordCopy(d: Download, task: CopyTask): Download
    requires !task.state.TaskOther?
  {
    d.(shares := d.shares.(copy := task.progress, qbit := 0.9 + 0.09 * task.progress),
       status := Plain(CopyReported(task.state)))
  }

  function RecordCopyCompleted(d: Download, at: int): Download {
    if d.times.copyCompleted.None? then d.(times := d.times.(copyCompleted := Some(at))) else d
  }

  function EnsureCopy(cfg: Config, d: Download, w: World): Decision {
    if Prepared(d, w).Some? then Propose(LocalFailure(d, Prepared(d, w).value, w.later), [])
    else
      var log := [CopyRequested(d.places.copySource, Root(d))];
      match w.copyEnsured
      case Err(failure) => Propose(CloudFailure(d, failure, CopyOperation, w.later), log)
      case Ok(task) =>
        if !ValidCopyTask(task, d.places.copySource, Root(d)) then Propose(Fail(d, CloudResponseInvalid), log)
        else
          var seen := RecordCopy(d, task);
          match task.state
          case TaskCompleted => Propose(Advance(RecordCopyCompleted(seen, w.now), WaitingCopy, w.now, w.now), log)
          case TaskFailed => Propose(Fail(seen, CopyTaskFailed), log)
          case _ => Propose(Advance(seen, WaitingCopy, w.now, w.now + cfg.poll), log)
  }

  function SubmitCopy(cfg: Config, d: Download, w: World): Decision {
    if TimedOut(d, w.now, cfg.copyTimeout) then Propose(Fail(d, DeadlineProblem(d, CopyTimeout)), [])
    else if d.places.cloudResult == "" then Propose(Fail(d, CloudContentLayoutInvalid), [])
    else if d.places.copySource == "" then ResolveSource(d, w)
    else if d.places.destination == "" then ReserveDestination(d, w)
    else if MustRemoveCopy(d.status) then RemoveOldCopy(d, w)
    else if MustDeleteCopy(d.status) then DeleteOldCopy(d, w)
    else if !d.status.Is(DestinationClear) then Preflight(d, w)
    else EnsureCopy(cfg, d, w)
  }

  // ---- Waiting for the copy and verifying it ---------------------------------------------------

  /** What a successful verification records. Only content without a manifest tells its own shape. */
  function RecordVerified(d: Download, v: Verification): Download
    requires v.Verified?
  {
    d.(places := d.places.(content := v.path),
       shape := Shape(if d.id.kind.Magnet? || d.shape.multiFile.None? then Some(v.multiFile)
                      else d.shape.multiFile, v.size))
  }

  function WaitCopy(cfg: Config, d: Download, w: World): Decision {
    if TimedOut(d, w.now, cfg.copyTimeout) then Propose(Fail(d, DeadlineProblem(d, CopyTimeout)), [])
    else
      match w.copySeen
      case Err(failure) => Propose(CloudFailure(d, failure, CopyOperation, w.later), [])
      case Ok(None) =>
        (match w.verification
         case Verified(_, _, _) =>
           Propose(Advance(RecordCopyCompleted(RecordVerified(d, w.verification), w.now), VerifyingLocal, w.now, w.now),
                   [])
         case ManifestUnavailable => Halt([])
         case ContentMissing => Propose(Poll(cfg, d, w.now), [])
         case VerificationFailed(kind) => Propose(LocalFailure(d, kind, w.later), []))
      case Ok(Some(task)) =>
        if !ValidCopyTask(task, d.places.copySource, Root(d)) then Propose(Fail(d, CloudResponseInvalid), [])
        else
          var seen := RecordCopy(d, task);
          match task.state
          case TaskCompleted => Propose(Advance(RecordCopyCompleted(seen, w.now), VerifyingLocal, w.now, w.now), [])
          case TaskFailed => Propose(Fail(seen, CopyTaskFailed), [])
          case _ => Propose(Poll(cfg, seen, w.now), [])
  }

  function VerifyLocal(cfg: Config, d: Download, w: World): Decision {
    if TimedOut(d, w.now, cfg.verifyTimeout) then
      Propose(Fail(d, if d.problem.LocalFilesystemUnavailable? then LocalFilesystemUnavailableTimeout
                   else LocalVerificationTimeout), [])
    else
      match w.verification
      case Verified(_, _, _) =>
        Propose(Rest(RecordVerified(d, w.verification).(shares := Shares(1.0, 1.0, 1.0),
                                                        times := d.times.(completed := Some(w.now))),
                     Completed), [])
      case ManifestUnavailable => Halt([])
      case ContentMissing => Propose(Poll(cfg, d, w.now), [])
      case VerificationFailed(kind) => Propose(LocalFailure(d, kind, w.later), [])
  }

  // ---- Cleanup ---------------------------------------------------------------------------------

  function Cancel(d: Download, w: World): Decision {
    if d.places.copySource != "" then
      match w.copyRemoved
      case Err(failure) => Propose(CleanupFailure(d, failure, w.later), [])
      case Ok(_) => Propose(Rest(d.(status := MarkCopyRemoved(d.status)), Cancelled),
                            [CopyRemoved(d.places.copySource, Root(d))])
    else if w.offlineCancelled.Err? && !Gone(w.offlineCancelled.failure) then
      Propose(CleanupFailure(d, w.offlineCancelled.failure, w.later), [])
    else Propose(Rest(d.(status := MarkCleanupCancelled(d.status)), Cancelled), [])
  }

  function PauseCopy(d: Download, w: World): Decision {
    var stopped := Rest(d.(shares := CopyUndone(d.shares), status := Plain(OfflineFinished)), Stopped);
    if d.places.workspace == "" && d.places.destination == "" then
      if CopyEvidence(d.status) then Propose(Fail(d, InternalWorkflowError), []) else Propose(stopped, [])
    else if !w.localDeleted then Propose(CleanupProblem(d, LocalDeleteFailed), [LocalDeleted(d.id.hash)])
    else Propose(stopped, [LocalDeleted(d.id.hash)])
  }

  function Pause(d: Download, w: World): Decision {
    if d.places.content != "" || d.status.Is(CopyCompleted) then Propose(Rest(d, Stopped), [])
    else if d.places.copySource == "" then
      if w.offlineCancelled.Err? && !Gone(w.offlineCancelled.failure) then
        Propose(CleanupFailure(d, w.offlineCancelled.failure, w.later), [])
      else Propose(Rest(d.(shares := Shares(0.0, 0.0, 0.0), status := Plain(Nothing)), Stopped), [])
    else if !d.status.MarkedFirst(RemovedMark) then
      match w.copyRemoved
      case Err(failure) => Propose(CleanupFailure(d, failure, w.later), [])
      case Ok(_) => Propose(Again(d.(status := MarkCopyRemoved(d.status)), w.now),
                            [CopyRemoved(d.places.copySource, Root(d))])
    else PauseCopy(d, w)
  }

  function Gravestone(d: Download, w: World): Download {
    Rest(if d.times.removed.None? then d.(times := d.times.(removed := Some(w.now))) else d, Deleted)
  }

  function DeleteLocal(d: Download, w: World): Decision {
    if !d.deleteFiles then Propose(Gravestone(d, w), [])
    else if d.places.workspace == "" && d.places.content == "" && !CopyEvidence(d.status) then
      Propose(Gravestone(d, w), [])
    else if d.places.workspace == "" && d.places.content == "" && d.places.destination == "" then
      Propose(Fail(d, InternalWorkflowError), [])
    else if !w.localDeleted then Propose(CleanupProblem(d, LocalDeleteFailed), [LocalDeleted(d.id.hash)])
    else Propose(Gravestone(d, w), [LocalDeleted(d.id.hash)])
  }

  function Delete(d: Download, w: World): Decision {
    if d.places.copySource != "" && !d.status.MarkedFirst(RemovedMark) then
      match w.copyRemoved
      case Err(failure) => Propose(CleanupFailure(d, failure, w.later), [])
      case Ok(_) => Propose(Again(d.(status := MarkCopyRemoved(d.status)), w.now),
                            [CopyRemoved(d.places.copySource, Root(d))])
    else if d.places.copySource == "" && d.times.completed.None? && d.places.content == ""
      && !d.status.MarkedFirst(CancelledMark) then
      if w.offlineCancelled.Err? && !Gone(w.offlineCancelled.failure) then
        Propose(CleanupFailure(d, w.offlineCancelled.failure, w.later), [])
      else Propose(Again(d.(status := MarkCleanupCancelled(d.status)), w.now), [])
    else DeleteLocal(d, w)
  }

  // ---- The step --------------------------------------------------------------------------------

  function Decide(cfg: Config, d: Download, w: World): Decision {
    match d.state
    case Accepted => Propose(Advance(d, SubmittingOffline, w.now, w.now), [])
    case SubmittingOffline => SubmitOffline(cfg, d, w)
    case WaitingOffline => WaitOffline(cfg, d, w)
    case SubmittingCopy => SubmitCopy(cfg, d, w)
    case WaitingCopy => WaitCopy(cfg, d, w)
    case VerifyingLocal => VerifyLocal(cfg, d, w)
    case CancelRequested => if d.pause then Pause(d, w) else Cancel(d, w)
    case DeleteRequested => Delete(d, w)
    case _ => Halt([])
  }
}
