/** The durable download row: its states, its upstream status, what may be stored and what a retry resumes
    (internal/domain/state.go, projection.go, model.go, problem.go). */
module Domain {
  import opened Paths

  datatype State =
    | Accepted | Stopped | SubmittingOffline | WaitingOffline | SubmittingCopy | WaitingCopy | VerifyingLocal
    | Completed | Failed | CancelRequested | Cancelled | DeleteRequested | Deleted

  datatype SourceKind = Magnet | Torrent

  datatype Problem =
    | NoProblem
    | CloudUnreachable | CloudUnreachableTimeout | CloudAuthenticationRequired | CloudAuthenticationTimeout
    | CloudCopyNotReady | CloudCopyNotReadyTimeout | CloudFolderUnavailable | CloudRequestRejected
    | CloudContentLayoutInvalid | CloudResponseInvalid | OfflineSubmissionRejected | OfflineDownloadFailed
    | OfflineTimeout | CopyTaskFailed | CopyTimeout | DestinationConflict | DestinationCollision
    | LocalFilesystemUnavailable | LocalFilesystemUnavailableTimeout | LocalPermissionDenied | LocalPathUnsafe
    | LocalContentLayoutInvalid | LocalVerificationFailed | LocalVerificationTimeout | LocalDeleteFailed
    | WorkflowOperationTimeout | InternalWorkflowError | Legacy

  // ---- The upstream status ---------------------------------------------------------------------

  /** What the last contact with the cloud or the local disk reported. */
  datatype Report =
    | Nothing | OfflineInit | OfflineDownloading | OfflineFinished | OfflineError
    | CopyPending | CopyScanning | CopyScanned | CopyCompleted | CopyFailed
    | DestinationClear | RetainedContent

  datatype Mark = CancelledMark | RemovedMark

  /** The status string: cleanup markers, outermost first, in front of a report. */
  datatype Status = Status(marks: seq<Mark>, report: Report) {

    /** The string starts with this marker, alone or followed by more. */
    predicate MarkedFirst(mark: Mark) {
      marks != [] && marks[0] == mark
    }

    /** strings.TrimPrefix of the marker and its bar; a marker with nothing behind it has no bar. */
    function Trimmed(mark: Mark): Status {
      if MarkedFirst(mark) && (|marks| > 1 || report != Nothing) then Status(marks[1..], report) else this
    }

    predicate Is(r: Report) {
      this == Status([], r)
    }
  }

  function Plain(r: Report): Status { Status([], r) }

  /** The status without its markers, as retry routing and evidence tests strip them. */
  function Stripped(status: Status): Status {
    status.Trimmed(CancelledMark).Trimmed(RemovedMark)
  }

  predicate CopyReport(r: Report) {
    r.CopyPending? || r.CopyScanning? || r.CopyScanned? || r.CopyCompleted? || r.CopyFailed?
  }

  predicate OfflineReport(r: Report) {
    r.OfflineInit? || r.OfflineDownloading? || r.OfflineFinished? || r.OfflineError?
  }

  // ---- The row ---------------------------------------------------------------------------------

  /** What identifies the download and where it lives. */
  datatype Identity = Identity(hash: string, name: string, nameOverridden: bool, kind: SourceKind, cloudFolder: string,
                               savePath: string)

  /** The paths that the workflow fills in; absent paths are empty strings. */
  datatype Places = Places(workspace: string, destination: string, cloudTask: string, cloudResult: string,
                           copySource: string, content: string)

  datatype Shape = Shape(multiFile: Option<bool>, totalSize: int)

  datatype Shares = Shares(offline: real, copy: real, qbit: real)

  datatype Times = Times(phaseStarted: int, offlineStarted: Option<int>, copyCompleted: Option<int>,
                         completed: Option<int>, removed: Option<int>)

  /** The text of an error follows from its code and is not kept. */
  datatype Download = Download(
    id: Identity, places: Places, shape: Shape, shares: Shares, times: Times,
    state: State, status: Status, problem: Problem, nextRun: Option<int>, attempts: int, deleteFiles: bool, pause: bool)

  // ---- States ----------------------------------------------------------------------------------

  predicate Claimable(s: State) {
    !(s.Stopped? || s.Completed? || s.Failed? || s.Cancelled? || s.Deleted?)
  }

  predicate ActiveExit(to: State) {
    to.Failed? || to.CancelRequested? || to.DeleteRequested?
  }

  predicate CanTransition(from: State, to: State) {
    from != to &&
    match from
    case Accepted => to.SubmittingOffline? || ActiveExit(to)
    case Stopped => to.Accepted? || to.SubmittingCopy? || to.VerifyingLocal? || to.CancelRequested?
      || to.DeleteRequested?
    case SubmittingOffline => to.WaitingOffline? || to.SubmittingCopy? || ActiveExit(to)
    case WaitingOffline => to.SubmittingCopy? || ActiveExit(to)
    case SubmittingCopy => to.WaitingCopy? || ActiveExit(to)
    case WaitingCopy => to.VerifyingLocal? || ActiveExit(to)
    case VerifyingLocal => to.Completed? || ActiveExit(to)
    case Completed => to.DeleteRequested? || to.VerifyingLocal?
    case Cancelled => to.DeleteRequested?
    case Failed =>
      || to.DeleteRequested? || to.Accepted? || to.SubmittingOffline? || to.WaitingOffline?
      || to.SubmittingCopy? || to.WaitingCopy? || to.VerifyingLocal?
    case CancelRequested => to.Stopped? || to.Cancelled? || to.DeleteRequested?
    case DeleteRequested => to.Deleted?
    case Deleted => to.Accepted? || to.Stopped? || to.VerifyingLocal?
  }

  predicate CanRetry(d: Download) {
    d.state.Failed? || ((d.state.CancelRequested? || d.state.DeleteRequested?) && d.problem != NoProblem)
  }

  /** Problems after which a retry goes back to submitting the copy. */
  predicate LocalProblem(p: Problem) {
    || p.LocalVerificationFailed? || p.LocalVerificationTimeout? || p.LocalFilesystemUnavailableTimeout?
    || p.LocalPermissionDenied? || p.LocalPathUnsafe? || p.LocalContentLayoutInvalid? || p.LocalDeleteFailed?
  }

  /** The first phase that a retry resumes. */
  function RetryTarget(d: Download): State {
    var status := Stripped(d.status);
    if d.state.CancelRequested? || d.state.DeleteRequested? then d.state
    else if d.state.Failed? && d.problem.DestinationConflict? then SubmittingCopy
    else if d.state.Failed? && LocalProblem(d.problem) then SubmittingCopy
    else if d.places.content != "" || status.Is(CopyCompleted) then VerifyingLocal
    else if status.Is(CopyPending) || status.Is(CopyScanning) || status.Is(CopyScanned) then WaitingCopy
    else if status.Is(OfflineError) then SubmittingOffline
    else if status.marks == [] && CopyReport(status.report) then SubmittingCopy
    else if status.Is(OfflineFinished) || d.places.cloudResult != "" then SubmittingCopy
    else if status.marks == [] && OfflineReport(status.report) then WaitingOffline
    else SubmittingOffline
  }

  predicate RequiresCloudResult(s: State) {
    s.SubmittingCopy? || s.WaitingCopy? || s.VerifyingLocal? || s.Completed?
  }

  predicate RequiresCopySource(s: State) {
    s.WaitingCopy? || s.VerifyingLocal? || s.Completed?
  }

  // ---- What may be stored ----------------------------------------------------------------------

  predicate ValidHash(hash: string) {
    |hash| == 40 && forall c :: c in hash ==> '0' <= c <= '9' || 'a' <= c <= 'f'
  }

  predicate Progress(p: real) { 0.0 <= p <= 1.0 }

  predicate Printable(s: string) {
    forall c :: c in s ==> !IsControl(c)
  }

  function WorkspacePath(savePath: string, hash: string): string {
    (if savePath == "/" then "" else savePath) + "/.cd211/" + hash
  }

  predicate ValidIdentity(id: Identity) {
    ValidHash(id.hash) && GoodComponent(id.name) && IsAbs(id.cloudFolder) && IsAbs(id.savePath)
  }

  predicate ValidPlaces(id: Identity, p: Places) {
    && (p.workspace != "" ==>
          && IsAbs(p.workspace) && Clean(id.savePath) == id.savePath
          && p.workspace == WorkspacePath(id.savePath, id.hash))
    && (p.destination != "" ==> GoodComponent(p.destination))
    && (p.cloudResult != "" ==> IsAbs(p.cloudResult))
    && (p.copySource != "" ==> IsAbs(p.copySource))
    && (p.content != "" ==> IsAbs(p.content) && Clean(p.content) != Clean(id.savePath))
    && Printable(p.cloudTask)
  }

  predicate ValidShares(s: Shares) {
    Progress(s.offline) && Progress(s.copy) && Progress(s.qbit)
  }

  /** The checks on single fields. */
  predicate ValidFields(d: Download) {
    ValidIdentity(d.id) && ValidPlaces(d.id, d.places) && ValidShares(d.shares) && d.shape.totalSize >= 0
      && d.attempts >= 0
  }

  /** The fields that a state needs, and when the completion time may be set. */
  predicate ValidPhase(d: Download) {
    && (RequiresCloudResult(d.state) ==> d.places.cloudResult != "")
    && (RequiresCopySource(d.state) ==> d.places.copySource != "")
    && (if d.state.Completed? then d.places.content != "" && d.times.completed.Some?
        else if d.state.DeleteRequested? || d.state.Deleted? then d.times.completed.Some? ==> d.places.content != ""
        else d.times.completed.None?)
  }

  predicate ValidDownload(d: Download) {
    ValidFields(d) && ValidPhase(d)
  }

  // ---- The invariant of every stored row -------------------------------------------------------

  predicate CopyEvidence(status: Status) {
    var s := Stripped(status);
    s.marks == [] && (CopyReport(s.report) || s.report.DestinationClear?)
  }

  /** A scheduled row is in a state that a worker accepts; an unscheduled one is at rest, or is a cleanup whose recorded
      problem an operator can retry. */
  predicate Scheduled(d: Download) {
    if d.nextRun.Some? then Claimable(d.state)
    else !Claimable(d.state) || ((d.state.CancelRequested? || d.state.DeleteRequested?) && CanRetry(d))
  }

  /** Paths are recorded in order, and a status never outlives the paths it speaks about. */
  predicate PathsInOrder(d: Download) {
    && (d.places.copySource != "" ==> d.places.cloudResult != "")
    && (d.places.content != "" ==> d.places.copySource != "" && d.places.destination != "")
    && (RequiresCopySource(d.state) ==> d.places.destination != "")
    && (CopyEvidence(d.status) ==> d.places.copySource != "" && d.places.destination != "")
    && (d.status.report.OfflineFinished? ==> d.places.cloudResult != "")
    && (d.status.report.RetainedContent? ==> d.places.copySource != "" && d.places.destination != "")
  }

  /** A problem never outlives the phase that gives a retry its meaning. */
  predicate ProblemsInPhase(d: Download) {
    && (d.state.Failed? && d.problem.DestinationConflict? ==> d.places.destination == "" && d.places.cloudResult != "")
    && (d.state.Failed? && LocalProblem(d.problem) ==> d.places.cloudResult != "")
    && (d.state.Accepted? || d.state.SubmittingOffline? || d.state.WaitingOffline? ==>
          !d.problem.LocalFilesystemUnavailable?)
    && (d.state.Stopped? ==> d.problem == NoProblem)
  }

  predicate Inv(d: Download) {
    ValidDownload(d) && Scheduled(d) && PathsInOrder(d) && ProblemsInPhase(d)
  }

  /** A workflow that is neither at rest nor being cleaned up. */
  predicate Active(s: State) {
    s.Accepted? || s.SubmittingOffline? || s.WaitingOffline? || s.SubmittingCopy? || s.WaitingCopy? || s.VerifyingLocal?
  }
}
