/** The persisted status is a string; this module shows that the marker model of it behaves as the string does
    (internal/reconcile/reconcile.go, internal/domain/model.go, state.go). */
module StatusText {
  import opened Domain
  import opened Workflow

  function MarkText(m: Mark): (s: string)
    ensures |s| >= 17
  {
    match m
    case CancelledMark => "cleanup:cancelled"
    case RemovedMark => "cleanup:copy_removed"
  }

  function ReportText(r: Report): string {
    match r
    case Nothing => ""
    case OfflineInit => "offline:INIT"
    case OfflineDownloading => "offline:DOWNLOADING"
    case OfflineFinished => "offline:FINISHED"
    case OfflineError => "offline:ERROR"
    case CopyPending => "copy:PENDING"
    case CopyScanning => "copy:SCANNING"
    case CopyScanned => "copy:SCANNED"
    case CopyCompleted => "copy:COMPLETED"
    case CopyFailed => "copy:FAILED"
    case DestinationClear => "local:destination_clear"
    case RetainedContent => "revive:retained_content"
  }

  /** The stored string. */
  function Text(s: Status): string
    decreases |s.marks|
  {
    if s.marks == [] then ReportText(s.report)
    else if |s.marks| == 1 && s.report.Nothing? then MarkText(s.marks[0])
    else MarkText(s.marks[0]) + "|" + Text(Status(s.marks[1..], s.report))
  }

  // ---- The helpers as the source has them, on strings ------------------------------------------

  predicate StartsMarked(t: string, m: Mark) {
    t == MarkText(m) || MarkText(m) + "|" <= t
  }

  function TrimMark(t: string, m: Mark): string {
    if MarkText(m) + "|" <= t then t[|MarkText(m)| + 1..] else t
  }

  function MarkCleanupCancelledText(t: string): string {
    if StartsMarked(t, CancelledMark) then t
    else if t == "" then MarkText(CancelledMark)
    else MarkText(CancelledMark) + "|" + t
  }

  function MarkCopyRemovedText(t: string): string {
    if StartsMarked(t, RemovedMark) then t
    else
      var rest := TrimMark(t, CancelledMark);
      if rest == "" || rest == MarkText(CancelledMark) then MarkText(RemovedMark)
      else MarkText(RemovedMark) + "|" + rest
  }

  predicate IsEvidence(t: string) {
    || t == "local:destination_clear" || t == "copy:PENDING" || t == "copy:SCANNING" || t == "copy:SCANNED"
    || t == "copy:COMPLETED" || t == "copy:FAILED"
  }

  predicate HasCopyEvidenceText(t: string) {
    IsEvidence(TrimMark(TrimMark(t, CancelledMark), RemovedMark))
  }

  // ---- The model is faithful -------------------------------------------------------------------

  lemma {:induction false} MarkTextsDiffer()
    ensures MarkText(CancelledMark)[9] == 'a' && MarkText(RemovedMark)[9] == 'o'
    ensures MarkText(CancelledMark)[1] == 'l' && MarkText(RemovedMark)[1] == 'l'
  {
  }

  lemma {:induction false} TextHead(s: Status)
    requires s.marks != []
    ensures MarkText(s.marks[0]) <= Text(s)
    ensures |s.marks| > 1 || s.report != Nothing ==>
              Text(s) == MarkText(s.marks[0]) + "|" + Text(Status(s.marks[1..], s.report))
  {
  }

  lemma {:induction false} SecondCharacter(s: Status)
    ensures s.marks != [] <==> |Text(s)| > 1 && Text(s)[1] == 'l'
  {
  }

  lemma {:induction false} StartsMarkedMeansMarkedFirst(s: Status, m: Mark)
    ensures StartsMarked(Text(s), m) <==> s.MarkedFirst(m)
  {
    MarkTextsDiffer();
    SecondCharacter(s);
    if s.marks != [] {
      TextHead(s);
      assert Text(s)[9] == MarkText(s.marks[0])[9];
      if StartsMarked(Text(s), m) {
        assert Text(s)[9] == MarkText(m)[9];
      } else if s.MarkedFirst(m) {
        BarFollows(s);
      }
    } else {
      UnmarkedStart(Text(s), m);
    }
  }

  lemma {:induction false} UnmarkedStart(t: string, m: Mark)
    ensures StartsMarked(t, m) ==> |t| > 1 && t[1] == 'l'
  {
  }

  lemma {:induction false} BarFollows(s: Status)
    requires s.marks != []
    ensures Text(s) == MarkText(s.marks[0]) || MarkText(s.marks[0]) + "|" <= Text(s)
  {
  }

  lemma {:induction false} TrimIsTrimmed(s: Status, m: Mark)
    ensures TrimMark(Text(s), m) == Text(s.Trimmed(m))
  {
    StartsMarkedMeansMarkedFirst(s, m);
    if s.MarkedFirst(m) {
      TextHead(s);
      var mark := MarkText(m);
      if |s.marks| > 1 || s.report != Nothing {
        assert mark + "|" <= Text(s);
        assert Text(s)[|mark| + 1..] == Text(Status(s.marks[1..], s.report));
      } else {
        assert Text(s) == mark;
      }
    }
  }

  lemma {:induction false} ReportTextInjective(a: Report, b: Report)
    requires ReportText(a) == ReportText(b)
    ensures a == b
  {
  }

  /** Unmarked statuses are told apart by their text, and no marked one has the text of an unmarked one. */
  lemma {:induction false} TextIsReport(s: Status, r: Report)
    requires Text(s) == ReportText(r)
    ensures s == Plain(r)
  {
    SecondCharacter(s);
    SecondCharacter(Plain(r));
    ReportTextInjective(s.report, r);
  }

  lemma {:induction false} MarkCleanupCancelledFaithful(s: Status)
    ensures MarkCleanupCancelledText(Text(s)) == Text(MarkCleanupCancelled(s))
  {
    StartsMarkedMeansMarkedFirst(s, CancelledMark);
    if !s.MarkedFirst(CancelledMark) {
      assert ([CancelledMark] + s.marks)[1..] == s.marks;
      if Text(s) == "" {
        TextIsReport(s, Nothing);
      }
    }
  }

  lemma {:induction false} MarkCopyRemovedFaithful(s: Status)
    ensures MarkCopyRemovedText(Text(s)) == Text(MarkCopyRemoved(s))
  {
    StartsMarkedMeansMarkedFirst(s, RemovedMark);
    if !s.MarkedFirst(RemovedMark) {
      TrimIsTrimmed(s, CancelledMark);
      var rest := s.Trimmed(CancelledMark);
      assert ([RemovedMark] + rest.marks)[1..] == rest.marks;
      if Text(rest) == "" {
        TextIsReport(rest, Nothing);
      } else if Text(rest) == MarkText(CancelledMark) {
        LoneMark(rest);
      }
    }
  }

  lemma {:induction false} LoneMark(s: Status)
    requires Text(s) == MarkText(CancelledMark)
    ensures s == Status([CancelledMark], Nothing)
  {
  }

  predicate EvidenceReport(r: Report) {
    CopyReport(r) || r.DestinationClear?
  }

  lemma {:induction false} EvidenceText(s: Status)
    ensures IsEvidence(Text(s)) <==> s.marks == [] && EvidenceReport(s.report)
  {
  }

  lemma {:induction false} CopyEvidenceFaithful(s: Status)
    ensures HasCopyEvidenceText(Text(s)) <==> CopyEvidence(s)
  {
    TrimIsTrimmed(s, CancelledMark);
    TrimIsTrimmed(s.Trimmed(CancelledMark), RemovedMark);
    EvidenceText(Stripped(s));
  }
}
