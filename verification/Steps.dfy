/** One scheduler step on the shared table: claim, decide, commit, with others at work in between
    (internal/reconcile/reconcile.go). */
module Steps {
  import opened Paths
  import opened Domain
  import opened Workflow
  import opened RowInvariant
  import opened Lifecycle
  import C = Claims
  import S = Schedulers

  datatype Result = Idle | Stored | Superseded | Halted | InvariantError | CommitError

  ghost predicate AllInv(rows: C.Rows) {
    forall h :: h in rows ==> Inv(rows[h].download)
  }

  /** Rows stay, and each is the same row or a later version of it. */
  ghost predicate Later(before: C.Rows, after: C.Rows) {
    forall h :: h in before ==> h in after && (after[h] == before[h] || after[h].version > before[h].version)
  }

  lemma {:induction false} UpdateKeepsAll(rows: C.Rows, h: string, row: C.Row)
    requires AllInv(rows) && h in rows && Inv(row.download) && row.version > rows[h].version
    ensures AllInv(rows[h := row]) && Later(rows, rows[h := row])
  {
  }

  lemma {:induction false} LaterTransitive(a: C.Rows, b: C.Rows, c: C.Rows)
    requires Later(a, b) && Later(b, c)
    ensures Later(a, c)
  {
  }

  /** The row that a step tries to store, in the order of its attempts. */
  method Propose(cfg: Config, claimed: Download, w: World, overdue: bool) returns (halted: bool, next: Download)
    ensures halted <==> !overdue && Decide(cfg, claimed, w).Halt?
    ensures !halted ==> next == After(claimed, w, if overdue then Overdue else Committed, Decide(cfg, claimed, w))
  {
    var worker := new S.Worker(cfg, claimed);
    halted := worker.Decide(w);
    next := worker.d;
    if overdue {
      var again := new S.Worker(cfg, claimed);
      again.Retry(WorkflowOperationTimeout, w.later);
      return false, again.d;
    }
  }

  /** What is stored instead when another download holds the name. */
  function NameLost(next: Download): Download {
    Fail(next.(places := next.places.(destination := "")), DestinationConflict)
  }

  /** Commit, and on a name conflict commit the failure instead. Only a row that the store refuses is an error. */
  method Store(table: C.Table, claim: C.Claim, next: Download) returns (r: Result, taken: bool)
    modifies table
    ensures r == Stored || r == Superseded || r == CommitError
    ensures r != Stored ==> table.rows == old(table.rows)
    ensures r == Superseded ==> !C.Holds(old(table.rows), claim)
    ensures r == CommitError <==> !CommitAccepts(claim.download, if taken then NameLost(next) else next)
    ensures taken ==> CommitAccepts(claim.download, next) && next.places.destination != ""
                      && next.places.destination != claim.download.places.destination
    ensures r == Stored ==>
              && C.Holds(old(table.rows), claim)
              && table.rows == old(table.rows)[claim.hash :=
                   C.Committed(old(table.rows)[claim.hash], if taken then NameLost(next) else next)]
  {
    taken := false;
    var c := table.CommitClaim(claim, next);
    if c == C.NameConflict {
      taken := true;
      c := table.CommitClaim(claim, NameLost(next));
    }
    match c
    case Done => r := Stored;
    case ClaimLost => r := Superseded;
    case Refused => r := CommitError;
    case NameConflict => r := CommitError;
  }

  /** Decide on the claimed row and store the outcome. */
  method Finish(table: C.Table, cfg: Config, claim: C.Claim, w: World, overdue: bool) returns (r: Result,
                ghost fate: Fate)
    requires Inv(claim.download) && claim.download.nextRun.Some? && Believable(claim.download, w)
    modifies table
    ensures r == Stored || r == Superseded || r == Halted
    ensures r != Stored ==> table.rows == old(table.rows)
    ensures r == Superseded ==> !C.Holds(old(table.rows), claim)
    ensures r == Stored ==>
              && C.Holds(old(table.rows), claim)
              && fate != Lost && Possible(claim.download, w, fate, Decide(cfg, claim.download, w))
              && table.rows == old(table.rows)[claim.hash := C.Committed(old(table.rows)[claim.hash],
                                                 After(claim.download, w, fate, Decide(cfg, claim.download, w)))]
  {
    ghost var claimed := claim.download;
    fate := Lost;
    var halted, next := Propose(cfg, claim.download, w, overdue);
    if halted {
      return Halted, fate;
    }
    fate := if overdue then Overdue else Committed;
    StepGood(cfg, claimed, w, fate);
    if next.places.destination != "" && next.places.destination != claimed.places.destination {
      ReservesOnly(cfg, claimed, w, fate);
      StepGood(cfg, claimed, w, NameTaken);
    }
    var taken;
    r, taken := Store(table, claim, next);
    if taken {
      fate := NameTaken;
    }
  }

  /** A step that changes the recorded name is the one that reserves it. */
  lemma {:induction false} ReservesOnly(cfg: Config, d: Download, w: World, fate: Fate)
    requires Inv(d) && d.nextRun.Some? && (fate.Committed? || fate.Overdue?) && Possible(d, w, fate, Decide(cfg, d, w))
    requires After(d, w, fate, Decide(cfg, d, w)).places.destination != d.places.destination
    ensures fate.Committed? && d.places.destination == ""
  {
    if fate.Committed? && d.places.destination != "" {
      if d.state.SubmittingCopy? {
        SubmitCopyKeepsName(cfg, d, w);
      } else {
        OtherPhasesKeepName(cfg, d, w);
      }
    } else if fate.Committed? && !d.state.SubmittingCopy? {
      OtherPhasesKeepName(cfg, d, w);
    }
  }

  lemma {:induction false} CleaningKeepsName(d: Download, w: World)
    ensures RemoveOldCopy(d, w).Propose? && RemoveOldCopy(d, w).download.places.destination == d.places.destination
    ensures DeleteOldCopy(d, w).Propose? && DeleteOldCopy(d, w).download.places.destination == d.places.destination
    ensures Preflight(d, w).Propose? && Preflight(d, w).download.places.destination == d.places.destination
  {
  }

  lemma {:induction false} SubmitCopyKeepsName(cfg: Config, d: Download, w: World)
    requires d.places.destination != "" && SubmitCopy(cfg, d, w).Propose?
    ensures SubmitCopy(cfg, d, w).download.places.destination == d.places.destination
  {
    if TimedOut(d, w.now, cfg.copyTimeout) || d.places.cloudResult == "" {
      return;
    } else if d.places.copySource == "" {
      return;
    } else {
      CleaningKeepsName(d, w);
      EnsureCopyKeepsPaths(cfg, d, w);
    }
  }

  // ---- Others at work --------------------------------------------------------------------------

  lemma {:induction false} IntentKeepsAll(rows: C.Rows, h: string, intent: Intent, now: int, keepsLease: bool)
    requires AllInv(rows) && h in rows && Admits(rows[h].download, intent)
    ensures var next := rows[h := C.Updated(rows[h], Intended(rows[h].download, intent, now), keepsLease)];
            AllInv(next) && Later(rows, next)
  {
    IntentGood(rows[h].download, intent, now);
    UpdateKeepsAll(rows, h, C.Updated(rows[h], Intended(rows[h].download, intent, now), keepsLease));
  }

  lemma {:induction false} LeaseKeepsAll(rows: C.Rows, h: string, owner: string, until: int)
    requires AllInv(rows) && h in rows
    ensures var next := rows[h := C.Leased(rows[h], owner, until)];
            AllInv(next) && Later(rows, next)
  {
  }

  /** What a commit stores keeps the invariant, whichever row the claim was for. */
  lemma {:induction false} CommitKeepsAll(rows: C.Rows, cfg: Config, claim: C.Claim, w: World, fate: Fate)
    requires AllInv(rows) && claim.hash in rows
    requires Inv(claim.download) && claim.download.nextRun.Some? && Believable(claim.download, w)
    requires Possible(claim.download, w, fate, Decide(cfg, claim.download, w))
    ensures var row := C.Committed(rows[claim.hash], After(claim.download, w, fate, Decide(cfg, claim.download, w)));
            AllInv(rows[claim.hash := row]) && Later(rows, rows[claim.hash := row])
  {
    StepGood(cfg, claim.download, w, fate);
    UpdateKeepsAll(rows, claim.hash,
                   C.Committed(rows[claim.hash], After(claim.download, w, fate, Decide(cfg, claim.download, w))));
  }

  lemma {:induction false} InsertKeepsAll(rows: C.Rows, q: Request, now: int)
    requires AllInv(rows) && q.id.hash !in rows && ValidRequest(q)
    ensures var next := rows[q.id.hash := C.Row(Submitted(q, None, ContentMissing, now), None, 0, now)];
            AllInv(next) && Later(rows, next)
  {
    SubmittedGood(q, None, ContentMissing, now);
  }

  lemma {:induction false} ReviveKeepsAll(rows: C.Rows, q: Request, found: Verification, now: int, keepsLease: bool)
    requires AllInv(rows) && q.id.hash in rows && ValidRequest(q)
    requires found.Verified? ==> IsAbs(found.path) && found.size >= 0
    ensures var row := rows[q.id.hash];
            var next := rows[q.id.hash := C.Updated(row, Submitted(q, Some(row.download), found, now), keepsLease)];
            AllInv(next) && Later(rows, next)
  {
    var row := rows[q.id.hash];
    SubmittedGood(q, Some(row.download), found, now);
    UpdateKeepsAll(rows, q.id.hash, C.Updated(row, Submitted(q, Some(row.download), found, now), keepsLease));
  }

  /** An operator's statement, if the row admits it. */
  method Operate(table: C.Table, h: string, intent: Intent, now: int, keepsLease: bool)
    requires AllInv(table.rows)
    modifies table
    ensures AllInv(table.rows) && Later(old(table.rows), table.rows)
  {
    if h in table.rows && Admits(table.rows[h].download, intent) {
      IntentKeepsAll(table.rows, h, intent, now, keepsLease);
      table.rows := table.rows[h := C.Updated(table.rows[h], Intended(table.rows[h].download, intent, now),
                                              keepsLease)];
    }
  }

  /** A submission: a new row, or a new life for a deleted one. */
  method Submit(table: C.Table, q: Request, found: Verification, now: int, keepsLease: bool)
    requires AllInv(table.rows)
    modifies table
    ensures AllInv(table.rows) && Later(old(table.rows), table.rows)
  {
    var h := q.id.hash;
    if !ValidRequest(q) || (found.Verified? && !(IsAbs(found.path) && found.size >= 0)) {
      return;
    }
    if h !in table.rows {
      InsertKeepsAll(table.rows, q, now);
      table.rows := table.rows[h := C.Row(Submitted(q, None, ContentMissing, now), None, 0, now)];
    } else if table.rows[h].download.state.Deleted? {
      var row := table.rows[h];
      ReviveKeepsAll(table.rows, q, found, now, keepsLease);
      table.rows := table.rows[h := C.Updated(row, Submitted(q, Some(row.download), found, now), keepsLease)];
    }
  }

  /** Another worker takes a claim. */
  method Take(table: C.Table, owner: string, now: int, duration: int)
    requires duration > 0 && AllInv(table.rows)
    modifies table
    ensures AllInv(table.rows) && Later(old(table.rows), table.rows)
  {
    ghost var before := table.rows;
    var claim := table.ClaimDue(owner, now, duration);
    if claim.Some? {
      LeaseKeepsAll(before, claim.value.hash, owner, now + duration);
    }
  }

  /** Another worker finishes a step on any claim ever handed out, expired ones included. */
  method Conclude(table: C.Table, cfg: Config, claim: C.Claim, w: World, overdue: bool)
    requires AllInv(table.rows)
    modifies table
    ensures AllInv(table.rows) && Later(old(table.rows), table.rows)
  {
    if Inv(claim.download) && claim.download.nextRun.Some? && Believable(claim.download, w) {
      ghost var before := table.rows;
      var r, fate := Finish(table, cfg, claim, w, overdue);
      if r == Stored {
        CommitKeepsAll(before, cfg, claim, w, fate);
      }
    }
  }

  /** Operators, submissions and other workers run any number of statements, on any rows and in any order. */
  method Others(table: C.Table, cfg: Config)
    requires AllInv(table.rows)
    modifies table
    ensures AllInv(table.rows) && Later(old(table.rows), table.rows)
  {
    var n: nat := *;
    while n > 0
      invariant AllInv(table.rows) && Later(old(table.rows), table.rows)
    {
      n := n - 1;
      ghost var before := table.rows;
      var keepsLease: bool, now: int := *, *;
      if
      case true =>
        var h: string, intent: Intent := *, *;
        Operate(table, h, intent, now, keepsLease);
      case true =>
        var q: Request, found: Verification := *, *;
        Submit(table, q, found, now, keepsLease);
      case true =>
        var owner: string, duration: nat := *, *;
        Take(table, owner, now, duration + 1);
      case true =>
        var claim: C.Claim, w: World, overdue: bool := *, *, *;
        Conclude(table, cfg, claim, w, overdue);
      LaterTransitive(old(table.rows), before, table.rows);
    }
  }

  // ---- The whole step --------------------------------------------------------------------------

  /** A whole step. It never meets an unclaimable state and the store never refuses what it proposes; if it stores
      anything, it stores the successor of the very row it claimed, whatever others did meanwhile. */
  method Step(table: C.Table, cfg: Config, owner: string, duration: int, w: World, overdue: bool)
    returns (r: Result, ghost hash: string, ghost claimed: Download, ghost fate: Fate, ghost meanwhile: C.Rows)
    requires duration > 0 && AllInv(table.rows)
    requires forall h :: h in table.rows ==> Believable(table.rows[h].download, w)
    modifies table
    ensures r != InvariantError && r != CommitError
    ensures AllInv(table.rows)
    ensures r == Idle ==> table.rows == old(table.rows)
    ensures r != Idle ==> C.First(old(table.rows), w.now, hash) && claimed == old(table.rows)[hash].download
    ensures r == Stored ==>
              && hash in meanwhile && meanwhile[hash].download == claimed
              && fate != Lost && Possible(claimed, w, fate, Decide(cfg, claimed, w))
              && table.rows == meanwhile[hash := C.Committed(meanwhile[hash],
                                                             After(claimed, w, fate, Decide(cfg, claimed, w)))]
    ensures r == Superseded || r == Halted ==> table.rows == meanwhile
  {
    hash, claimed, fate, meanwhile := "", *, Lost, table.rows;
    ghost var before := table.rows;
    var claim := table.ClaimDue(owner, w.now, duration);
    if claim.None? {
      return Idle, hash, claimed, fate, meanwhile;
    }
    hash, claimed := claim.value.hash, claim.value.download;
    ghost var held := table.rows;
    LeaseKeepsAll(before, hash, owner, w.now + duration);
    assert Inv(before[hash].download) && C.Due(before[hash], w.now);
    if !Claimable(claim.value.download.state) {
      return InvariantError, hash, claimed, fate, meanwhile;
    }
    Others(table, cfg);
    meanwhile := table.rows;
    r, fate := Finish(table, cfg, claim.value, w, overdue);
    if r == Stored {
      assert held[hash].version == claim.value.version;
      StepGood(cfg, claimed, w, fate);
      UpdateKeepsAll(meanwhile, hash, table.rows[hash]);
    }
  }
}
