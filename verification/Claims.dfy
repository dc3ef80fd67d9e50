/** Leased claims on the rows of the download table: every worker and every overlapping runtime uses one owner name and
    a commit does not look at the expiry, so the row version alone keeps updates apart
    (internal/store/queries/claims.sql, internal/store/repository.go). */
module Claims {
  import opened Paths
  import opened Domain
  import opened RowInvariant

  datatype Lease = Lease(owner: string, until: int)

  datatype Row = Row(download: Download, lease: Option<Lease>, version: nat, created: int)

  datatype Claim = Claim(hash: string, owner: string, download: Download, version: nat)

  type Rows = map<string, Row>

  // ---- Which row is claimed --------------------------------------------------------------------

  /** What the claim query asks of a candidate. It leaves out STOPPED. */
  predicate Due(row: Row, now: int) {
    && row.download.nextRun.Some? && row.download.nextRun.value <= now
    && !(row.download.state.Completed? || row.download.state.Failed? || row.download.state.Cancelled?
         || row.download.state.Deleted?)
    && (row.lease.None? || row.lease.value.until <= now)
  }

  /** The claim order: due time, then age, then hash. */
  predicate Earlier(rows: Rows, h: string, k: string)
    requires h in rows && k in rows && rows[h].download.nextRun.Some? && rows[k].download.nextRun.Some?
  {
    var a, b := rows[h], rows[k];
    || a.download.nextRun.value < b.download.nextRun.value
    || (a.download.nextRun == b.download.nextRun
        && (a.created < b.created || (a.created == b.created && StringBefore(h, k))))
  }

  predicate First(rows: Rows, now: int, h: string) {
    h in rows && Due(rows[h], now) && forall k :: k in rows && Due(rows[k], now) && k != h ==> Earlier(rows, h, k)
  }

  function Leased(row: Row, owner: string, until: int): Row {
    row.(lease := Some(Lease(owner, until)), version := row.version + 1)
  }

  function Committed(row: Row, next: Download): Row {
    row.(download := next, lease := None, version := row.version + 1)
  }

  function Updated(row: Row, next: Download, keepsLease: bool): Row {
    row.(download := next, lease := if keepsLease then row.lease else None, version := row.version + 1)
  }

  /** The guard of the commit. */
  predicate Holds(rows: Rows, claim: Claim) {
    && claim.hash in rows
    && rows[claim.hash].download.state == claim.download.state
    && rows[claim.hash].lease.Some? && rows[claim.hash].lease.value.owner == claim.owner
    && rows[claim.hash].version == claim.version
  }

  datatype CommitResult = Done | ClaimLost | Refused | NameConflict

  class Table {
    var rows: Rows

    /** Leases the first due row; the whole selection and update is one statement. */
    method ClaimDue(owner: string, now: int, duration: int) returns (claim: Option<Claim>)
      requires duration > 0
      modifies this
      ensures claim.None? ==> rows == old(rows) && forall h :: h in rows ==> !Due(rows[h], now)
      ensures claim.Some? ==>
                && First(old(rows), now, claim.value.hash)
                && rows == old(rows)[claim.value.hash := Leased(old(rows)[claim.value.hash], owner, now + duration)]
                && claim.value == Claim(claim.value.hash, owner, rows[claim.value.hash].download,
                                        rows[claim.value.hash].version)
    {
      var todo, best := rows.Keys, None;
      while todo != {}
        invariant rows == old(rows) && todo <= rows.Keys
        invariant best.None? ==> forall h :: h in rows && h !in todo ==> !Due(rows[h], now)
        invariant best.Some? ==> best.value in rows && best.value !in todo && Due(rows[best.value], now)
        invariant best.Some? ==> forall h :: h in rows && h !in todo && Due(rows[h], now) && h != best.value ==>
                  Earlier(rows, best.value, h)
      {
        var h :| h in todo;
        todo := todo - {h};
        if Due(rows[h], now) {
          if best.None? {
            best := Some(h);
          } else if Earlier(rows, h, best.value) {
            forall k | k in rows && k !in todo && Due(rows[k], now) && k != h && k != best.value
              ensures Earlier(rows, h, k)
            {
              EarlierTransitive(rows, h, best.value, k);
            }
            best := Some(h);
          } else {
            StringBeforeTotal(h, best.value);
          }
        }
      }
      if best.None? {
        return None;
      }
      var h := best.value;
      rows := rows[h := Leased(rows[h], owner, now + duration)];
      claim := Some(Claim(h, owner, rows[h].download, rows[h].version));
    }

    /** Writes a claimed row's successor if the claim still holds. The guard is part of the update, so a name constraint
        can refuse only a write that would happen, and that reserves a name. */
    method CommitClaim(claim: Claim, next: Download) returns (r: CommitResult)
      modifies this
      ensures r == Refused <==> !CommitAccepts(claim.download, next)
      ensures r == ClaimLost <==> CommitAccepts(claim.download, next) && !Holds(old(rows), claim)
      ensures r == NameConflict ==>
                next.places.destination != "" && next.places.destination != claim.download.places.destination
      ensures rows == if r == Done then old(rows)[claim.hash := Committed(old(rows)[claim.hash], next)] else old(rows)
    {
      if !CommitAccepts(claim.download, next) {
        return Refused;
      }
      if !Holds(rows, claim) {
        return ClaimLost;
      }
      var constrained: bool := *;
      if constrained && next.places.destination != "" && next.places.destination != claim.download.places.destination {
        return NameConflict;
      }
      rows := rows[claim.hash := Committed(rows[claim.hash], next)];
      r := Done;
    }
  }

  lemma {:induction false} EarlierTransitive(rows: Rows, a: string, b: string, c: string)
    requires a in rows && b in rows && c in rows
    requires rows[a].download.nextRun.Some? && rows[b].download.nextRun.Some? && rows[c].download.nextRun.Some?
    requires Earlier(rows, a, b) && Earlier(rows, b, c)
    ensures Earlier(rows, a, c)
  {
    if StringBefore(a, b) && StringBefore(b, c) {
      StringBeforeTransitive(a, b, c);
    }
  }

  // ---- Interleavings ---------------------------------------------------------------------------

  /** The table and every claim that was ever handed out; crashed and expired claims stay in the set. */
  datatype System = System(rows: Rows, claims: set<Claim>)

  datatype Action =
    | Take(hash: string, owner: string, until: int)
    | Commit(claim: Claim, next: Download)
    | Operate(hash: string, next: Download, keepsLease: bool)
    | Insert(hash: string, row: Row)

  predicate Possible(s: System, a: Action) {
    match a
    case Take(h, _, _) => h in s.rows
    case Commit(claim, _) => claim in s.claims
    case Operate(h, _, _) => h in s.rows
    case Insert(h, _) => h !in s.rows
  }

  /** What one statement does, whoever runs it. A commit whose guard fails changes nothing. */
  function After(s: System, a: Action): System
    requires Possible(s, a)
  {
    match a
    case Take(h, owner, until) =>
      var row := Leased(s.rows[h], owner, until);
      System(s.rows[h := row], s.claims + {Claim(h, owner, row.download, row.version)})
    case Commit(claim, next) =>
      if Holds(s.rows, claim) then System(s.rows[claim.hash := Committed(s.rows[claim.hash], next)], s.claims) else s
    case Operate(h, next, keepsLease) => System(s.rows[h := Updated(s.rows[h], next, keepsLease)], s.claims)
    case Insert(h, row) => System(s.rows[h := row], s.claims)
  }

  /** No claim is ahead of its row, and one that is level with it has seen the row as it is. */
  ghost predicate ClaimFits(rows: Rows, c: Claim) {
    && c.hash in rows && c.version <= rows[c.hash].version
    && (c.version == rows[c.hash].version ==>
          rows[c.hash].download == c.download && rows[c.hash].lease.Some? && rows[c.hash].lease.value.owner == c.owner)
  }

  ghost predicate SystemInv(s: System) {
    && (forall c :: c in s.claims ==> ClaimFits(s.rows, c))
    && (forall b, c :: b in s.claims && c in s.claims && b.hash == c.hash && b.version == c.version ==> b == c)
  }

  lemma {:induction false} StepKeepsInv(s: System, a: Action)
    requires SystemInv(s) && Possible(s, a)
    ensures SystemInv(After(s, a))
  {
  }

  /** A commit that succeeds acts on exactly the row that was claimed, though owners are shared and leases expire. */
  lemma {:induction false} CommitSeesClaimedRow(s: System, claim: Claim)
    requires SystemInv(s) && claim in s.claims && Holds(s.rows, claim)
    ensures s.rows[claim.hash].download == claim.download
  {
  }

  ghost predicate Trace(states: seq<System>, actions: seq<Action>) {
    && |states| == |actions| + 1
    && forall i {:trigger actions[i]} :: 0 <= i < |actions| ==>
         Possible(states[i], actions[i]) && states[i + 1] == After(states[i], actions[i])
  }

  predicate Succeeds(s: System, a: Action) {
    a.Commit? && Holds(s.rows, a.claim)
  }

  lemma {:induction false} TraceKeepsInv(states: seq<System>, actions: seq<Action>, i: nat)
    requires Trace(states, actions) && SystemInv(states[0]) && i < |states|
    ensures SystemInv(states[i])
  {
    if i > 0 {
      TraceKeepsInv(states, actions, i - 1);
      assert states[i] == After(states[i - 1], actions[i - 1]);
      StepKeepsInv(states[i - 1], actions[i - 1]);
    }
  }

  lemma {:induction false} VersionsGrow(states: seq<System>, actions: seq<Action>, i: nat, j: nat, h: string)
    requires Trace(states, actions) && i <= j < |states| && h in states[i].rows
    ensures h in states[j].rows && states[i].rows[h].version <= states[j].rows[h].version
    decreases j
  {
    if i < j {
      VersionsGrow(states, actions, i, j - 1, h);
      assert states[j] == After(states[j - 1], actions[j - 1]);
    }
  }

  /** Each claim is committed at most once. */
  lemma {:induction false} ClaimCommitsOnce(states: seq<System>, actions: seq<Action>, i: nat, j: nat)
    requires Trace(states, actions) && i < j < |actions|
    requires Succeeds(states[i], actions[i]) && Succeeds(states[j], actions[j])
    ensures actions[i].claim != actions[j].claim
  {
    assert states[i + 1] == After(states[i], actions[i]);
    VersionsGrow(states, actions, i + 1, j, actions[i].claim.hash);
  }

  // ---- Refinement ------------------------------------------------------------------------------

  /** The table without leases and versions. */
  function Plain(rows: Rows): map<string, Download> {
    map h | h in rows :: rows[h].download
  }

  /** One atomic update: it read `before` and wrote `after`. */
  datatype Update = Update(hash: string, before: Option<Download>, after: Download)

  /** The update that an action amounts to, as its author sees it: a worker believes its claim, an operator's guarded
      statement reads the row. */
  function Effects(s: System, a: Action): seq<Update>
    requires Possible(s, a)
  {
    match a
    case Take(_, _, _) => []
    case Commit(claim, next) => if Holds(s.rows, claim) then [Update(claim.hash, Some(claim.download), next)] else []
    case Operate(h, next, _) => [Update(h, Some(s.rows[h].download), next)]
    case Insert(h, row) => [Update(h, None, row.download)]
  }

  /** The sequential specification: updates run one after another, each on the value that the last one left. */
  predicate Fits(db: map<string, Download>, u: Update) {
    if u.hash in db then u.before == Some(db[u.hash]) else u.before == None
  }

  function Replay(db: map<string, Download>, updates: seq<Update>): Option<map<string, Download>>
    decreases |updates|
  {
    if updates == [] then Some(db)
    else if !Fits(db, updates[0]) then None
    else Replay(db[updates[0].hash := updates[0].after], updates[1..])
  }

  function AllEffects(states: seq<System>, actions: seq<Action>): seq<Update>
    requires |states| == |actions| + 1
    requires forall i {:trigger actions[i]} :: 0 <= i < |actions| ==> Possible(states[i], actions[i])
    decreases |actions|
  {
    if actions == [] then [] else Effects(states[0], actions[0]) + AllEffects(states[1..], Rest(states, actions))
  }

  function Rest(states: seq<System>, actions: seq<Action>): (r: seq<Action>)
    requires |states| == |actions| + 1 && actions != []
    requires forall i {:trigger actions[i]} :: 0 <= i < |actions| ==> Possible(states[i], actions[i])
    ensures r == actions[1..]
    ensures forall i {:trigger r[i]} :: 0 <= i < |r| ==> Possible(states[1..][i], r[i])
  {
    assert forall i :: 0 <= i < |actions[1..]| ==> actions[1..][i] == actions[i + 1] && states[1..][i] == states[i + 1];
    actions[1..]
  }

  lemma {:induction false} StepRefines(s: System, a: Action)
    requires SystemInv(s) && Possible(s, a)
    ensures Replay(Plain(s.rows), Effects(s, a)) == Some(Plain(After(s, a).rows))
  {
    var t := After(s, a);
    if a.Commit? && Holds(s.rows, a.claim) {
      CommitSeesClaimedRow(s, a.claim);
    }
    if Effects(s, a) == [] {
      assert Plain(t.rows) == Plain(s.rows);
    } else {
      var u := Effects(s, a)[0];
      assert Effects(s, a)[1..] == [];
      assert Plain(t.rows) == Plain(s.rows)[u.hash := u.after];
    }
  }

  lemma {:induction false} ReplayConcat(db: map<string, Download>, a: seq<Update>, b: seq<Update>)
    requires Replay(db, a).Some?
    ensures Replay(db, a + b) == Replay(Replay(db, a).value, b)
    decreases |a|
  {
    if a == [] {
      assert a + b == b;
    } else {
      assert (a + b)[1..] == a[1..] + b;
      ReplayConcat(db[a[0].hash := a[0].after], a[1..], b);
    }
  }

  /** Any interleaving of workers, expiries, crashes and operators is the sequential history of its successful updates:
      each worker's update is applied to the very row it claimed, and none is lost. */
  lemma {:induction false} InterleavingsAreSequential(states: seq<System>, actions: seq<Action>)
    requires Trace(states, actions) && SystemInv(states[0])
    ensures Replay(Plain(states[0].rows), AllEffects(states, actions)) == Some(Plain(states[|actions|].rows))
    decreases |actions|
  {
    if actions != [] {
      var s, t := states[0], states[1];
      assert t == After(s, actions[0]);
      StepKeepsInv(s, actions[0]);
      StepRefines(s, actions[0]);
      var tail := Rest(states, actions);
      forall i {:trigger tail[i]} | 0 <= i < |tail| ensures states[1..][i + 1] == After(states[1..][i], tail[i]) {
        assert tail[i] == actions[i + 1];
      }
      InterleavingsAreSequential(states[1..], tail);
      ReplayConcat(Plain(s.rows), Effects(s, actions[0]), AllEffects(states[1..], tail));
    }
  }
}
