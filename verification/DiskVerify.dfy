/** What repeated verification does to the disk: exactly for which stored tables the selected files are found again and
    again (internal/reconcile/reconcile.go, internal/fsafe/plan.go). */
module DiskVerify {
  import opened Paths
  import opened FilePlans
  import opened FilePlanTheorems
  import opened FileTables
  import opened LocalVerify
  import R = FolderRenames

  // ---- Table and disk --------------------------------------------------------------------------

  /** What verification reads from the store: the file list of the torrent with its overrides. */
  datatype Listing = Listing(hash: string, manifest: seq<File>, overrides: map<int, Override>) {

    /** Where the copy of the torrent puts the file. */
    function Place(i: nat): string
      requires i < |manifest|
    {
      manifest[i].path
    }

    /** Where the table wants it. */
    function Path(i: nat): string
      requires i < |manifest|
    {
      EffectiveOf(manifest, overrides, i).path
    }

    predicate Selected(i: nat)
      requires i < |manifest|
    {
      EffectiveOf(manifest, overrides, i).priority != 0
    }

    predicate Moving(i: nat)
      requires i < |manifest|
    {
      Selected(i) && Path(i) != Place(i)
    }

    function Temp(i: nat): string
      requires i < |manifest|
    {
      TempName(hash, PlanAt(manifest, overrides, i))
    }

    function Plans(): seq<FilePlan> { LocalVerify.Plans(manifest, overrides) }

    function TheBook(): Book { BookOf(hash, Plans()) }

    /** What every list and every table edit provides: places and stored paths are distinct. */
    predicate Stored() {
      hash != "" && ConflictFree(manifest, overrides) && forall i, j :: 0 <= i < j < |manifest| ==> Place(i) != Place(j)
    }

    /** Every file passes the planner's checks of path, size and priority. */
    predicate ValidPlans() {
      forall i {:trigger PlanAt(manifest, overrides, i)} :: 0 <= i < |manifest| ==>
        ValidPlan(PlanAt(manifest, overrides, i))
    }

    /** No moved file's stored path is the place of another moved file. */
    predicate NoChains() {
      forall i, j :: 0 <= i < |manifest| && 0 <= j < |manifest| && Moving(i) && Moving(j) ==> Path(i) != Place(j)
    }

    /** No moved file's stored path is the place of an excluded file. */
    predicate NoExcludedTargets() {
      forall i, j :: 0 <= i < |manifest| && 0 <= j < |manifest| && Moving(i) && !Selected(j) ==> Path(i) != Place(j)
    }

    /** The table that verification can work with for ever. */
    predicate Repeatable() {
      ValidPlans() && NoChains() && NoExcludedTargets()
    }

    /** The private names are unused: on disk, among the places and among the stored paths. */
    predicate NamesFree(fs: Files) {
      forall i, j :: 0 <= i < |manifest| && 0 <= j < |manifest| ==>
        Temp(i) !in fs && Temp(i) !in {Place(j), Path(j)}
    }

    /** The disk holds the copied torrent, each file at its place, and nothing else. */
    predicate HoldsTorrent(fs: Files) {
      && (forall i :: 0 <= i < |manifest| ==> Place(i) in fs && IsFile(fs[Place(i)], manifest[i].size))
      && (forall p :: p in fs ==> exists i :: 0 <= i < |manifest| && Place(i) == p)
    }

    /** The disk holds each selected file at its stored path, and nothing else. */
    predicate HoldsSelected(fs: Files) {
      && (forall i :: 0 <= i < |manifest| && Selected(i) ==> Path(i) in fs && IsFile(fs[Path(i)], manifest[i].size))
      && (forall p :: p in fs ==> exists i :: 0 <= i < |manifest| && Selected(i) && Path(i) == p)
    }

    /** No two paths hold the same file. */
    predicate Differing(fs: Files) {
      forall p, q :: p in fs && q in fs && p != q ==> fs[p] != fs[q]
    }

    /** Each selected file's old content is where verification looks for it. */
    predicate Finds(origin: Files, fs: Files) {
      forall i :: 0 <= i < |manifest| && Selected(i) ==> Lookup(fs, Path(i)) == Lookup(origin, Place(i))
    }

    /** From a complete copy, verification can apply the plan and finds the files; it can then apply the plan once more,
        and finds them again. */
    ghost predicate KeepsFinding(origin: Files) {
      && Ready(hash, Plans(), origin)
      && forall once :: Applied(TheBook(), Plans(), origin, once) ==>
           && Finds(origin, once) && Ready(hash, Plans(), once)
           && forall twice :: Applied(TheBook(), Plans(), once, twice) ==> Finds(origin, twice)
    }

    /** Verification can apply the plan, which changes nothing. */
    ghost predicate Settled(fs: Files) {
      Ready(hash, Plans(), fs) && forall after :: Applied(TheBook(), Plans(), fs, after) ==> after == fs
    }
  }

  // ---- The book of the table -------------------------------------------------------------------

  lemma {:induction false} MoveIsPlan(l: Listing, s: string) returns (i: nat)
    requires s in l.TheBook().moving
    ensures i < |l.manifest| && l.Place(i) == s && l.Moving(i)
    ensures l.TheBook().moving[s] == Move(PlanAt(l.manifest, l.overrides, i), l.Temp(i))
  {
    i := BookMember(l.hash, l.Plans(), |l.Plans()|, s);
    BookValid(l.hash, l.Plans(), |l.Plans()|);
    assert l.TheBook().moving[s].plan.original == s;
  }

  lemma {:induction false} PlanIsMove(l: Listing, i: nat)
    requires l.Stored() && i < |l.manifest| && l.Moving(i)
    ensures l.Place(i) in l.TheBook().moving
    ensures l.TheBook().Target(l.Place(i)) == l.Path(i) && l.TheBook().Temp(l.Place(i)) == l.Temp(i)
  {
    BookValid(l.hash, l.Plans(), |l.Plans()|);
    assert l.Plans()[i] == PlanAt(l.manifest, l.overrides, i);
    var j := MoveIsPlan(l, l.Place(i));
    assert i == j;
  }

  lemma {:induction false} ExcludedPlace(l: Listing, p: string) returns (j: nat)
    requires p in Excluded(l.Plans())
    ensures j < |l.manifest| && !l.Selected(j) && l.Place(j) == p
  {
    var plan :| plan in l.Plans() && plan.priority == 0 && plan.original == p;
    j :| 0 <= j < |l.Plans()| && l.Plans()[j] == plan;
  }

  lemma {:induction false} PlaceExcluded(l: Listing, j: nat)
    requires j < |l.manifest| && !l.Selected(j)
    ensures l.Place(j) in Excluded(l.Plans())
  {
    assert l.Plans()[j] in l.Plans();
  }

  lemma {:induction false} BookSeparate(l: Listing, fs: Files)
    requires l.Stored() && l.NamesFree(fs)
    ensures l.TheBook().Separate()
  {
    var book := l.TheBook();
    forall s, t | s in book.moving && t in book.moving ensures book.Apart(s, t) {
      var i := MoveIsPlan(l, s);
      var j := MoveIsPlan(l, t);
      if s != t {
        EffectiveDiffer(l.manifest, l.overrides, i, j);
        if book.Temp(s) == book.Temp(t) {
          TempsDiffer(l.hash, PlanAt(l.manifest, l.overrides, i), PlanAt(l.manifest, l.overrides, j));
        }
      }
    }
  }

  lemma {:induction false} MoveKeepsOut(l: Listing, fs: Files, i: nat)
    requires l.Stored() && l.NamesFree(fs) && l.NoExcludedTargets() && i < |l.manifest| && l.Moving(i)
    ensures l.Place(i) !in Excluded(l.Plans()) && l.Temp(i) !in Excluded(l.Plans()) && l.Path(i) !in Excluded(l.Plans())
  {
    if l.Place(i) in Excluded(l.Plans()) {
      var j := ExcludedPlace(l, l.Place(i));
    }
    if l.Temp(i) in Excluded(l.Plans()) {
      var j := ExcludedPlace(l, l.Temp(i));
    }
    if l.Path(i) in Excluded(l.Plans()) {
      var j := ExcludedPlace(l, l.Path(i));
    }
  }

  /** The plans of a stored table keep out of each other's way exactly if no file is to replace an excluded one. */
  lemma {:induction false} DisjointExact(l: Listing, fs: Files)
    requires l.Stored() && l.NamesFree(fs)
    ensures Disjoint(l.TheBook(), l.Plans()) <==> l.NoExcludedTargets()
  {
    var book := l.TheBook();
    BookSeparate(l, fs);
    if l.NoExcludedTargets() {
      forall s | s in book.moving
        ensures && s !in Excluded(l.Plans()) && book.Temp(s) !in Excluded(l.Plans())
                && book.Target(s) !in Excluded(l.Plans())
      {
        var i := MoveIsPlan(l, s);
        MoveKeepsOut(l, fs, i);
      }
    } else {
      var i, j := ReplacedBy(l);
      PlanIsMove(l, i);
      PlaceExcluded(l, j);
    }
  }

  /** A file that is to replace an excluded one. */
  lemma {:induction false} ReplacedBy(l: Listing) returns (i: nat, j: nat)
    requires !l.NoExcludedTargets()
    ensures i < |l.manifest| && j < |l.manifest| && l.Moving(i) && !l.Selected(j) && l.Path(i) == l.Place(j)
  {
    i, j :| 0 <= i < |l.manifest| && 0 <= j < |l.manifest| && l.Moving(i) && !l.Selected(j) && l.Path(i) == l.Place(j);
  }

  lemma {:induction false} ChainsExact(l: Listing)
    requires l.Stored()
    ensures Chainless(l.TheBook()) <==> l.NoChains()
  {
    var book := l.TheBook();
    if l.NoChains() {
      forall s | s in book.moving ensures book.Target(s) !in book.moving {
        var i := MoveIsPlan(l, s);
        if book.Target(s) in book.moving {
          var j := MoveIsPlan(l, book.Target(s));
        }
      }
    } else {
      var i, j :| 0 <= i < |l.manifest| && 0 <= j < |l.manifest| && l.Moving(i) && l.Moving(j)
        && l.Path(i) == l.Place(j);
      PlanIsMove(l, i);
      PlanIsMove(l, j);
    }
  }

  /** A path that is the place of one file and the stored path of another that does not move is impossible. */
  lemma {:induction false} UnmovedStays(l: Listing, fs: Files, i: nat)
    requires l.Stored() && l.NamesFree(fs) && i < |l.manifest| && l.Selected(i) && !l.Moving(i)
    ensures var book := l.TheBook();
            && l.Place(i) !in book.moving && !book.IsTarget(book.moving.Keys, l.Place(i))
            && !book.IsTemp(book.moving.Keys, l.Place(i)) && l.Place(i) !in Excluded(l.Plans())
  {
    var book := l.TheBook();
    forall s | s in book.moving ensures s != l.Place(i) && book.Target(s) != l.Place(i) && book.Temp(s) != l.Place(i) {
      var j := MoveIsPlan(l, s);
      EffectiveDiffer(l.manifest, l.overrides, i, j);
    }
    if l.Place(i) in Excluded(l.Plans()) {
      var j := ExcludedPlace(l, l.Place(i));
    }
  }

  // ---- From a complete copy --------------------------------------------------------------------

  lemma {:induction false} TargetMoves(l: Listing, fs: Files, i: nat)
    requires l.Stored() && l.HoldsTorrent(fs) && l.NoExcludedTargets()
    requires i < |l.manifest| && l.Moving(i) && l.Path(i) in fs
    ensures l.Path(i) in l.TheBook().moving
  {
    var j :| 0 <= j < |l.manifest| && l.Place(j) == l.Path(i);
    if l.Moving(j) {
      PlanIsMove(l, j);
    } else {
      EffectiveDiffer(l.manifest, l.overrides, i, j);
    }
  }

  lemma {:induction false} ExclusionsHeld(l: Listing, fs: Files)
    requires l.HoldsTorrent(fs)
    ensures ExclusionsMatch(l.Plans(), fs)
  {
  }

  /** A complete copy is a fresh disk for the plan exactly if no file is to replace an excluded one. */
  lemma {:induction false} FreshExact(l: Listing, fs: Files)
    requires l.Stored() && l.NamesFree(fs) && l.HoldsTorrent(fs)
    ensures Fresh(l.TheBook(), l.Plans(), fs) <==> l.NoExcludedTargets()
  {
    DisjointExact(l, fs);
    ExclusionsHeld(l, fs);
    if l.NoExcludedTargets() {
      var book := l.TheBook();
      forall s | s in book.moving
        ensures && s in fs && IsFile(fs[s], book.Size(s)) && book.Temp(s) !in fs
                && (book.Target(s) in fs ==> book.Target(s) in book.moving)
      {
        var i := MoveIsPlan(l, s);
        if l.Path(i) in fs {
          TargetMoves(l, fs, i);
        }
      }
    }
  }

  lemma {:induction false} ReadableExact(l: Listing, fs: Files)
    requires l.Stored() && forall p :: p in fs ==> fs[p].kind.Regular?
    ensures Readable(l.hash, l.Plans(), fs) <==> l.ValidPlans()
  {
    if l.ValidPlans() {
      forall i | 0 <= i < |l.Plans()| ensures ReadablePlan(l.hash, l.Plans(), i, fs) {
        assert ValidPlan(PlanAt(l.manifest, l.overrides, i));
        NotYetPlanned(l, i);
      }
    } else {
      var i :| 0 <= i < |l.manifest| && !ValidPlan(PlanAt(l.manifest, l.overrides, i));
      assert !ReadablePlan(l.hash, l.Plans(), i, fs);
    }
  }

  lemma {:induction false} PlannedBefore(l: Listing, n: nat, s: string) returns (j: nat)
    requires n <= |l.manifest| && s in BookUpTo(l.hash, l.Plans(), n).moving
    ensures j < n && l.Place(j) == s
  {
    BookValid(l.hash, l.Plans(), n);
    j := BookMember(l.hash, l.Plans(), n, s);
    assert BookUpTo(l.hash, l.Plans(), n).moving[s].plan.original == s;
  }

  lemma {:induction false} NotYetPlanned(l: Listing, i: nat)
    requires l.Stored() && i < |l.manifest|
    ensures l.Plans()[i].original !in BookUpTo(l.hash, l.Plans(), i).moving
  {
    if l.Place(i) in BookUpTo(l.hash, l.Plans(), i).moving {
      var j := PlannedBefore(l, i, l.Place(i));
    }
  }

  /** A file that is to replace an excluded one of the same copy is refused. */
  lemma {:induction false} ReplacingIsRefused(l: Listing, fs: Files)
    requires l.Stored() && l.NamesFree(fs) && l.HoldsTorrent(fs) && !l.NoExcludedTargets()
    ensures !Accepts(l.hash, l.Plans(), fs)
  {
    var book := l.TheBook();
    var i, j := ReplacedBy(l);
    PlanIsMove(l, i);
    if l.Path(i) in book.moving {
      var k := MoveIsPlan(l, l.Path(i));
    }
    assert !book.Clear(fs, l.Place(i));
  }

  /** The first verification of a complete copy can apply its plan exactly if the plans are valid and no file is to
      replace an excluded one. */
  lemma {:induction false} FirstIsReady(l: Listing, fs: Files)
    requires l.Stored() && l.NamesFree(fs) && l.HoldsTorrent(fs)
    ensures Ready(l.hash, l.Plans(), fs) <==> l.ValidPlans() && l.NoExcludedTargets()
    ensures Accepts(l.hash, l.Plans(), fs) <==> l.ValidPlans() && l.NoExcludedTargets()
  {
    ReadableExact(l, fs);
    if !l.NoExcludedTargets() {
      ReplacingIsRefused(l, fs);
    } else if l.ValidPlans() {
      FreshExact(l, fs);
      FreshAccepted(l.hash, l.Plans(), fs);
    }
  }

  lemma {:induction false} MovedIsFound(l: Listing, before: Files, after: Files)
    requires l.Stored() && l.NamesFree(before) && Moved(l.TheBook(), l.Plans(), before, after)
    ensures l.Finds(before, after)
  {
    forall i | 0 <= i < |l.manifest| && l.Selected(i) ensures Lookup(after, l.Path(i)) == Lookup(before, l.Place(i)) {
      if l.Moving(i) {
        PlanIsMove(l, i);
      } else {
        UnmovedStays(l, before, i);
      }
    }
  }

  /** Verification applies the plan each time it looks, while it waits for the copy and again afterwards. If no stored
      path of a moved file is the place of another moved or an excluded file, then from the first application on that
      goes all the way, whatever happens to the later ones, each selected file is where verification expects it. */
  lemma {:induction false} VerificationFindsFiles(l: Listing, disks: seq<Files>, prs: seq<Progress>, k: nat, n: nat)
    requires l.Stored() && l.NoChains() && l.NoExcludedTargets()
    requires |disks| == |prs| + 1 && k < n <= |prs|
    requires l.NamesFree(disks[0]) && l.HoldsTorrent(disks[0])
    requires forall i {:trigger prs[i]} :: 0 <= i < |prs| ==>
               Reached(l.TheBook(), l.Plans(), disks[i], disks[i + 1], prs[i])
    requires Finished(l.TheBook(), l.Plans(), disks[k], prs[k])
    ensures l.Finds(disks[0], disks[n])
  {
    FreshExact(l, disks[0]);
    ChainsExact(l);
    ChainlessRuns(l.TheBook(), l.Plans(), disks, prs);
    RunsFinishedIsMoved(l.TheBook(), l.Plans(), disks, prs, k, n);
    MovedIsFound(l, disks[0], disks[n]);
  }

  lemma {:induction false} AppliedFinds(l: Listing, origin: Files, once: Files, twice: Files)
    requires l.Stored() && l.NoChains() && l.NoExcludedTargets() && l.NamesFree(origin) && l.HoldsTorrent(origin)
    requires Applied(l.TheBook(), l.Plans(), origin, once)
    ensures l.Finds(origin, once)
    ensures Applied(l.TheBook(), l.Plans(), once, twice) ==> l.Finds(origin, twice)
  {
    var first :| Reached(l.TheBook(), l.Plans(), origin, once, first)
      && Finished(l.TheBook(), l.Plans(), origin, first);
    VerificationFindsFiles(l, [origin, once], [first], 0, 1);
    if Applied(l.TheBook(), l.Plans(), once, twice) {
      var second :| Reached(l.TheBook(), l.Plans(), once, twice, second)
                    && Finished(l.TheBook(), l.Plans(), once, second);
      VerificationFindsFiles(l, [origin, once, twice], [first, second], 0, 2);
    }
  }

  lemma {:induction false} NextIsReady(l: Listing, origin: Files, once: Files)
    requires l.Stored() && l.Repeatable() && l.NamesFree(origin) && l.HoldsTorrent(origin)
    requires Applied(l.TheBook(), l.Plans(), origin, once)
    ensures Ready(l.hash, l.Plans(), once)
  {
    var book, plans := l.TheBook(), l.Plans();
    var first :| Reached(book, plans, origin, once, first) && Finished(book, plans, origin, first);
    FirstIsReady(l, origin);
    FreshExact(l, origin);
    ChainsExact(l);
    FinishedLayout(book, plans, origin, once, first);
    NoRefillWithoutChains(book, book.moving.Keys);
    InterruptedIsAccepted(l.hash, plans, origin, once, book.moving.Keys, book.moving.Keys, Excluded(plans));
  }

  lemma {:induction false} ReadyMeansPresent(hash: string, plans: seq<FilePlan>, fs: Files)
    requires Ready(hash, plans, fs)
    ensures forall s :: s in BookOf(hash, plans).Unstaged(fs) ==> s in fs
  {
  }

  lemma {:induction false} MisplacedIsMissed(l: Listing, origin: Files, fs: Files, s: string)
    requires s in l.TheBook().moving && Lookup(fs, l.TheBook().Target(s)) != Lookup(origin, s)
    ensures !l.Finds(origin, fs)
  {
    var i := MoveIsPlan(l, s);
    assert l.Selected(i);
  }

  lemma {:induction false} DifferingMoves(l: Listing, fs: Files)
    requires l.Differing(fs)
    ensures Distinct(l.TheBook(), fs)
  {
  }

  /** With a chain, the first application leaves a disk from which verification cannot go on, or goes wrong. */
  lemma {:induction false} ChainStops(l: Listing, origin: Files)
    requires l.Stored() && l.NoExcludedTargets() && !l.NoChains()
    requires l.NamesFree(origin) && l.HoldsTorrent(origin) && l.Differing(origin)
    ensures !l.KeepsFinding(origin)
  {
    var book, plans := l.TheBook(), l.Plans();
    FreshExact(l, origin);
    ChainsExact(l);
    DifferingMoves(l, origin);
    var once := ApplicationExists(book, plans, origin);
    if Ready(l.hash, plans, once) {
      ReadyMeansPresent(l.hash, plans, once);
      var twice := ApplicationExists(book, plans, once);
      var q :| q in book.moving && book.Target(q) in book.moving;
      SecondApplicationMisplaces(l, origin, once, twice, q);
    }
  }

  lemma {:induction false} SecondApplicationMisplaces(l: Listing, origin: Files, once: Files, twice: Files, q: string)
    requires Fresh(l.TheBook(), l.Plans(), origin) && Distinct(l.TheBook(), origin)
    requires Applied(l.TheBook(), l.Plans(), origin, once) && Applied(l.TheBook(), l.Plans(), once, twice)
    requires q in l.TheBook().moving && l.TheBook().Target(q) in l.TheBook().moving
    ensures !l.Finds(origin, twice)
  {
    var book, plans := l.TheBook(), l.Plans();
    var first :| Reached(book, plans, origin, once, first) && Finished(book, plans, origin, first);
    var second :| Reached(book, plans, once, twice, second) && Finished(book, plans, once, second);
    var i := MoveIsPlan(l, q);
    SecondRunMisplaces(book, plans, origin, once, twice, first, second, book.Target(q), q);
    MisplacedIsMissed(l, origin, twice, book.Target(q));
  }

  /** The condition is exact. From a complete copy of files that differ, verification can apply the plan, finds the
      selected files, can apply it again and finds them again, if and only if the plans are valid and no stored path of
      a moved file is the place of another moved or an excluded file. */
  lemma {:induction false} RepeatedVerificationExact(l: Listing, origin: Files)
    requires l.Stored() && l.NamesFree(origin) && l.HoldsTorrent(origin) && l.Differing(origin)
    ensures l.KeepsFinding(origin) <==> l.Repeatable()
  {
    FirstIsReady(l, origin);
    if l.Repeatable() {
      forall once | Applied(l.TheBook(), l.Plans(), origin, once)
        ensures && l.Finds(origin, once) && Ready(l.hash, l.Plans(), once)
                && forall twice :: Applied(l.TheBook(), l.Plans(), once, twice) ==> l.Finds(origin, twice)
      {
        NextIsReady(l, origin, once);
        AppliedFinds(l, origin, once, once);
        forall twice | Applied(l.TheBook(), l.Plans(), once, twice) ensures l.Finds(origin, twice) {
          AppliedFinds(l, origin, once, twice);
        }
      }
    } else if l.NoExcludedTargets() && !l.NoChains() {
      ChainStops(l, origin);
    }
  }

  // ---- From a disk that follows the table ------------------------------------------------------

  lemma {:induction false} PlaceTaken(l: Listing, fs: Files, j: nat) returns (i: nat)
    requires l.Stored() && l.HoldsSelected(fs) && j < |l.manifest| && l.Place(j) in fs
    ensures i < |l.manifest| && l.Selected(i) && l.Path(i) == l.Place(j) && (l.Moving(i) || i == j)
  {
    i :| 0 <= i < |l.manifest| && l.Selected(i) && l.Path(i) == l.Place(j);
  }

  lemma {:induction false} MovedPlacesFree(l: Listing, fs: Files)
    requires l.Stored() && l.NoChains() && l.NamesFree(fs) && l.HoldsSelected(fs)
    ensures forall s :: s in l.TheBook().moving ==> s !in fs && l.TheBook().Completed(fs, s)
  {
    forall s | s in l.TheBook().moving ensures s !in fs && l.TheBook().Completed(fs, s) {
      var j := MoveIsPlan(l, s);
      if s in fs {
        var i := PlaceTaken(l, fs, j);
      }
    }
  }

  lemma {:induction false} ExcludedPlacesFree(l: Listing, fs: Files)
    requires l.Stored() && l.NoExcludedTargets() && l.HoldsSelected(fs)
    ensures forall x :: x in Excluded(l.Plans()) ==> x !in fs
  {
    forall x | x in Excluded(l.Plans()) ensures x !in fs {
      var j := ExcludedPlace(l, x);
      if x in fs {
        var i := PlaceTaken(l, fs, j);
      }
    }
  }

  /** Nothing is left to stage or publish; a run can only remove. */
  lemma {:induction false} OnlyRemoves(l: Listing, fs: Files, after: Files, pr: Progress)
    requires l.Stored() && l.NoChains() && l.NamesFree(fs) && l.HoldsSelected(fs)
    requires Reached(l.TheBook(), l.Plans(), fs, after, pr)
    ensures after == fs - pr.removed
  {
    MovedPlacesFree(l, fs);
    NothingPending(l.TheBook(), fs);
    NothingStagedNow(l.TheBook(), fs, pr.afterStaging);
    NothingPublishedNow(l.TheBook(), pr.afterStaging, pr.afterPublishing);
  }

  lemma {:induction false} NothingPending(book: Book, fs: Files)
    requires forall s :: s in book.moving ==> book.Completed(fs, s)
    ensures book.Pending(fs) == {} && book.Unstaged(fs) == {}
  {
  }

  /** Once every selected file is at its stored path, however it came there, no run of the plan changes anything,
      wherever it stops. */
  lemma {:induction false} ReverificationIsIdle(l: Listing, fs: Files, after: Files, pr: Progress)
    requires l.Stored() && l.NoChains() && l.NoExcludedTargets() && l.NamesFree(fs) && l.HoldsSelected(fs)
    requires Reached(l.TheBook(), l.Plans(), fs, after, pr)
    ensures after == fs
  {
    OnlyRemoves(l, fs, after, pr);
    ExcludedPlacesFree(l, fs);
  }

  lemma {:induction false} MatchingIsReady(l: Listing, fs: Files)
    requires l.Stored() && l.ValidPlans() && l.NoChains() && l.NamesFree(fs) && l.HoldsSelected(fs)
    requires ExclusionsMatch(l.Plans(), fs)
    ensures Ready(l.hash, l.Plans(), fs)
  {
    MovedPlacesFree(l, fs);
    ReadableExact(l, fs);
    forall s | s in l.TheBook().moving ensures l.TheBook().Clear(fs, s) {
      assert l.TheBook().Completed(fs, s);
    }
  }

  lemma {:induction false} StoredIsReady(l: Listing, fs: Files)
    requires l.Stored() && l.Repeatable() && l.NamesFree(fs) && l.HoldsSelected(fs)
    ensures Ready(l.hash, l.Plans(), fs)
  {
    ExcludedPlacesFree(l, fs);
    ExclusionsFree(l.Plans(), fs);
    MatchingIsReady(l, fs);
  }

  lemma {:induction false} ExclusionsFree(plans: seq<FilePlan>, fs: Files)
    requires forall x :: x in Excluded(plans) ==> x !in fs
    ensures ExclusionsMatch(plans, fs)
  {
    forall i | 0 <= i < |plans| && plans[i].priority == 0 ensures plans[i].original !in fs {
      assert plans[i].original in Excluded(plans);
    }
  }

  /** A file at the place of an excluded one is removed. */
  lemma {:induction false} ReplacedIsRemoved(l: Listing, fs: Files, after: Files)
    requires l.Stored() && l.HoldsSelected(fs) && !l.NoExcludedTargets() && Applied(l.TheBook(), l.Plans(), fs, after)
    ensures after != fs
  {
    var i, j := ReplacedBy(l);
    PlaceExcluded(l, j);
    assert l.Path(i) in fs && l.Path(i) !in after;
  }

  /** A file at the place of another moved one is taken for it and moved on. */
  lemma {:induction false} ChainedIsMovedOn(l: Listing, fs: Files, after: Files)
    requires l.Stored() && l.NamesFree(fs) && l.HoldsSelected(fs) && l.Differing(fs) && l.NoExcludedTargets()
    requires !l.NoChains() && Applied(l.TheBook(), l.Plans(), fs, after)
    ensures after != fs
  {
    var book := l.TheBook();
    var pr :| Reached(book, l.Plans(), fs, after, pr) && Finished(book, l.Plans(), fs, pr);
    var i, j :| 0 <= i < |l.manifest| && 0 <= j < |l.manifest| && l.Moving(i) && l.Moving(j) && l.Path(i) == l.Place(j);
    PlanIsMove(l, j);
    DisjointExact(l, fs);
    var s := l.Place(j);
    assert s in fs && s in book.Unstaged(fs);
    UnstagedArrives(book, l.Plans(), fs, after, pr, s);
    assert l.Path(j) in fs && l.Path(j) != s;
  }

  lemma {:induction false} UnstagedArrives(book: Book, plans: seq<FilePlan>, fs: Files, after: Files, pr: Progress,
                                           s: string)
    requires Disjoint(book, plans) && Reached(book, plans, fs, after, pr) && Finished(book, plans, fs, pr)
    requires s in book.moving && s in fs && book.Temp(s) !in fs
    ensures Lookup(after, book.Target(s)) == Lookup(fs, s)
  {
    assert s in pr.staged && s in pr.published;
    assert Lookup(pr.afterStaging, book.Temp(s)) == Lookup(fs, s);
    assert Lookup(pr.afterPublishing, book.Target(s)) == Lookup(pr.afterStaging, book.Temp(s));
  }

  /** With files that differ, each at its stored path, verification can apply its plan again and changes nothing if and
      only if the plans are valid and no stored path of a moved file is the place of another moved or an excluded
      file. */
  lemma {:induction false} ReverificationExact(l: Listing, fs: Files)
    requires l.Stored() && l.NamesFree(fs) && l.HoldsSelected(fs) && l.Differing(fs)
    ensures l.Settled(fs) <==> l.Repeatable()
  {
    if l.Repeatable() {
      StoredIsReady(l, fs);
      forall after | Applied(l.TheBook(), l.Plans(), fs, after) ensures after == fs {
        var pr :| Reached(l.TheBook(), l.Plans(), fs, after, pr) && Finished(l.TheBook(), l.Plans(), fs, pr);
        ReverificationIsIdle(l, fs, after, pr);
      }
    } else {
      ReadableExact(l, fs);
      if l.ValidPlans() && Ready(l.hash, l.Plans(), fs) {
        BookSeparate(l, fs);
        ReadyMeansPresent(l.hash, l.Plans(), fs);
        var after := ApplicationExists(l.TheBook(), l.Plans(), fs);
        if l.NoExcludedTargets() {
          ChainedIsMovedOn(l, fs, after);
        } else {
          ReplacedIsRemoved(l, fs, after);
        }
      }
    }
  }

  // ---- After a folder rename -------------------------------------------------------------------

  /** The listing that a folder rename starts from, and the one that it stores. */
  function Listed(q: R.Request): Listing { Listing(q.hash, q.manifest, q.overrides) }

  function Relisted(q: R.Request): Listing { Listing(q.hash, q.manifest, q.Next()) }

  lemma {:induction false} RelistedPath(q: R.Request, i: nat)
    requires i < |q.manifest|
    ensures Relisted(q).Path(i) == q.NewPath(i) && Relisted(q).Selected(i) == q.Selected(i)
  {
    RefolderedEffective(q.manifest, q.overrides, q.from, q.to, i);
  }

  lemma {:induction false} WhatRemains(q: R.Request, before: Files, after: Files, p: string) returns (i: nat)
    requires ConflictFree(q.manifest, q.overrides) && Listed(q).HoldsSelected(before)
    requires Moved(q.TheBook(), q.Plans(), before, after) && p in after
    ensures i < |q.manifest| && q.Selected(i) && q.NewPath(i) == p
  {
    var book := q.TheBook();
    R.NothingExcluded(q);
    if book.IsTarget(book.moving.Keys, p) {
      var s :| s in book.moving && book.Target(s) == p;
      i := R.BookSource(q, s);
    } else {
      assert Lookup(after, p) == Lookup(before, p);
      i :| 0 <= i < |q.manifest| && Listed(q).Selected(i) && Listed(q).Path(i) == p;
      if q.Planned(i) {
        R.BookHasPlanned(q, i);
      }
    }
  }

  /** A folder rename that succeeds on disk and in the table leaves each selected file at its stored path, and nothing
      else. */
  lemma {:induction false} RenameKeepsHolding(q: R.Request, before: Files, after: Files)
    requires ConflictFree(q.manifest, q.overrides) && ConflictFree(q.manifest, q.Next()) && q.NamesFree(before)
    requires Listed(q).HoldsSelected(before) && Moved(q.TheBook(), q.Plans(), before, after)
    ensures Relisted(q).HoldsSelected(after)
  {
    R.DiskFollowsTable(q, before, after);
    forall i | 0 <= i < |q.manifest| && Relisted(q).Selected(i)
      ensures Relisted(q).Path(i) in after && IsFile(after[Relisted(q).Path(i)], q.manifest[i].size)
    {
      RelistedPath(q, i);
      assert q.Selected(i) && Listed(q).Selected(i);
    }
    forall p | p in after
      ensures exists i :: 0 <= i < |q.manifest| && Relisted(q).Selected(i) && Relisted(q).Path(i) == p
    {
      var i := WhatRemains(q, before, after, p);
      RelistedPath(q, i);
    }
  }

  // ---- A file that replaces an excluded one ----------------------------------------------------

  /** Two files of one size; the first is renamed away and excluded, the second takes its path. */
  function Replacing(hash: string, a: string, b: string, x: string, size: int): Listing {
    Listing(hash, [File(a, size), File(b, size)], map[0 := Override(x, 0), 1 := Override(a, 1)])
  }

  predicate NamesApart(hash: string, a: string, b: string, x: string, size: int) {
    && a != b && a != x && b != x
    && Replacing(hash, a, b, x, size).Temp(0) !in {a, b, x} && Replacing(hash, a, b, x, size).Temp(1) !in {a, b, x}
  }

  predicate ReplacingNames(hash: string, a: string, b: string, x: string, size: int) {
    && hash != "" && size >= 0 && GoodComponent(a) && GoodComponent(b) && GoodComponent(x)
    && NamesApart(hash, a, b, x, size)
  }

  lemma {:induction false} ComponentsApart(a: string, b: string)
    requires GoodComponent(a) && GoodComponent(b) && a != b
    ensures !PathConflicts(a, b) && !PathConflicts(b, a) && ValidManifestPath(a)
  {
    SplitWhole(a);
    SplitWhole(b);
    ConflictIsPrefix(a, b);
    ConflictsSymmetric(a, b);
    GoodComponentsMakeValidPath([a]);
    assert Join([a]) == a;
  }

  /** The table is free of conflicts, valid and without chains. */
  lemma {:induction false} ReplacingTable(hash: string, a: string, b: string, x: string, size: int)
    requires ReplacingNames(hash, a, b, x, size)
    ensures var l := Replacing(hash, a, b, x, size);
            && l.Stored() && SomeSelected(l.manifest, l.overrides)
            && l.ValidPlans() && l.NoChains() && !l.NoExcludedTargets()
  {
    var l := Replacing(hash, a, b, x, size);
    ComponentsApart(a, b);
    ComponentsApart(b, x);
    ComponentsApart(x, a);
    assert l.Path(0) == x && l.Path(1) == a && !l.Selected(0) && l.Moving(1);
    assert l.Path(1) == l.Place(0);
  }

  /** The store accepts the two renames and the exclusion that lead to it, one after the other. */
  lemma {:induction false} ReplacingIsStored(hash: string, a: string, b: string, x: string, size: int)
    requires ReplacingNames(hash, a, b, x, size)
    ensures var l, first := Replacing(hash, a, b, x, size), map[0 := Override(x, 1)];
            var second := first[1 := Override(a, 1)];
            && ConflictFree(l.manifest, map[]) && FileTables.Clear(l.manifest, map[], 0, x)
            && FileTables.Clear(l.manifest, first, 1, a)
            && l.overrides == Prioritized(l.manifest, second, [0], 0)
  {
    ComponentsApart(a, b);
    ComponentsApart(b, x);
    ComponentsApart(x, a);
  }

  function CopyOf(a: string, b: string, size: int, c: int, d: int): Files {
    map[a := Entry(Regular, c, size), b := Entry(Regular, d, size)]
  }

  /** The copy of this torrent is never verified: its plan is refused. */
  lemma {:induction false} ReplacingNeverStarts(hash: string, a: string, b: string, x: string, size: int, c: int,
                                                d: int)
    requires ReplacingNames(hash, a, b, x, size)
    ensures var l, origin := Replacing(hash, a, b, x, size), CopyOf(a, b, size, c, d);
            l.HoldsTorrent(origin) && l.NamesFree(origin) && !Accepts(hash, l.Plans(), origin)
  {
    var l, origin := Replacing(hash, a, b, x, size), CopyOf(a, b, size, c, d);
    ReplacingTable(hash, a, b, x, size);
    ReplacingHolds(hash, a, b, x, size, c, d);
    ReplacingNamesFree(hash, a, b, x, size, origin);
    ReplacingIsRefused(l, origin);
  }

  lemma {:induction false} ReplacingPaths(hash: string, a: string, b: string, x: string, size: int)
    ensures var l := Replacing(hash, a, b, x, size);
            && l.Place(0) == a && l.Place(1) == b && l.Path(0) == x && l.Path(1) == a && !l.Selected(0) && l.Selected(1)
  {
  }

  lemma {:induction false} ReplacingNamesFree(hash: string, a: string, b: string, x: string, size: int, fs: Files)
    requires NamesApart(hash, a, b, x, size) && fs.Keys <= {a, b}
    ensures Replacing(hash, a, b, x, size).NamesFree(fs)
  {
    var l := Replacing(hash, a, b, x, size);
    ReplacingPaths(hash, a, b, x, size);
    forall i, j | 0 <= i < 2 && 0 <= j < 2 ensures l.Temp(i) !in fs && l.Temp(i) !in {l.Place(j), l.Path(j)} {
      assert l.Temp(i) !in {a, b, x} && l.Place(j) in {a, b} && l.Path(j) in {a, x};
    }
  }

  lemma {:induction false} ReplacingHolds(hash: string, a: string, b: string, x: string, size: int, c: int, d: int)
    requires NamesApart(hash, a, b, x, size)
    ensures var l := Replacing(hash, a, b, x, size);
            && l.HoldsTorrent(CopyOf(a, b, size, c, d))
            && l.HoldsSelected(map[a := Entry(Regular, d, size)])
  {
    ReplacingPaths(hash, a, b, x, size);
  }

  lemma {:induction false} ReplacingFinds(hash: string, a: string, b: string, x: string, size: int, c: int, d: int)
    requires NamesApart(hash, a, b, x, size)
    ensures var l, origin := Replacing(hash, a, b, x, size), CopyOf(a, b, size, c, d);
            var fs: Files := map[a := Entry(Regular, d, size)];
            && l.Finds(origin, fs) && !l.Finds(origin, map[])
            && ExclusionsMatch(l.Plans(), fs) && a in Excluded(l.Plans())
  {
    ReplacingPaths(hash, a, b, x, size);
    PlaceExcluded(Replacing(hash, a, b, x, size), 0);
  }

  /** With the selected file already at its stored path, the plan is accepted and goes all the way, and the file is
      gone. */
  lemma {:induction false} ReplacingLosesContent(hash: string, a: string, b: string, x: string, size: int, c: int,
                                                 d: int)
    requires ReplacingNames(hash, a, b, x, size)
    ensures var l, origin := Replacing(hash, a, b, x, size), CopyOf(a, b, size, c, d);
            var fs: Files := map[a := Entry(Regular, d, size)];
            && l.HoldsSelected(fs) && l.Finds(origin, fs) && Ready(hash, l.Plans(), fs)
            && Applied(l.TheBook(), l.Plans(), fs, map[]) && !l.Finds(origin, map[])
  {
    var l, fs: Files := Replacing(hash, a, b, x, size), map[a := Entry(Regular, d, size)];
    ReplacingTable(hash, a, b, x, size);
    ReplacingHolds(hash, a, b, x, size, c, d);
    ReplacingNamesFree(hash, a, b, x, size, fs);
    ReplacingFinds(hash, a, b, x, size, c, d);
    MatchingIsReady(l, fs);
    BookSeparate(l, fs);
    ReadyMeansPresent(hash, l.Plans(), fs);
    var after := ApplicationExists(l.TheBook(), l.Plans(), fs);
    var pr :| Reached(l.TheBook(), l.Plans(), fs, after, pr) && Finished(l.TheBook(), l.Plans(), fs, pr);
    OnlyRemoves(l, fs, after, pr);
    assert after == map[];
  }
}
