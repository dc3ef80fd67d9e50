/** Renaming a folder of a completed torrent: first the files on disk, then the stored paths
    (internal/httpapi/torrents.go). */
module FolderRenames {
  import opened Paths
  import opened FilePlans
  import opened FilePlanTheorems
  import opened FileTables

  // ---- The plans -------------------------------------------------------------------------------

  /** What the handler reads before it acts: the file list with its overrides, and the two folder names. */
  datatype Request = Request(hash: string, manifest: seq<File>, overrides: map<int, Override>, from: string,
                             to: string) {

    function Path(i: nat): string
      requires i < |manifest|
    {
      EffectiveOf(manifest, overrides, i).path
    }

    predicate Selected(i: nat)
      requires i < |manifest|
    {
      EffectiveOf(manifest, overrides, i).priority != 0
    }

    function NewPath(i: nat): string
      requires i < |manifest|
    {
      Rewrite(Path(i), from, to)
    }

    /** A selected file whose path the rename changes. */
    predicate Planned(i: nat)
      requires i < |manifest|
    {
      NewPath(i) != Path(i) && Selected(i)
    }

    function PlanOf(i: nat): FilePlan
      requires i < |manifest|
    {
      FilePlan(i, Path(i), NewPath(i), 1, manifest[i].size)
    }

    function PlansUpTo(n: nat): seq<FilePlan>
      requires n <= |manifest|
    {
      if n == 0 then [] else PlansUpTo(n - 1) + if Planned(n - 1) then [PlanOf(n - 1)] else []
    }

    function Plans(): seq<FilePlan> { PlansUpTo(|manifest|) }

    function TheBook(): Book { BookOf(hash, Plans()) }

    /** The overrides that the table stores if it agrees to the rename. */
    function Next(): map<int, Override> { Refoldered(manifest, overrides, from, to) }

    /** What a caller can check beforehand: both names are acceptable to the table, and no two paths of the list, the
        excluded files included, conflict after the rename. */
    predicate Guard() {
      PlainPath(from) && PlainPath(to) && ConflictFree(manifest, Next())
    }

    /** Every selected file is on disk at its stored path, with its size. */
    predicate DiskHolds(fs: Files) {
      forall i :: 0 <= i < |manifest| && Selected(i) ==> Path(i) in fs && IsFile(fs[Path(i)], manifest[i].size)
    }

    /** The private names of the plans are unused: on disk, before the rename and after it. */
    predicate NamesFree(fs: Files) {
      forall i, j :: 0 <= i < |manifest| && 0 <= j < |manifest| ==>
        TempName(hash, PlanOf(i)) !in fs && TempName(hash, PlanOf(i)) !in {Path(j), NewPath(j)}
    }

    /** No two selected files have the same content. */
    predicate Differing(fs: Files) {
      forall i, j :: 0 <= i < j < |manifest| && Selected(i) && Selected(j) ==>
        Lookup(fs, Path(i)) != Lookup(fs, Path(j))
    }

    /** With these stored overrides, each selected file's old content is at its stored path. */
    predicate Agrees(stored: map<int, Override>, before: Files, after: Files) {
      forall i :: 0 <= i < |manifest| && Selected(i) ==>
        Lookup(after, EffectiveOf(manifest, stored, i).path) == Lookup(before, Path(i))
    }
  }

  method CompletedFolderPlans(q: Request) returns (plans: seq<FilePlan>)
    ensures plans == q.Plans()
  {
    plans := [];
    for i := 0 to |q.manifest|
      invariant plans == q.PlansUpTo(i)
    {
      var current, priority := q.manifest[i].path, 1;
      if i in q.overrides {
        current, priority := q.overrides[i].path, q.overrides[i].priority;
      }
      var effective := current;
      if current == q.from {
        effective := q.to;
      } else if q.from + "/" <= current {
        effective := q.to + current[|q.from|..];
      }
      if effective != current && priority != 0 {
        plans := plans + [FilePlan(i, current, effective, 1, q.manifest[i].size)];
      }
    }
  }

  lemma {:induction false} PlanMembers(q: Request, n: nat, plan: FilePlan)
    requires n <= |q.manifest|
    ensures plan in q.PlansUpTo(n) <==> exists i :: 0 <= i < n && q.Planned(i) && plan == q.PlanOf(i)
  {
    if n > 0 {
      PlanMembers(q, n - 1, plan);
    }
  }

  // ---- The book of the plans -------------------------------------------------------------------

  /** A source in the book is the stored path of one planned file. */
  lemma {:induction false} BookSource(q: Request, s: string) returns (i: nat)
    requires s in q.TheBook().moving
    ensures i < |q.manifest| && q.Planned(i) && s == q.Path(i)
    ensures q.TheBook().moving[s] == Move(q.PlanOf(i), TempName(q.hash, q.PlanOf(i)))
  {
    var plans := q.Plans();
    var k := BookMember(q.hash, plans, |plans|, s);
    BookValid(q.hash, plans, |plans|);
    assert q.TheBook().moving[s].plan.original == s;
    PlanMembers(q, |q.manifest|, plans[k]);
    i :| 0 <= i < |q.manifest| && q.Planned(i) && plans[k] == q.PlanOf(i);
  }

  /** And every planned file is in the book under its own path. */
  lemma {:induction false} BookHasPlanned(q: Request, i: nat)
    requires ConflictFree(q.manifest, q.overrides) && i < |q.manifest| && q.Planned(i)
    ensures q.Path(i) in q.TheBook().moving
    ensures q.TheBook().moving[q.Path(i)] == Move(q.PlanOf(i), TempName(q.hash, q.PlanOf(i)))
  {
    var plans := q.Plans();
    PlanMembers(q, |q.manifest|, q.PlanOf(i));
    BookValid(q.hash, plans, |plans|);
    assert exists k :: 0 <= k < |plans| && plans[k] == q.PlanOf(i);
    var j := BookSource(q, q.Path(i));
    if i != j {
      EffectiveDiffer(q.manifest, q.overrides, i, j);
    }
  }

  lemma {:induction false} PlannedApart(q: Request, fs: Files, i: nat, j: nat)
    requires ConflictFree(q.manifest, q.overrides) && q.NamesFree(fs)
    requires i < |q.manifest| && j < |q.manifest| && q.Planned(i) && q.Planned(j)
    ensures TempName(q.hash, q.PlanOf(i)) !in {q.Path(j), q.NewPath(j)}
    ensures q.Path(i) != q.Path(j) ==>
              TempName(q.hash, q.PlanOf(i)) != TempName(q.hash, q.PlanOf(j)) && q.NewPath(i) != q.NewPath(j)
  {
    if TempName(q.hash, q.PlanOf(i)) == TempName(q.hash, q.PlanOf(j)) {
      TempsDiffer(q.hash, q.PlanOf(i), q.PlanOf(j));
    }
    if q.NewPath(i) == q.NewPath(j) {
      RewriteInjective(q.Path(i), q.Path(j), q.from, q.to);
    }
  }

  lemma {:induction false} NothingExcluded(q: Request)
    ensures Excluded(q.Plans()) == {} && forall k :: 0 <= k < |q.Plans()| ==> q.Plans()[k].priority == 1
  {
    forall plan | plan in q.Plans() ensures plan.priority == 1 {
      PlanMembers(q, |q.manifest|, plan);
    }
  }

  /** The plans of a conflict-free table never get in each other's way, whether or not the table will take the new
      paths. */
  lemma {:induction false} FolderPlanDisjoint(q: Request, fs: Files)
    requires ConflictFree(q.manifest, q.overrides) && q.NamesFree(fs)
    ensures Disjoint(q.TheBook(), q.Plans()) && q.TheBook().NoSourceTaken(fs)
  {
    var book := q.TheBook();
    NothingExcluded(q);
    forall s, t | s in book.moving && t in book.moving ensures book.Apart(s, t) {
      var i := BookSource(q, s);
      var j := BookSource(q, t);
      PlannedApart(q, fs, i, j);
    }
    forall s | s in book.moving ensures book.Temp(s) !in fs {
      var i := BookSource(q, s);
    }
  }

  lemma {:induction false} FolderPlanFresh(q: Request, fs: Files)
    requires ConflictFree(q.manifest, q.overrides) && q.NamesFree(fs) && q.DiskHolds(fs)
    requires Accepts(q.hash, q.Plans(), fs)
    ensures Fresh(q.TheBook(), q.Plans(), fs)
  {
    FolderPlanDisjoint(q, fs);
    NothingExcluded(q);
    var book := q.TheBook();
    forall s | s in book.moving
      ensures && s in fs && IsFile(fs[s], book.Size(s)) && book.Temp(s) !in fs
              && (book.Target(s) in fs ==> book.Target(s) in book.moving)
    {
      var i := BookSource(q, s);
      assert q.Selected(i) && book.Clear(fs, s);
    }
  }

  // ---- When disk and table agree ---------------------------------------------------------------

  lemma {:induction false} UnplannedStays(q: Request, before: Files, i: nat)
    requires ConflictFree(q.manifest, q.overrides) && ConflictFree(q.manifest, q.Next()) && q.NamesFree(before)
    requires i < |q.manifest| && q.Selected(i) && !q.Planned(i)
    ensures var book := q.TheBook();
            && q.Path(i) !in book.moving && !book.IsTarget(book.moving.Keys, q.Path(i))
            && !book.IsTemp(book.moving.Keys, q.Path(i))
  {
    var book := q.TheBook();
    forall s | s in book.moving ensures s != q.Path(i) && book.Target(s) != q.Path(i) && book.Temp(s) != q.Path(i) {
      var j := BookSource(q, s);
      RefolderedEffective(q.manifest, q.overrides, q.from, q.to, i);
      RefolderedEffective(q.manifest, q.overrides, q.from, q.to, j);
      EffectiveDiffer(q.manifest, q.overrides, i, j);
      EffectiveDiffer(q.manifest, q.Next(), i, j);
    }
  }

  /** When the plan went all the way and the table takes the new paths, each selected file is on disk at its new
      stored path. */
  lemma {:induction false} DiskFollowsTable(q: Request, before: Files, after: Files)
    requires ConflictFree(q.manifest, q.overrides) && ConflictFree(q.manifest, q.Next()) && q.NamesFree(before)
    requires Moved(q.TheBook(), q.Plans(), before, after)
    ensures q.Agrees(q.Next(), before, after)
  {
    NothingExcluded(q);
    forall i | 0 <= i < |q.manifest| && q.Selected(i)
      ensures Lookup(after, EffectiveOf(q.manifest, q.Next(), i).path) == Lookup(before, q.Path(i))
    {
      RefolderedEffective(q.manifest, q.overrides, q.from, q.to, i);
      if q.Planned(i) {
        BookHasPlanned(q, i);
      } else {
        UnplannedStays(q, before, i);
      }
    }
  }

  /** When the plan went all the way and the table keeps the old paths, a planned file's content is no longer at its
      stored path: the path is vacated, or another planned file has moved there. */
  lemma {:induction false} MovedButNotStored(q: Request, before: Files, after: Files)
    requires ConflictFree(q.manifest, q.overrides) && q.DiskHolds(before) && q.Differing(before)
    requires q.Plans() != [] && Moved(q.TheBook(), q.Plans(), before, after)
    ensures !q.Agrees(q.overrides, before, after)
  {
    PlanMembers(q, |q.manifest|, q.Plans()[0]);
    var i :| 0 <= i < |q.manifest| && q.Planned(i);
    BookHasPlanned(q, i);
    var book := q.TheBook();
    if book.IsTarget(book.moving.Keys, q.Path(i)) {
      var s :| s in book.moving && book.Target(s) == q.Path(i);
      var j := BookSource(q, s);
      assert i != j;
    }
    assert Lookup(after, q.Path(i)) != Lookup(before, q.Path(i));
  }

  /** Without plans the selected files keep their stored paths, whatever the table does. */
  lemma {:induction false} NoPlansNoChange(q: Request, fs: Files)
    requires q.Plans() == []
    ensures q.Agrees(q.Next(), fs, fs) && q.Agrees(q.overrides, fs, fs)
  {
    forall i | 0 <= i < |q.manifest| && q.Selected(i)
      ensures EffectiveOf(q.manifest, q.Next(), i).path == q.Path(i)
    {
      RefolderedEffective(q.manifest, q.overrides, q.from, q.to, i);
      PlanMembers(q, |q.manifest|, q.PlanOf(i));
    }
  }

  lemma {:induction false} AgreesMeansHolds(q: Request, before: Files, after: Files)
    ensures q.DiskHolds(before) && q.Agrees(q.Next(), before, after) ==> q.(overrides := q.Next()).DiskHolds(after)
  {
    var next := q.(overrides := q.Next());
    if q.DiskHolds(before) && q.Agrees(q.Next(), before, after) {
      forall i | 0 <= i < |q.manifest| && next.Selected(i)
        ensures next.Path(i) in after && IsFile(after[next.Path(i)], q.manifest[i].size)
      {
        RefolderedEffective(q.manifest, q.overrides, q.from, q.to, i);
        assert q.Selected(i);
      }
    }
  }

  /** A plan means that something lies under the folder. */
  lemma {:induction false} PlansMeanUnder(q: Request)
    requires q.Plans() != []
    ensures exists i :: 0 <= i < |q.manifest| && UnderFolder(EffectiveOf(q.manifest, q.overrides, i).path, q.from)
  {
    PlanMembers(q, |q.manifest|, q.Plans()[0]);
    var i :| 0 <= i < |q.manifest| && q.Planned(i);
    assert UnderFolder(EffectiveOf(q.manifest, q.overrides, i).path, q.from);
  }

  /** What a finished disk step means for the agreement of disk and table. */
  lemma {:induction false} AfterDiskStep(q: Request, before: Files, after: Files, pr: Progress)
    requires ConflictFree(q.manifest, q.overrides) && q.NamesFree(before) && q.DiskHolds(before)
    requires Accepts(q.hash, q.Plans(), before) && q.Plans() != []
    requires Reached(q.TheBook(), q.Plans(), before, after, pr) && Finished(q.TheBook(), q.Plans(), before, pr)
    ensures q.Guard() ==> q.Agrees(q.Next(), before, after)
    ensures q.Differing(before) ==> !q.Agrees(q.overrides, before, after)
  {
    FolderPlanFresh(q, before);
    AnyOrderRename(q.TheBook(), q.Plans(), before, after, pr);
    if q.Guard() {
      DiskFollowsTable(q, before, after);
    }
    if q.Differing(before) {
      MovedButNotStored(q, before, after);
    }
  }

  // ---- The request -----------------------------------------------------------------------------

  datatype RenameResult = Renamed | BadRequest | DiskRefused | TableRefused

  /** The handler's own check of a path; it lets through control characters above 0x7f, which the table does not. */
  predicate SafeRelativePath(p: string) {
    && p != "" && p != "." && p != ".." && !IsAbs(p) && Clean(p) == p && !("../" <= p)
    && (forall c :: c in p ==> c != '\\' && c >= ' ' && c != '\U{7f}')
    && (forall part :: part in Split(p) ==> part != "." && part != "..")
  }

  function Asked(table: FileTable, hash: string, from: string, to: string): Request
    reads table
  {
    Request(hash, table.manifest, table.overrides, from, to)
  }

  /** A failed disk step left the old disk, or one laid out by the plan. */
  ghost predicate Refused(q: Request, before: Files, after: Files, pr: Progress) {
    after == before || Layout(q.TheBook(), q.Plans(), before, after, pr.staged, pr.published, pr.removed)
  }

  lemma {:induction false} FreshIsComplete(book: Book, plans: seq<FilePlan>, fs: Files)
    requires Fresh(book, plans, fs)
    ensures Complete(book, plans, fs)
  {
  }

  lemma {:induction false} DiskStep(q: Request, before: Files, after: Files, pr: Progress, ok: bool)
    requires ConflictFree(q.manifest, q.overrides) && q.NamesFree(before) && q.DiskHolds(before)
    requires q.Plans() == [] ==> after == before
    requires q.Plans() != [] ==>
               && (ok ==> Accepts(q.hash, q.Plans(), before) && Finished(q.TheBook(), q.Plans(), before, pr))
               && (Accepts(q.hash, q.Plans(), before) ==> Reached(q.TheBook(), q.Plans(), before, after, pr))
               && (!Accepts(q.hash, q.Plans(), before) ==> after == before)
    ensures Refused(q, before, after, pr)
    ensures ok && q.Plans() != [] && q.Guard() ==> q.Agrees(q.Next(), before, after)
    ensures ok && q.Plans() != [] && q.Differing(before) ==> !q.Agrees(q.overrides, before, after)
  {
    if q.Plans() != [] && Accepts(q.hash, q.Plans(), before) {
      FolderPlanFresh(q, before);
      FreshStep(q.TheBook(), q.Plans(), before, after, pr);
      if ok {
        AfterDiskStep(q, before, after, pr);
      }
    }
  }

  /** The files on disk are renamed first. A failure leaves the old disk, or the old disk with files staged and
      published as the plan says, so that none is lost; it needs a refused plan or a fault. */
  method RenameOnDisk(disk: Disk, q: Request) returns (ok: bool, ghost pr: Progress)
    modifies disk
    ensures q.Plans() == [] ==> ok && disk.files == old(disk.files)
    ensures var before := old(disk.files);
            && q.Plans() != [] && ConflictFree(q.manifest, q.overrides)
            && q.NamesFree(before) && q.DiskHolds(before) ==>
              && (ok ==> Accepts(q.hash, q.Plans(), before) && Finished(q.TheBook(), q.Plans(), before, pr))
              && (Accepts(q.hash, q.Plans(), before) ==> Reached(q.TheBook(), q.Plans(), before, disk.files, pr))
              && (Accepts(q.hash, q.Plans(), before) && !disk.Faulted() ==> ok)
              && (!Accepts(q.hash, q.Plans(), before) ==> disk.files == before)
  {
    ghost var before := disk.files;
    pr := Progress({}, {}, {}, before, before);
    var plans := CompletedFolderPlans(q);
    if plans == [] {
      return true, pr;
    }
    if ConflictFree(q.manifest, q.overrides) && q.NamesFree(before) && q.DiskHolds(before) {
      FolderPlanDisjoint(q, before);
      if Accepts(q.hash, plans, before) {
        FolderPlanFresh(q, before);
        FreshIsComplete(q.TheBook(), plans, before);
      }
    }
    var outcome;
    ghost var begun;
    outcome, pr, begun := ApplyFilePlan(disk, q.hash, plans);
    ok := outcome == Done;
  }

  /** Files first, then the table. */
  method RenameFolder(disk: Disk, table: FileTable, hash: string, from: string, to: string)
    returns (r: RenameResult, ghost pr: Progress)
    requires ConflictFree(table.manifest, table.overrides)
    modifies disk, table`overrides
    ensures ConflictFree(table.manifest, table.overrides) && (old(table.Valid()) ==> table.Valid())
    ensures table.overrides == if r == Renamed then old(Asked(table, hash, from, to).Next()) else old(table.overrides)
    ensures r == BadRequest <==> !SafeRelativePath(from) || !SafeRelativePath(to)
    ensures r == BadRequest || !table.complete || old(Asked(table, hash, from, to).Plans()) == [] ==>
              disk.files == old(disk.files) && r != DiskRefused
    ensures table.complete && old(Asked(table, hash, from, to).Plans()) != [] && r !in {BadRequest, DiskRefused} ==>
              (r == TableRefused <==> !old(Asked(table, hash, from, to).Guard()))
    ensures var q, before := old(Asked(table, hash, from, to)), old(disk.files);
            table.complete && q.NamesFree(before) && q.DiskHolds(before) ==>
              && (r == DiskRefused ==> Refused(q, before, disk.files, pr))
              && (r == DiskRefused ==> disk.Faulted() || !Accepts(hash, q.Plans(), before))
              && (r == Renamed ==> q.Agrees(table.overrides, before, disk.files)
                                   && q.(overrides := table.overrides).DiskHolds(disk.files))
              && (r in {Renamed, TableRefused} && q.Differing(before) ==>
                   (q.Agrees(table.overrides, before, disk.files) <==> q.Plans() == [] || q.Guard()))
  {
    var q := Asked(table, hash, from, to);
    ghost var before := disk.files;
    pr := Progress({}, {}, {}, before, before);
    if !SafeRelativePath(from) || !SafeRelativePath(to) {
      return BadRequest, pr;
    }
    if table.complete {
      var ok;
      ok, pr := RenameOnDisk(disk, q);
      if q.NamesFree(before) && q.DiskHolds(before) {
        DiskStep(q, before, disk.files, pr, ok);
      }
      if !ok {
        return DiskRefused, pr;
      }
    }
    var edit := table.RenameFolder(from, to);
    if q.Plans() != [] {
      PlansMeanUnder(q);
    } else {
      NoPlansNoChange(q, before);
    }
    AgreesMeansHolds(q, before, disk.files);
    r := if edit == Edited then Renamed else TableRefused;
  }

  // ---- The table may refuse what the disk has already done -------------------------------------

  /** One selected file in folder `a` and an excluded one of the same name, absent from disk, in folder `b`. */
  function TwoFolders(hash: string, a: string, b: string, x: string): Request {
    Request(hash, [File(a + "/" + x, 1), File(b + "/" + x, 1)], map[1 := Override(b + "/" + x, 0)], a, b)
  }

  lemma {:induction false} TwoComponents(a: string, x: string)
    requires GoodComponent(a) && GoodComponent(x)
    ensures Split(a + "/" + x) == [a, x] && PlainPath(a + "/" + x)
  {
    SplitConcat(a, x);
    SplitWhole(a);
    SplitWhole(x);
  }

  lemma {:induction false} RewriteFirst(a: string, b: string, x: string)
    ensures Rewrite(a + "/" + x, a, b) == b + "/" + x
  {
  }

  lemma {:induction false} RewriteOther(a: string, b: string, x: string)
    requires GoodComponent(a) && GoodComponent(b) && GoodComponent(x) && a != b
    ensures Rewrite(b + "/" + x, a, b) == b + "/" + x
  {
    TwoComponents(b, x);
    var q := b + "/" + x;
    UnderIsPrefix(a, q);
    SplitWhole(a);
    assert Split(q) == [b, x] && Split(a) == [a];
    assert |Split(q)| != |Split(a)| && Split(q)[0] != Split(a)[0];
  }

  /** The excluded file does not stand in the way on disk, so renaming `a` to `b` moves the file; but its stored path
      stands in the way in the table, which then refuses, and keeps the old path. */
  lemma {:induction false} TableCanRefuseAfterDisk(hash: string, a: string, b: string, x: string)
    requires GoodComponent(a) && GoodComponent(b) && GoodComponent(x) && a != b
    requires TempName(hash, TwoFolders(hash, a, b, x).PlanOf(0)) !in {a + "/" + x, b + "/" + x}
    ensures var q, fs := TwoFolders(hash, a, b, x), map[a + "/" + x := Entry(Regular, 1, 1)];
            && ConflictFree(q.manifest, q.overrides) && SomeSelected(q.manifest, q.overrides) && q.DiskHolds(fs)
            && q.Plans() != [] && Fresh(q.TheBook(), q.Plans(), fs) && !q.Guard()
  {
    var q, before, after := TwoFolders(hash, a, b, x), a + "/" + x, b + "/" + x;
    TwoComponents(a, x);
    TwoComponents(b, x);
    ConflictIsPrefix(before, after);
    RewriteFirst(a, b, x);
    RewriteOther(a, b, x);
    assert q.Path(0) == before && q.Path(1) == after && q.Selected(0);
    RefolderedEffective(q.manifest, q.overrides, a, b, 0);
    RefolderedEffective(q.manifest, q.overrides, a, b, 1);
    assert PathConflicts(EffectiveOf(q.manifest, q.Next(), 0).path, EffectiveOf(q.manifest, q.Next(), 1).path);
    assert before != after by {
      assert Split(before)[0] == a && Split(after)[0] == b;
    }
    OnePlanIsFresh(q, before, after);
  }

  lemma {:induction false} OneMoveIsFresh(book: Book, plan: FilePlan, temp: string, fs: Files)
    requires plan.priority == 1 && plan.size == 1 && plan.original != plan.effective
    requires temp !in {plan.original, plan.effective}
    requires book == Book(map[plan.original := Move(plan, temp)], map[plan.effective := plan.original])
    requires fs == map[plan.original := Entry(Regular, 1, 1)]
    ensures Fresh(book, [plan], fs)
  {
  }

  lemma {:induction false} OnePlanIsFresh(q: Request, before: string, after: string)
    requires |q.manifest| == 2 && q.Path(0) == before && q.Path(1) == after && q.Selected(0) && !q.Selected(1)
    requires q.NewPath(0) == after && before != after && q.manifest[0].size == 1
    requires TempName(q.hash, q.PlanOf(0)) !in {before, after}
    ensures q.Plans() != [] && Fresh(q.TheBook(), q.Plans(), map[before := Entry(Regular, 1, 1)])
  {
    var plan := q.PlanOf(0);
    assert q.PlansUpTo(0) == [];
    assert q.PlansUpTo(1) == [plan];
    assert q.Plans() == [plan];
    BookOfOne(q.hash, plan);
    OneMoveIsFresh(q.TheBook(), plan, TempName(q.hash, plan), map[before := Entry(Regular, 1, 1)]);
  }
}
