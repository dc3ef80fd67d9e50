/** The two-phase rename plan: stage every source under a private name, publish every staged
    file at its target, then remove excluded files (internal/fsafe/plan.go). */
module FilePlans {
  import opened Paths

  datatype Kind = Regular | Symlink | Directory

  /** What lies at a path; `content` stands for the bytes. */
  datatype Entry = Entry(kind: Kind, content: int, size: int)

  type Files = map<string, Entry>

  datatype Stat = Missing | Found(entry: Entry) | Unknown

  datatype Outcome = Done | Unsafe | Conflict | IoError

  datatype FilePlan = FilePlan(index: int, original: string, effective: string, priority: int, size: int)

  /** How far a run got: sources it renamed to their private names, sources it published,
      excluded paths it removed, and the disk after the first two phases. */
  datatype Progress = Progress(staged: set<string>, published: set<string>, removed: set<string>,
                                     afterStaging: Files, afterPublishing: Files)

  function Lookup(fs: Files, p: string): Option<Entry> {
    if p in fs then Some(fs[p]) else None
  }

  predicate IsFile(e: Entry, size: int) {
    e.kind.Regular? && e.size == size
  }

  /** A directory tree without nesting: every path is a key. Each operation may fail for an outside reason;
      the two flags remember that this happened. */
  class Disk {
    var files: Files
    var statFault: bool
    var writeFault: bool

    ghost predicate Faulted() reads this { statFault || writeFault }

    method Lstat(p: string) returns (r: Stat)
      modifies this`statFault
      ensures r == Unknown || r == (if p in files then Found(files[p]) else Missing)
      ensures statFault == (old(statFault) || r == Unknown)
    {
      var fault: bool := *;
      if fault {
        statFault := true;
        return Unknown;
      }
      r := if p in files then Found(files[p]) else Missing;
    }

    method Rename(from: string, to: string) returns (ok: bool)
      modifies this`files, this`writeFault
      ensures ok ==> Renamable(old(files), from, to) && files == Renamed(old(files), from, to)
      ensures !ok ==> files == old(files)
      ensures writeFault == (old(writeFault) || (!ok && Renamable(old(files), from, to)))
    {
      var fault: bool := *;
      if !Renamable(files, from, to) {
        return false;
      }
      if fault {
        writeFault := true;
        return false;
      }
      files := Renamed(files, from, to);
      ok := true;
    }

    /** Creating the parent directories of a target; the flat disk has nothing to record. */
    method MakeParents() returns (ok: bool)
      modifies this`writeFault
      ensures writeFault == (old(writeFault) || !ok)
    {
      ok := *;
      if !ok {
        writeFault := true;
      }
    }

    method Remove(p: string) returns (ok: bool)
      modifies this`files, this`writeFault
      ensures files == if ok then old(files) - {p} else old(files)
      ensures writeFault == (old(writeFault) || !ok)
    {
      var fault: bool := *;
      if fault {
        writeFault := true;
        return false;
      }
      files := files - {p};
      ok := true;
    }
  }

  /** A rename needs its source, and replaces only what is not a directory. */
  predicate Renamable(fs: Files, from: string, to: string) {
    from in fs && !(to in fs && (fs[to].kind.Directory? || fs[from].kind.Directory?))
  }

  function Renamed(fs: Files, from: string, to: string): Files
    requires from in fs
  {
    (fs - {from})[to := fs[from]]
  }

  // ---- Reading the plan list -------------------------------------------------------------------

  function TempName(hash: string, plan: FilePlan): string {
    ".cd211-plan-" + hash + "-" + Decimal(plan.index)
  }

  /** Plans with different indexes have different private names. */
  lemma {:induction false} TempsDiffer(hash: string, p: FilePlan, q: FilePlan)
    requires TempName(hash, p) == TempName(hash, q)
    ensures p.index == q.index
  {
    var stem := ".cd211-plan-" + hash + "-";
    assert TempName(hash, p)[|stem|..] == Decimal(p.index) && TempName(hash, q)[|stem|..] == Decimal(q.index);
    DecimalInjective(p.index, q.index);
  }

  predicate ValidPlan(plan: FilePlan) {
    && ValidManifestPath(plan.original) && ValidManifestPath(plan.effective)
    && plan.size >= 0 && plan.priority in {0, 1, 6, 7}
  }

  predicate Moves(plan: FilePlan) {
    plan.priority != 0 && plan.original != plan.effective
  }

  /** A file that has to move, and the private name it is staged under. */
  datatype Move = Move(plan: FilePlan, temp: string)

  /** The bookkeeping maps: source path to move, and target path to source path. */
  datatype Book = Book(moving: map<string, Move>, sourceOf: map<string, string>) {

    function Add(hash: string, plan: FilePlan): Book {
      Book(moving[plan.original := Move(plan, TempName(hash, plan))], sourceOf[plan.effective := plan.original])
    }

    ghost predicate Valid() {
      && (forall s :: s in moving ==>
            Moves(moving[s].plan) && moving[s].plan.original == s && moving[s].plan.effective in sourceOf)
      && (forall t {:trigger sourceOf[t]} :: t in sourceOf ==> sourceOf[t] in moving)
    }

    function Temp(s: string): string
      requires s in moving
    {
      moving[s].temp
    }

    function Target(s: string): string
      requires s in moving
    {
      moving[s].plan.effective
    }

    function Size(s: string): int
      requires s in moving
    {
      moving[s].plan.size
    }

    predicate Apart(s: string, t: string)
      requires s in moving && t in moving
    {
      && Temp(s) != t && Temp(s) != Target(t)
      && (s != t ==> Temp(s) != Temp(t) && Target(s) != Target(t))
    }

    /** Private names and targets are distinct, and no private name is a source or a target. */
    ghost predicate Separate() {
      forall s, t {:trigger Apart(s, t)} :: s in moving && t in moving ==> Apart(s, t)
    }

    /** The source is gone, nothing is staged, and a file of the planned size is at the target. */
    predicate Completed(fs: Files, s: string)
      requires s in moving
    {
      && s !in fs && Temp(s) !in fs
      && Target(s) in fs && IsFile(fs[Target(s)], Size(s))
    }

    /** Source and private name are both occupied because another entry was already published onto the source. */
    predicate Republished(fs: Files, s: string)
      requires s in moving && s in fs && Temp(s) in fs
    {
      && s in sourceOf && sourceOf[s] != s && sourceOf[s] in moving
      && Temp(sourceOf[s]) !in fs && IsFile(fs[s], Size(sourceOf[s]))
      && IsFile(fs[Temp(s)], Size(s))
    }

    /** The preflight checks on one source. */
    predicate Clear(fs: Files, s: string)
      requires s in moving
    {
      && LinkFree(fs, Temp(s))
      && if s in fs && Temp(s) in fs then Republished(fs, s)
         else if s !in fs && Temp(s) !in fs && Target(s) in fs then IsFile(fs[Target(s)], Size(s))
         else
           && (s in fs ==> IsFile(fs[s], Size(s)))
           && (Temp(s) in fs ==> IsFile(fs[Temp(s)], Size(s)))
           && (Target(s) in fs ==> !fs[Target(s)].kind.Symlink? && Target(s) in moving)
    }

    /** The sources that a run starting from this disk still has to deal with. */
    ghost function Pending(fs: Files): set<string> {
      set s | s in moving && !Completed(fs, s)
    }

    /** Those of them whose file still has to leave its source path. */
    ghost function Unstaged(fs: Files): set<string> {
      set s | s in moving && !Completed(fs, s) && Temp(s) !in fs
    }

    /** No source path is occupied while its own file is already staged. */
    ghost predicate NoSourceTaken(fs: Files) {
      forall s :: s in moving ==> !(s in fs && Temp(s) in fs)
    }

    /** The path is the private name of one of the sources. */
    ghost predicate IsTemp(sources: set<string>, p: string) {
      exists s :: s in sources && s in moving && Temp(s) == p
    }

    ghost predicate IsTarget(sources: set<string>, p: string) {
      exists s :: s in sources && s in moving && Target(s) == p
    }

    /** Exactly the files of `sources` went from their source paths to their private names. */
    ghost predicate IsStaged(before: Files, after: Files, sources: set<string>)
      requires sources <= moving.Keys
    {
      && (forall s :: s in sources ==> s in before && s !in after)
      && (forall s :: s in sources ==> Lookup(after, Temp(s)) == Lookup(before, s))
      && (forall p {:trigger Lookup(after, p)} {:trigger Lookup(before, p)} ::
            p !in sources && !IsTemp(sources, p) ==> Lookup(after, p) == Lookup(before, p))
    }

    /** Exactly the files of `sources` went from their private names to their targets. */
    ghost predicate IsPublished(before: Files, after: Files, sources: set<string>)
      requires sources <= moving.Keys
    {
      && (forall s :: s in sources ==> Temp(s) in before && Temp(s) !in after)
      && (forall s :: s in sources ==> Lookup(after, Target(s)) == Lookup(before, Temp(s)))
      && (forall p {:trigger Lookup(after, p)} {:trigger Lookup(before, p)} ::
            !IsTarget(sources, p) && !IsTemp(sources, p) ==> Lookup(after, p) == Lookup(before, p))
    }

    /** A staged file can be published: it is a file, and its target is free or held by a file that is itself moving. */
    ghost predicate Publishable(fs: Files, s: string)
      requires s in moving
    {
      && Temp(s) in fs && fs[Temp(s)].kind.Regular?
      && (Target(s) in fs ==> fs[Target(s)].kind.Regular? && Target(s) in moving)
    }
  }

  /** The bookkeeping after the first `n` plans; a later plan with the same key replaces an earlier one. */
  function BookUpTo(hash: string, plans: seq<FilePlan>, n: nat): Book
    requires n <= |plans|
  {
    if n == 0 then Book(map[], map[])
    else
      var book := BookUpTo(hash, plans, n - 1);
      if Moves(plans[n - 1]) then book.Add(hash, plans[n - 1]) else book
  }

  lemma {:induction false} BookValid(hash: string, plans: seq<FilePlan>, n: nat)
    requires n <= |plans|
    ensures BookUpTo(hash, plans, n).Valid()
    ensures forall i :: 0 <= i < n && Moves(plans[i]) ==> plans[i].original in BookUpTo(hash, plans, n).moving
  {
    if n > 0 {
      BookValid(hash, plans, n - 1);
    }
  }

  lemma {:induction false} BookMember(hash: string, plans: seq<FilePlan>, n: nat, s: string) returns (i: nat)
    requires n <= |plans| && s in BookUpTo(hash, plans, n).moving
    ensures i < n && BookUpTo(hash, plans, n).moving[s] == Move(plans[i], TempName(hash, plans[i]))
  {
    if Moves(plans[n - 1]) && plans[n - 1].original == s {
      i := n - 1;
    } else {
      i := BookMember(hash, plans, n - 1, s);
    }
  }

  function BookOf(hash: string, plans: seq<FilePlan>): Book {
    BookUpTo(hash, plans, |plans|)
  }

  lemma {:induction false} BookIndexed(hash: string, plans: seq<FilePlan>)
    ensures var book := BookOf(hash, plans);
            && (forall s :: s in book.moving ==> book.Target(s) in book.sourceOf)
            && (forall t {:trigger book.sourceOf[t]} :: t in book.sourceOf ==> book.sourceOf[t] in book.moving)
  {
    BookValid(hash, plans, |plans|);
  }

  lemma {:induction false} BookOfOne(hash: string, plan: FilePlan)
    requires Moves(plan)
    ensures BookOf(hash, [plan]) ==
              Book(map[plan.original := Move(plan, TempName(hash, plan))], map[plan.effective := plan.original])
    ensures BookUpTo(hash, [plan], 0).moving == map[]
  {
    assert BookUpTo(hash, [plan], 1) == BookUpTo(hash, [plan], 0).Add(hash, plan);
  }

  function Excluded(plans: seq<FilePlan>): set<string> {
    set plan | plan in plans && plan.priority == 0 :: plan.original
  }

  /** The first plan that excludes a path finds there a file of the planned size, or nothing. */
  ghost predicate ExclusionsMatch(plans: seq<FilePlan>, fs: Files) {
    forall i :: 0 <= i < |plans| && plans[i].priority == 0 && plans[i].original in fs ==>
                  plans[i].original in Excluded(plans[..i]) || IsFile(fs[plans[i].original], plans[i].size)
  }

  predicate LinkFree(fs: Files, p: string) {
    p in fs ==> !fs[p].kind.Symlink?
  }

  /** One plan passes the checks of the first loop, given the sources of the plans before it. */
  predicate ReadablePlan(hash: string, plans: seq<FilePlan>, i: nat, fs: Files)
    requires i < |plans|
  {
    && ValidPlan(plans[i]) && LinkFree(fs, plans[i].original) && LinkFree(fs, plans[i].effective)
    && (Moves(plans[i]) ==> plans[i].original !in BookUpTo(hash, plans, i).moving)
  }

  ghost predicate Readable(hash: string, plans: seq<FilePlan>, fs: Files) {
    forall i :: 0 <= i < |plans| ==> ReadablePlan(hash, plans, i, fs)
  }

  /** The plan list and the disk pass every check made before the first rename. */
  ghost predicate Accepts(hash: string, plans: seq<FilePlan>, fs: Files) {
    && hash != "" && Readable(hash, plans, fs)
    && forall s :: s in BookOf(hash, plans).moving ==> BookOf(hash, plans).Clear(fs, s)
  }

  // ---- What a run does -------------------------------------------------------------------------

  /** Structure of the plan list, whatever is on disk: the moves are separate and no excluded path is a source, a target
      or a private name. Folder renames always have it; for the stored table it is a condition. */
  ghost predicate Disjoint(book: Book, plans: seq<FilePlan>) {
    && book.Separate()
    && (forall s :: s in book.moving ==>
          s !in Excluded(plans) && book.Temp(s) !in Excluded(plans) && book.Target(s) !in Excluded(plans))
  }

  /** Each pending file is either still at its source or already staged, and its target is free or will be vacated;
      each excluded path is free or holds a file of the planned size. */
  ghost predicate Complete(book: Book, plans: seq<FilePlan>, fs: Files) {
    && (forall s :: s in book.moving && !book.Completed(fs, s) ==> s in fs || book.Temp(s) in fs)
    && (forall s :: s in book.moving && !book.Completed(fs, s) && book.Target(s) in fs ==>
          book.Target(s) in book.moving)
    && ExclusionsMatch(plans, fs)
  }

  /** The disk `after` is what a run from `before` leaves when it stops with this progress. */
  ghost predicate Reached(book: Book, plans: seq<FilePlan>, before: Files, after: Files, pr: Progress) {
    && pr.staged <= book.Unstaged(before)
    && pr.published <= book.Pending(before)
    && pr.removed <= Excluded(plans)
    && (pr.published != {} || pr.removed != {} ==> pr.staged == book.Unstaged(before))
    && (pr.removed != {} ==> pr.published == book.Pending(before))
    && book.IsStaged(before, pr.afterStaging, pr.staged)
    && book.IsPublished(pr.afterStaging, pr.afterPublishing, pr.published)
    && after == pr.afterPublishing - pr.removed
  }

  /** The run went all the way. */
  ghost predicate Finished(book: Book, plans: seq<FilePlan>, before: Files, pr: Progress) {
    && pr.staged == book.Unstaged(before)
    && pr.published == book.Pending(before)
    && pr.removed == Excluded(plans)
  }

  // ---- The loops -------------------------------------------------------------------------------

  method SafeComponents(disk: Disk, p: string) returns (r: Outcome)
    modifies disk`statFault
    ensures r == Done ==> LinkFree(disk.files, p)
    ensures r == Unsafe ==> !LinkFree(disk.files, p)
    ensures r == Done || r == Unsafe || (r == IoError && disk.statFault)
    ensures old(disk.statFault) ==> disk.statFault
    ensures disk.statFault && !old(disk.statFault) ==> r == IoError
  {
    var stat := disk.Lstat(p);
    match stat
    case Unknown => r := IoError;
    case Missing => r := Done;
    case Found(e) => r := if e.kind.Symlink? then Unsafe else Done;
  }

  /** The first loop: validate the plans and fill the maps. */
  method Collect(disk: Disk, hash: string, plans: seq<FilePlan>) returns (r: Outcome, book: Book)
    modifies disk`statFault
    ensures old(disk.statFault) ==> disk.statFault
    ensures r == Done ==>
              && book == BookOf(hash, plans) && Readable(hash, plans, disk.files)
              && disk.statFault == old(disk.statFault)
    ensures r != Done ==> disk.statFault || !Readable(hash, plans, disk.files)
  {
    book := Book(map[], map[]);
    for i := 0 to |plans|
      invariant book == BookUpTo(hash, plans, i)
      invariant forall j :: 0 <= j < i ==> ReadablePlan(hash, plans, j, disk.files)
      invariant disk.statFault == old(disk.statFault)
    {
      var plan := plans[i];
      if !ValidPlan(plan) {
        assert !ReadablePlan(hash, plans, i, disk.files);
        return Unsafe, book;
      }
      r := SafeComponents(disk, plan.original);
      if r != Done {
        assert disk.statFault || !ReadablePlan(hash, plans, i, disk.files);
        return;
      }
      r := SafeComponents(disk, plan.effective);
      if r != Done {
        assert disk.statFault || !ReadablePlan(hash, plans, i, disk.files);
        return;
      }
      if Moves(plan) {
        if plan.original in book.moving {
          assert !ReadablePlan(hash, plans, i, disk.files);
          return Conflict, book;
        }
        book := book.Add(hash, plan);
      }
    }
    r := Done;
  }

  /** The preflight checks on one source; `done` says that its target is already final. */
  method PreflightOne(disk: Disk, book: Book, source: string) returns (r: Outcome, done: bool)
    requires source in book.moving && book.Target(source) in book.sourceOf
    requires source in book.sourceOf ==> book.sourceOf[source] in book.moving
    modifies disk`statFault
    ensures old(disk.statFault) ==> disk.statFault
    ensures r == Done ==> book.Clear(disk.files, source) && disk.statFault == old(disk.statFault)
    ensures r == Done ==> done == book.Completed(disk.files, source)
    ensures r != Done ==> disk.statFault || !book.Clear(disk.files, source)
  {
    done := false;
    var plan := book.moving[source].plan;
    var temp, target := book.Temp(source), plan.effective;
    r := SafeComponents(disk, temp);
    if r != Done {
      return;
    }
    var sourceStat := disk.Lstat(source);
    var tempStat := disk.Lstat(temp);
    if sourceStat.Found? && tempStat.Found? {
      if source in book.sourceOf && book.sourceOf[source] != source {
        var other := book.sourceOf[source];
        var otherStat := disk.Lstat(book.Temp(other));
        if otherStat == Missing && IsFile(sourceStat.entry, book.Size(other)) && IsFile(tempStat.entry, plan.size) {
          return Done, false;
        }
      }
      return Conflict, false;
    }
    if sourceStat == Unknown || tempStat == Unknown {
      return IoError, false;
    }
    if sourceStat == Missing && tempStat == Missing {
      var targetStat := disk.Lstat(target);
      if targetStat.Found? && IsFile(targetStat.entry, plan.size) {
        if target in book.sourceOf {
          return Done, true;
        }
        return Conflict, false;
      }
      if targetStat != Missing {
        return (if targetStat == Unknown then IoError else Conflict), false;
      }
    }
    if sourceStat.Found? && !IsFile(sourceStat.entry, plan.size) {
      return Conflict, false;
    }
    if tempStat.Found? && !IsFile(tempStat.entry, plan.size) {
      return Conflict, false;
    }
    var targetStat := disk.Lstat(target);
    match targetStat
    case Unknown => r := IoError;
    case Missing => r := Done;
    case Found(e) => r := if e.kind.Symlink? || target !in book.moving then Conflict else Done;
  }

  /** The preflight loop, in any order. */
  method Preflight(disk: Disk, book: Book) returns (r: Outcome, completed: set<string>)
    requires forall s :: s in book.moving ==> book.Target(s) in book.sourceOf
    requires forall t {:trigger book.sourceOf[t]} :: t in book.sourceOf ==> book.sourceOf[t] in book.moving
    modifies disk`statFault
    ensures old(disk.statFault) ==> disk.statFault
    ensures r == Done ==> forall s :: s in book.moving ==> book.Clear(disk.files, s)
    ensures r == Done ==> forall s :: s in completed <==> s in book.moving && book.Completed(disk.files, s)
    ensures r == Done ==> disk.statFault == old(disk.statFault)
    ensures r != Done ==> disk.statFault || exists s :: s in book.moving && !book.Clear(disk.files, s)
  {
    completed := {};
    var todo := book.moving.Keys;
    while todo != {}
      invariant todo <= book.moving.Keys
      invariant forall s :: s in book.moving && s !in todo ==> book.Clear(disk.files, s)
      invariant forall s :: s in completed <==> s in book.moving && s !in todo && book.Completed(disk.files, s)
      invariant disk.statFault == old(disk.statFault)
    {
      var source :| source in todo;
      todo := todo - {source};
      var done: bool;
      r, done := PreflightOne(disk, book, source);
      if r != Done {
        assert disk.statFault || !book.Clear(disk.files, source);
        return;
      }
      if done {
        completed := completed + {source};
      }
    }
    r := Done;
  }

  lemma {:induction false} StageLooks(book: Book, before: Files, now: Files, staged: set<string>, s: string)
    requires book.Separate() && staged <= book.moving.Keys && s in book.moving && s !in staged
    requires book.IsStaged(before, now, staged)
    ensures Lookup(now, s) == Lookup(before, s)
    ensures Lookup(now, book.Temp(s)) == Lookup(before, book.Temp(s))
    ensures s in now <==> s in before
    ensures book.Temp(s) in now <==> book.Temp(s) in before
  {
    assert book.Apart(s, s);
    forall q | q in staged ensures book.Temp(q) != s && book.Temp(q) != book.Temp(s) && q != book.Temp(s) {
      assert book.Apart(q, s) && book.Apart(s, q);
    }
    assert !book.IsTemp(staged, s) && !book.IsTemp(staged, book.Temp(s));
  }

  lemma {:induction false} StageOne(book: Book, before: Files, now: Files, staged: set<string>, s: string)
    requires book.Separate() && staged <= book.moving.Keys && s in book.moving && s !in staged
    requires book.IsStaged(before, now, staged) && s in now
    ensures book.IsStaged(before, Renamed(now, s, book.Temp(s)), staged + {s})
  {
    var temp, after := book.Temp(s), Renamed(now, s, book.Temp(s));
    assert book.Apart(s, s);
    StageLooks(book, before, now, staged, s);
    forall q | q in staged ensures book.Temp(q) != s && book.Temp(q) != temp && q != temp {
      assert book.Apart(q, s) && book.Apart(s, q);
    }
    forall p | p !in staged + {s} && !book.IsTemp(staged + {s}, p) ensures Lookup(after, p) == Lookup(before, p) {
      assert p != temp;
      assert !book.IsTemp(staged, p);
      assert Lookup(now, p) == Lookup(before, p);
    }
  }

  /** The staging loop, in any order. A failed look at a private name counts as its absence. */
  method Stage(disk: Disk, book: Book, completed: set<string>) returns (r: Outcome, ghost staged: set<string>)
    requires completed <= book.moving.Keys
    modifies disk
    ensures staged <= book.moving.Keys
    ensures old(disk.statFault) ==> disk.statFault
    ensures r == Done || r == IoError
    ensures book.Separate() && (!disk.statFault || book.NoSourceTaken(old(disk.files))) ==>
              && book.IsStaged(old(disk.files), disk.files, staged)
              && (forall s :: s in staged ==> s !in completed && book.Temp(s) !in old(disk.files))
              && (r == Done ==> forall s :: s in book.moving && s !in completed && book.Temp(s) !in old(disk.files) ==>
                    s in staged)
    ensures && book.Separate() && !disk.Faulted()
            && (forall s :: s in book.moving && s !in completed ==>
                  s in old(disk.files) || book.Temp(s) in old(disk.files))
            ==> r == Done
  {
    ghost var before := disk.files;
    staged := {};
    var todo := book.moving.Keys;
    while todo != {}
      invariant todo <= book.moving.Keys && staged <= book.moving.Keys - todo
      invariant old(disk.statFault) ==> disk.statFault
      invariant book.Separate() && (!disk.statFault || book.NoSourceTaken(before)) ==>
                  && book.IsStaged(before, disk.files, staged)
                  && forall s :: s in staged <==>
                       s in book.moving && s !in todo && s !in completed && book.Temp(s) !in before
    {
      var source :| source in todo;
      var temp := book.Temp(source);
      todo := todo - {source};
      if source !in completed {
        if book.Separate() && (!disk.statFault || book.NoSourceTaken(before)) {
          StageLooks(book, before, disk.files, staged, source);
        }
        var stat := disk.Lstat(temp);
        if !stat.Found? {
          ghost var now := disk.files;
          var ok := disk.Rename(source, temp);
          if !ok {
            return IoError, staged;
          }
          if book.Separate() && (!disk.statFault || book.NoSourceTaken(before)) {
            StageOne(book, before, now, staged, source);
          }
          staged := staged + {source};
        }
      }
    }
    r := Done;
  }

  lemma {:induction false} PublishOne(book: Book, before: Files, now: Files, published: set<string>, s: string)
    requires book.Separate() && published <= book.moving.Keys && s in book.moving && s !in published
    requires book.IsPublished(before, now, published) && book.Temp(s) in before
    ensures Lookup(now, book.Temp(s)) == Lookup(before, book.Temp(s))
    ensures Lookup(now, book.Target(s)) == Lookup(before, book.Target(s))
    ensures book.IsPublished(before, Renamed(now, book.Temp(s), book.Target(s)), published + {s})
  {
    var temp, target := book.Temp(s), book.Target(s);
    assert book.Apart(s, s);
    forall q | q in published
      ensures book.Temp(q) != temp && book.Temp(q) != target && book.Target(q) != temp && book.Target(q) != target
    {
      assert book.Apart(q, s) && book.Apart(s, q);
    }
    assert !book.IsTemp(published, temp) && !book.IsTarget(published, temp);
    assert Lookup(now, temp) == Lookup(before, temp);
    assert temp in now;
    var after := Renamed(now, temp, target);
    forall p | !book.IsTarget(published + {s}, p) && !book.IsTemp(published + {s}, p)
      ensures Lookup(after, p) == Lookup(before, p)
    {
      assert p != temp && p != target;
      assert !book.IsTemp(published, p) && !book.IsTarget(published, p);
      assert Lookup(now, p) == Lookup(before, p);
    }
  }

  /** The publication loop, in any order. */
  method Publish(disk: Disk, book: Book, completed: set<string>) returns (r: Outcome, ghost published: set<string>)
    requires completed <= book.moving.Keys
    modifies disk
    ensures published <= book.moving.Keys - completed
    ensures old(disk.statFault) ==> disk.statFault
    ensures && book.Separate()
            && (forall s :: s in book.moving && s !in completed ==> book.Temp(s) in old(disk.files)) ==>
              && book.IsPublished(old(disk.files), disk.files, published)
              && (r == Done ==> published == book.moving.Keys - completed)
              && (forall s :: s in published && book.Target(s) in old(disk.files) ==> book.Target(s) in book.moving)
    ensures && book.Separate() && !disk.Faulted()
            && (forall s :: s in book.moving && s !in completed ==> book.Publishable(old(disk.files), s))
            ==> r == Done
  {
    ghost var before := disk.files;
    ghost var ready := book.Separate() && forall s :: s in book.moving && s !in completed ==> book.Temp(s) in before;
    published := {};
    var todo := book.moving.Keys;
    while todo != {}
      invariant todo <= book.moving.Keys && published <= book.moving.Keys - completed - todo
      invariant old(disk.statFault) ==> disk.statFault
      invariant ready ==> book.IsPublished(before, disk.files, published)
      invariant ready ==> published == book.moving.Keys - completed - todo
      invariant ready ==> forall s :: s in published && book.Target(s) in before ==> book.Target(s) in book.moving
    {
      var source :| source in todo;
      var plan := book.moving[source].plan;
      var temp, target := book.Temp(source), plan.effective;
      todo := todo - {source};
      if source !in completed {
        if ready {
          PublishOne(book, before, disk.files, published, source);
        }
        var stat := disk.Lstat(temp);
        if stat == Unknown {
          return IoError, published;
        }
        if stat == Missing {
          var targetStat := disk.Lstat(target);
          if !(targetStat.Found? && IsFile(targetStat.entry, plan.size)) {
            return IoError, published;
          }
          if target !in book.sourceOf {
            return Conflict, published;
          }
        } else {
          var ok := disk.MakeParents();
          if !ok {
            return IoError, published;
          }
          var targetStat := disk.Lstat(target);
          if targetStat == Unknown {
            return IoError, published;
          }
          if targetStat.Found? && (targetStat.entry.kind.Symlink? || target !in book.moving) {
            return Conflict, published;
          }
          ok := disk.Rename(temp, target);
          if !ok {
            return IoError, published;
          }
          published := published + {source};
        }
      }
    }
    r := Done;
  }

  /** The exclusion loop, in plan order. */
  method Exclude(disk: Disk, plans: seq<FilePlan>) returns (r: Outcome, ghost removed: set<string>)
    modifies disk
    ensures removed <= Excluded(plans) && disk.files == old(disk.files) - removed
    ensures old(disk.statFault) ==> disk.statFault
    ensures r == Done ==> removed == Excluded(plans) && ExclusionsMatch(plans, old(disk.files))
    ensures !disk.Faulted() && ExclusionsMatch(plans, old(disk.files)) ==> r == Done
  {
    removed := {};
    for i := 0 to |plans|
      invariant removed == Excluded(plans[..i])
      invariant disk.files == old(disk.files) - removed
      invariant old(disk.statFault) ==> disk.statFault
      invariant forall j :: 0 <= j < i && plans[j].priority == 0 && plans[j].original in old(disk.files) ==>
                              plans[j].original in Excluded(plans[..j])
                                || IsFile(old(disk.files)[plans[j].original], plans[j].size)
    {
      var plan := plans[i];
      assert plans[..i + 1] == plans[..i] + [plan];
      assert Excluded(plans[..i + 1]) == Excluded(plans[..i]) + if plan.priority == 0 then {plan.original} else {};
      assert removed <= Excluded(plans);
      if plan.priority == 0 {
        r := SafeComponents(disk, plan.original);
        if r != Done {
          return;
        }
        var stat := disk.Lstat(plan.original);
        if stat == Unknown {
          return IoError, removed;
        }
        if stat.Found? {
          if !IsFile(stat.entry, plan.size) {
            return Conflict, removed;
          }
          var ok := disk.Remove(plan.original);
          if !ok {
            return IoError, removed;
          }
        }
        removed := removed + {plan.original};
      }
    }
    assert plans[..|plans|] == plans;
    r := Done;
  }

  // ---- The whole run ---------------------------------------------------------------------------

  lemma {:induction false} ReadyToPublish(book: Book, before: Files, now: Files, staged: set<string>)
    requires book.Separate() && staged == book.Unstaged(before) && book.IsStaged(before, now, staged)
    ensures forall s :: s in book.Pending(before) ==> book.Temp(s) in now
  {
    forall s | s in book.Pending(before) ensures book.Temp(s) in now {
      if s !in staged {
        StageLooks(book, before, now, staged, s);
      } else {
        assert Lookup(now, book.Temp(s)) == Lookup(before, s);
      }
    }
  }

  lemma {:induction false} ClearSourceIsFile(book: Book, fs: Files, s: string)
    requires s in book.moving && book.Clear(fs, s)
    ensures s in fs ==> fs[s].kind.Regular?
    ensures book.Temp(s) in fs ==> fs[book.Temp(s)].kind.Regular?
  {
  }

  lemma {:induction false} StagedIsPublishable(book: Book, before: Files, now: Files, staged: set<string>, s: string)
    requires book.Separate() && staged == book.Unstaged(before) && book.IsStaged(before, now, staged)
    requires forall t :: t in book.moving ==> book.Clear(before, t)
    requires s in book.Pending(before)
    requires book.Target(s) in before ==> book.Target(s) in book.moving
    ensures book.Publishable(now, s)
  {
    ReadyToPublish(book, before, now, staged);
    ClearSourceIsFile(book, before, s);
    var target := book.Target(s);
    if s in staged {
      assert Lookup(now, book.Temp(s)) == Lookup(before, s);
    } else {
      StageLooks(book, before, now, staged, s);
    }
    if target in now {
      forall q | q in staged ensures book.Temp(q) != target {
        assert book.Apart(q, s);
      }
      assert !book.IsTemp(staged, target) && target !in staged;
      assert Lookup(now, target) == Lookup(before, target);
      ClearSourceIsFile(book, before, target);
    }
  }

  lemma {:induction false} ExcludedUntouched(book: Book, plans: seq<FilePlan>, before: Files, pr: Progress, x: string)
    requires Disjoint(book, plans) && x in Excluded(plans)
    requires pr.staged <= book.moving.Keys && pr.published <= book.moving.Keys
    requires book.IsStaged(before, pr.afterStaging, pr.staged)
    requires book.IsPublished(pr.afterStaging, pr.afterPublishing, pr.published)
    ensures Lookup(pr.afterPublishing, x) == Lookup(before, x)
  {
  }

  lemma {:induction false} ExclusionsCarry(plans: seq<FilePlan>, before: Files, now: Files)
    requires forall x :: x in Excluded(plans) ==> Lookup(now, x) == Lookup(before, x)
    ensures ExclusionsMatch(plans, before) <==> ExclusionsMatch(plans, now)
  {
    forall i | 0 <= i < |plans| && plans[i].priority == 0
      ensures Lookup(now, plans[i].original) == Lookup(before, plans[i].original)
    {
      assert plans[i].original in Excluded(plans);
    }
  }

  lemma {:induction false} FreeTargetsStayFree(book: Book, before: Files, now: Files, staged: set<string>)
    requires book.Separate() && staged <= book.moving.Keys && book.IsStaged(before, now, staged)
    ensures forall s :: s in book.moving && book.Target(s) in before && book.Target(s) !in book.moving ==>
              book.Target(s) in now
  {
    forall s | s in book.moving && book.Target(s) in before && book.Target(s) !in book.moving
      ensures book.Target(s) in now
    {
      forall q | q in staged ensures book.Temp(q) != book.Target(s) {
        assert book.Apart(q, s);
      }
      assert Lookup(now, book.Target(s)) == Lookup(before, book.Target(s));
    }
  }

  /** The three loops that change the disk. */
  method Execute(disk: Disk, book: Book, plans: seq<FilePlan>, completed: set<string>) returns (r: Outcome,
                 ghost pr: Progress)
    requires completed == book.moving.Keys - book.Pending(disk.files)
    requires forall s :: s in book.moving ==> book.Clear(disk.files, s)
    modifies disk
    ensures old(disk.statFault) ==> disk.statFault
    ensures book.Separate() && (!disk.statFault || book.NoSourceTaken(old(disk.files))) ==>
              && Reached(book, plans, old(disk.files), disk.files, pr)
              && (r == Done ==> Finished(book, plans, old(disk.files), pr))
              && (r == Done && Disjoint(book, plans) ==> Complete(book, plans, old(disk.files)))
    ensures Disjoint(book, plans) && Complete(book, plans, old(disk.files)) && !disk.Faulted() ==> r == Done
  {
    ghost var before := disk.files;
    ghost var staged, published, removed;
    r, staged := Stage(disk, book, completed);
    pr := Progress(staged, {}, {}, disk.files, disk.files);
    if r != Done {
      return;
    }
    ghost var sound := book.Separate() && (!disk.statFault || book.NoSourceTaken(before));
    if sound {
      assert staged == book.Unstaged(before);
      ReadyToPublish(book, before, disk.files, staged);
      forall s | s in book.Pending(before) && Complete(book, plans, before) ensures book.Publishable(disk.files, s) {
        StagedIsPublishable(book, before, disk.files, staged, s);
      }
    }
    r, published := Publish(disk, book, completed);
    pr := pr.(published := published, afterPublishing := disk.files);
    if r != Done {
      return;
    }
    if sound {
      assert published == book.Pending(before);
    }
    if sound && Disjoint(book, plans) {
      forall x | x in Excluded(plans) ensures Lookup(disk.files, x) == Lookup(before, x) {
        ExcludedUntouched(book, plans, before, pr, x);
      }
      ExclusionsCarry(plans, before, disk.files);
      FreeTargetsStayFree(book, before, pr.afterStaging, staged);
    }
    r, removed := Exclude(disk, plans);
    pr := pr.(removed := removed);
  }

  /** Everything that comes before the first rename. */
  method Prepare(disk: Disk, hash: string, plans: seq<FilePlan>)
    returns (r: Outcome, book: Book, completed: set<string>)
    modifies disk`statFault
    ensures old(disk.statFault) ==> disk.statFault
    ensures r == Done ==>
              && Accepts(hash, plans, disk.files) && disk.statFault == old(disk.statFault)
              && book == BookOf(hash, plans) && completed == book.moving.Keys - book.Pending(disk.files)
    ensures r != Done ==> disk.statFault || !Accepts(hash, plans, disk.files)
  {
    book, completed := Book(map[], map[]), {};
    if hash == "" {
      return Unsafe, book, completed;
    }
    r, book := Collect(disk, hash, plans);
    if r == Done {
      BookIndexed(hash, plans);
      r, completed := Preflight(disk, book);
    }
  }

  /** Apply the plan: collect, preflight, stage, publish, exclude.
      A refusal leaves the disk untouched. Whatever happens, the disk is the starting one with some files staged,
      or all of them staged and some published, or all of them published and some exclusions removed. If nothing
      outside the plan fails, the run goes all the way exactly when the plan is accepted and complete. `begun` says
      that every check before the first rename has passed. */
  method ApplyFilePlan(disk: Disk, hash: string, plans: seq<FilePlan>)
    returns (r: Outcome, ghost pr: Progress, ghost begun: bool)
    modifies disk
    ensures begun ==> Accepts(hash, plans, old(disk.files))
    ensures !begun ==>
              && r != Done && disk.files == old(disk.files)
              && (disk.statFault || !Accepts(hash, plans, disk.files))
    ensures var book := BookOf(hash, plans);
            book.Separate() && (!begun || !disk.statFault || book.NoSourceTaken(old(disk.files))) ==>
              && Reached(book, plans, old(disk.files), disk.files, pr)
              && (r == Done ==> Finished(book, plans, old(disk.files), pr))
              && (r == Done && Disjoint(book, plans) ==> Complete(book, plans, old(disk.files)))
    ensures var book := BookOf(hash, plans);
            && Accepts(hash, plans, old(disk.files)) && Disjoint(book, plans) && Complete(book, plans, old(disk.files))
            && !disk.Faulted()
            ==> r == Done
  {
    pr := Progress({}, {}, {}, disk.files, disk.files);
    var book, completed;
    r, book, completed := Prepare(disk, hash, plans);
    begun := r == Done;
    if r != Done {
      return;
    }
    r, pr := Execute(disk, book, plans, completed);
  }
}
