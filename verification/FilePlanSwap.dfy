/** Three small inputs that the file plan handles badly: a finished swap that a second run swaps back, a half-published
    swap in which one failed look loses a file, and a plan whose only file is nowhere. */
module FilePlanSwaps {
  import opened Paths
  import opened FilePlans
  import opened FilePlanTheorems

  /** Two paths that exchange their files, their private names, two different contents and a common size. */
  datatype Swap = Swap(a: string, b: string, ta: string, tb: string, x: int, y: int, size: nat) {

    ghost predicate Valid() {
      a != b && ta != tb && ta !in {a, b} && tb !in {a, b} && x != y
    }

    /** The private names are those that the plan list gives the files. */
    predicate Named(hash: string) {
      ta == TempName(hash, Plans()[0]) && tb == TempName(hash, Plans()[1])
    }

    function Plans(): seq<FilePlan> { [FilePlan(0, a, b, 1, size), FilePlan(1, b, a, 1, size)] }

    function TheBook(): Book {
      Book(map[a := Move(Plans()[0], ta), b := Move(Plans()[1], tb)], map[b := a, a := b])
    }

    function Holding(content: int): Entry { Entry(Regular, content, size) }

    function Origin(): Files { map[a := Holding(x), b := Holding(y)] }

    function AllStaged(): Files { map[ta := Holding(x), tb := Holding(y)] }

    function Done(): Files { map[a := Holding(y), b := Holding(x)] }

    /** After publishing the first file only. */
    function Half(): Files { map[b := Holding(x), tb := Holding(y)] }

    function Whole(): Progress { Progress({a, b}, {a, b}, {}, AllStaged(), Done()) }

    function Part(): Progress { Progress({a, b}, {a}, {}, AllStaged(), Half()) }

    /** The same exchange with the contents the other way round. */
    function Back(): Swap { this.(x := y, y := x) }
  }

  lemma {:induction false} SwapBook(swap: Swap, hash: string)
    requires swap.Valid() && swap.Named(hash)
    ensures BookOf(hash, swap.Plans()) == swap.TheBook()
    ensures swap.Plans()[1].original !in BookUpTo(hash, swap.Plans(), 1).moving
  {
    assert BookUpTo(hash, swap.Plans(), 0) == Book(map[], map[]);
    assert BookUpTo(hash, swap.Plans(), 1) ==
             Book(map[swap.a := Move(swap.Plans()[0], swap.ta)], map[swap.b := swap.a]);
    assert BookUpTo(hash, swap.Plans(), 2) == BookUpTo(hash, swap.Plans(), 1).Add(hash, swap.Plans()[1]);
  }

  lemma {:induction false} ReadableFirst(swap: Swap, hash: string)
    requires swap.Valid() && ValidManifestPath(swap.a) && ValidManifestPath(swap.b)
    ensures ReadablePlan(hash, swap.Plans(), 0, swap.Origin())
  {
  }

  lemma {:induction false} ReadableSecond(swap: Swap, hash: string)
    requires swap.Valid() && ValidManifestPath(swap.a) && ValidManifestPath(swap.b)
    requires swap.Plans()[1].original !in BookUpTo(hash, swap.Plans(), 1).moving
    ensures ReadablePlan(hash, swap.Plans(), 1, swap.Origin())
  {
  }

  lemma {:induction false} SwapReadable(swap: Swap, hash: string)
    requires swap.Valid() && swap.Named(hash) && ValidManifestPath(swap.a) && ValidManifestPath(swap.b)
    ensures Readable(hash, swap.Plans(), swap.Origin())
  {
    SwapBook(swap, hash);
    ReadableFirst(swap, hash);
    ReadableSecond(swap, hash);
  }

  lemma {:induction false} SwapFresh(swap: Swap)
    requires swap.Valid()
    ensures Fresh(swap.TheBook(), swap.Plans(), swap.Origin())
  {
    SwapDisjoint(swap);
    assert Excluded(swap.Plans()) == {};
  }

  lemma {:induction false} SwapDisjoint(swap: Swap)
    requires swap.Valid()
    ensures Disjoint(swap.TheBook(), swap.Plans())
  {
  }

  lemma {:induction false} SwapSets(swap: Swap)
    requires swap.Valid()
    ensures swap.TheBook().Unstaged(swap.Origin()) == {swap.a, swap.b} == swap.TheBook().Pending(swap.Origin())
  {
    var book, both := swap.TheBook(), {swap.a, swap.b};
    assert book.moving.Keys == both;
    forall s | s in both ensures s in swap.Origin() && book.Temp(s) !in swap.Origin() {
    }
  }

  lemma {:induction false} SwapStages(swap: Swap)
    requires swap.Valid()
    ensures swap.TheBook().IsStaged(swap.Origin(), swap.AllStaged(), {swap.a, swap.b})
  {
  }

  lemma {:induction false} SwapPublishes(swap: Swap)
    requires swap.Valid()
    ensures swap.TheBook().IsPublished(swap.AllStaged(), swap.Done(), {swap.a, swap.b})
  {
    var book := swap.TheBook();
    assert book.Target(swap.a) == swap.b && book.Target(swap.b) == swap.a;
    assert book.Temp(swap.a) == swap.ta && book.Temp(swap.b) == swap.tb;
  }

  lemma {:induction false} SwapPublishesOne(swap: Swap)
    requires swap.Valid()
    ensures swap.TheBook().IsPublished(swap.AllStaged(), swap.Half(), {swap.a})
  {
    var book := swap.TheBook();
    assert book.Target(swap.a) == swap.b && book.Temp(swap.a) == swap.ta;
  }

  lemma {:induction false} SwapRuns(swap: Swap)
    requires swap.Valid()
    ensures Reached(swap.TheBook(), swap.Plans(), swap.Origin(), swap.Done(), swap.Whole())
    ensures Finished(swap.TheBook(), swap.Plans(), swap.Origin(), swap.Whole())
    ensures Reached(swap.TheBook(), swap.Plans(), swap.Origin(), swap.Half(), swap.Part())
  {
    assert Excluded(swap.Plans()) == {};
    SwapSets(swap);
    SwapStages(swap);
    SwapPublishes(swap);
    SwapPublishesOne(swap);
  }

  /** The finished swap looks like a fresh one: the second run is accepted, goes all the way without any failure, and
      leaves the disk that there was before the first. */
  lemma {:induction false} SwapSwapsBack(swap: Swap, hash: string)
    requires hash != "" && swap.Valid() && swap.Named(hash) && ValidManifestPath(swap.a) && ValidManifestPath(swap.b)
    ensures BookOf(hash, swap.Plans()) == swap.TheBook()
    ensures Readable(hash, swap.Plans(), swap.Origin()) && Fresh(swap.TheBook(), swap.Plans(), swap.Origin())
    ensures Reached(swap.TheBook(), swap.Plans(), swap.Origin(), swap.Done(), swap.Whole())
    ensures Finished(swap.TheBook(), swap.Plans(), swap.Origin(), swap.Whole())
    ensures Accepts(hash, swap.Plans(), swap.Done()) && Complete(swap.TheBook(), swap.Plans(), swap.Done())
    ensures Reached(swap.TheBook(), swap.Plans(), swap.Done(), swap.Origin(), swap.Back().Whole())
    ensures Finished(swap.TheBook(), swap.Plans(), swap.Done(), swap.Back().Whole())
  {
    var back := swap.Back();
    SwapBook(swap, hash);
    SwapReadable(swap, hash);
    SwapFresh(swap);
    SwapRuns(swap);
    assert back.Plans() == swap.Plans() && back.TheBook() == swap.TheBook();
    SwapReadable(back, hash);
    SwapFresh(back);
    SwapRuns(back);
    assert back.Origin() == swap.Done() && back.Done() == swap.Origin();
    FreshAccepted(hash, swap.Plans(), back.Origin());
  }

  lemma {:induction false} HalfNoRefill(swap: Swap)
    requires swap.Valid()
    ensures NoRefill(swap.TheBook(), swap.Part().published)
  {
    NoRefillEarly(swap.TheBook(), swap.Part().published);
  }

  lemma {:induction false} HalfAccepted(swap: Swap, hash: string)
    requires hash != "" && swap.Valid() && swap.Named(hash)
    requires Readable(hash, swap.Plans(), swap.Origin()) && Fresh(swap.TheBook(), swap.Plans(), swap.Origin())
    requires Reached(swap.TheBook(), swap.Plans(), swap.Origin(), swap.Half(), swap.Part())
    ensures Accepts(hash, swap.Plans(), swap.Half()) && NoRefill(swap.TheBook(), swap.Part().published)
  {
    SwapBook(swap, hash);
    HalfNoRefill(swap);
    StoppedIsAccepted(hash, swap.Plans(), swap.Origin(), swap.Half(), swap.Part());
  }

  lemma {:induction false} HalfLook(swap: Swap)
    requires swap.Valid()
    ensures AfterFailedLook(swap.TheBook(), swap.Half(), swap.b) == map[swap.tb := swap.Holding(swap.x)]
    ensures swap.Origin()[swap.b] == swap.Holding(swap.y)
    ensures !swap.TheBook().NoSourceTaken(swap.Half())
  {
    assert swap.b in swap.TheBook().moving && swap.TheBook().Temp(swap.b) == swap.tb;
  }

  /** A swap stopped after its first publication: the next run is accepted, and if its look at the second private name
      fails, the second file's content is gone. */
  lemma {:induction false} FailedLookLosesContent(swap: Swap, hash: string)
    requires hash != "" && swap.Valid() && swap.Named(hash) && ValidManifestPath(swap.a) && ValidManifestPath(swap.b)
    ensures Reached(swap.TheBook(), swap.Plans(), swap.Origin(), swap.Half(), swap.Part())
    ensures Accepts(hash, swap.Plans(), swap.Half()) && NoRefill(swap.TheBook(), swap.Part().published)
    ensures !swap.TheBook().NoSourceTaken(swap.Half())
    ensures var lost := AfterFailedLook(swap.TheBook(), swap.Half(), swap.b);
            swap.b in swap.Origin() && forall p :: p in lost ==> lost[p] != swap.Origin()[swap.b]
  {
    SwapReadable(swap, hash);
    SwapFresh(swap);
    SwapRuns(swap);
    HalfAccepted(swap, hash);
    HalfLook(swap);
  }

  // ---- A file that is nowhere ------------------------------------------------------------------

  /** No run can finish while a file is at none of its three places. */
  lemma {:induction false} NowhereCannotFinish(book: Book, plans: seq<FilePlan>, fs: Files, after: Files, pr: Progress,
                                               s: string)
    requires s in book.moving && s !in fs && book.Temp(s) !in fs && book.Target(s) !in fs
    ensures !(Reached(book, plans, fs, after, pr) && Finished(book, plans, fs, pr))
  {
    assert s in book.Unstaged(fs);
  }

  lemma {:induction false} NowhereReadable(plan: FilePlan, hash: string, fs: Files)
    requires ValidPlan(plan) && plan.original !in fs && plan.effective !in fs
    ensures Readable(hash, [plan], fs)
  {
    assert BookUpTo(hash, [plan], 0) == Book(map[], map[]);
  }

  lemma {:induction false} NowhereAccepted(plan: FilePlan, hash: string, fs: Files)
    requires hash != "" && ValidPlan(plan) && Moves(plan)
    requires plan.original !in fs && plan.effective !in fs && TempName(hash, plan) !in fs
    ensures Accepts(hash, [plan], fs)
  {
    NowhereReadable(plan, hash, fs);
    BookOfOne(hash, plan);
  }

  /** One plan of one move, on a disk that has none of its paths: the preflight accepts it, and no run finishes. */
  lemma {:induction false} AcceptedButNowhere(plan: FilePlan, hash: string, fs: Files)
    requires hash != "" && ValidPlan(plan) && Moves(plan)
    requires plan.original !in fs && plan.effective !in fs && TempName(hash, plan) !in fs
    ensures Accepts(hash, [plan], fs) && !Complete(BookOf(hash, [plan]), [plan], fs)
    ensures forall after, pr :: !(Reached(BookOf(hash, [plan]), [plan], fs, after, pr)
                                  && Finished(BookOf(hash, [plan]), [plan], fs, pr))
  {
    NowhereAccepted(plan, hash, fs);
    BookOfOne(hash, plan);
    var book := BookOf(hash, [plan]);
    assert plan.original in book.moving && !book.Completed(fs, plan.original);
    forall after, pr ensures !(Reached(book, [plan], fs, after, pr) && Finished(book, [plan], fs, pr)) {
      NowhereCannotFinish(book, [plan], fs, after, pr, plan.original);
    }
  }
}
