/** What the plan promises: every rename order works, a crash loses nothing, a second run converges,
    and exactly when it does. */
module FilePlanTheorems {
  import opened Paths
  import opened FilePlans

  /** A plan that no run has touched yet: sources in place with the planned sizes, private names unused, each target
      free or itself a source, exclusions of the planned size, and nothing overlapping. */
  ghost predicate Fresh(book: Book, plans: seq<FilePlan>, fs: Files) {
    && Disjoint(book, plans)
    && (forall s :: s in book.moving ==> s in fs && IsFile(fs[s], book.Size(s)) && book.Temp(s) !in fs)
    && (forall s :: s in book.moving && book.Target(s) in fs ==> book.Target(s) in book.moving)
    && ExclusionsMatch(plans, fs)
  }

  /** The target index inverts the target map; this is so whenever no source is planned twice. */
  ghost predicate Inverse(book: Book) {
    forall s {:trigger book.Target(s)} :: s in book.moving ==>
      book.Target(s) in book.sourceOf && book.sourceOf[book.Target(s)] in book.moving
      && book.Target(book.sourceOf[book.Target(s)]) == book.Target(s)
  }

  lemma {:induction false} ReadableIsInverse(hash: string, plans: seq<FilePlan>, n: nat)
    requires n <= |plans|
    requires forall i :: 0 <= i < n && Moves(plans[i]) ==> plans[i].original !in BookUpTo(hash, plans, i).moving
    ensures Inverse(BookUpTo(hash, plans, n))
  {
    if n > 0 {
      ReadableIsInverse(hash, plans, n - 1);
      if Moves(plans[n - 1]) {
        var book, more := BookUpTo(hash, plans, n - 1), BookUpTo(hash, plans, n);
        forall s | s in more.moving
          ensures && more.Target(s) in more.sourceOf && more.sourceOf[more.Target(s)] in more.moving
                  && more.Target(more.sourceOf[more.Target(s)]) == more.Target(s)
        {
          if s in book.moving && more.Target(s) != plans[n - 1].effective {
            assert more.Target(s) == book.Target(s);
            assert more.sourceOf[more.Target(s)] == book.sourceOf[book.Target(s)];
          }
        }
      }
    }
  }

  lemma {:induction false} InverseIsExact(book: Book, s: string)
    requires Inverse(book) && book.Separate() && s in book.moving
    ensures book.Target(s) in book.sourceOf && book.sourceOf[book.Target(s)] == s
  {
    assert book.Apart(s, book.sourceOf[book.Target(s)]);
  }

  // ---- The result of a finished run ------------------------------------------------------------

  /** Each target holds its source's old file, every other source is vacated, exclusions are gone, no private name
      is left, and every other path is unchanged. */
  ghost predicate Moved(book: Book, plans: seq<FilePlan>, before: Files, after: Files) {
    && (forall s :: s in book.moving ==> Lookup(after, book.Target(s)) == Lookup(before, s))
    && (forall s :: s in book.moving ==> book.Temp(s) !in after)
    && (forall s :: s in book.moving && !book.IsTarget(book.moving.Keys, s) ==> s !in after)
    && (forall x :: x in Excluded(plans) ==> x !in after)
    && (forall p {:trigger Lookup(after, p)} ::
          p !in book.moving && !book.IsTarget(book.moving.Keys, p) && !book.IsTemp(book.moving.Keys, p)
            && p !in Excluded(plans)
          ==> Lookup(after, p) == Lookup(before, p))
  }

  /** The description determines the disk. */
  lemma {:induction false} MovedIsUnique(book: Book, plans: seq<FilePlan>, before: Files, a: Files, b: Files)
    requires Moved(book, plans, before, a) && Moved(book, plans, before, b)
    ensures a == b
  {
    forall p ensures Lookup(a, p) == Lookup(b, p) {
      if book.IsTarget(book.moving.Keys, p) {
      } else if book.IsTemp(book.moving.Keys, p) {
      } else if p in book.moving {
      } else if p in Excluded(plans) {
      } else {
        assert Lookup(a, p) == Lookup(before, p);
      }
    }
    forall p ensures p in a <==> p in b {
      assert Lookup(a, p) == Lookup(b, p);
    }
    forall p | p in a ensures a[p] == b[p] {
      assert Lookup(a, p) == Lookup(b, p);
    }
  }

  // ---- Where the files are at any moment -------------------------------------------------------

  /** The disk that started as `origin` now has the files of `staged` away from their sources, those of `published`
      at their targets and the rest of `staged` at their private names, and the paths of `removed` gone. */
  ghost predicate Layout(book: Book, plans: seq<FilePlan>, origin: Files, fs: Files,
                         staged: set<string>, published: set<string>, removed: set<string>)
  {
    && published <= staged <= book.moving.Keys && removed <= Excluded(plans)
    && (published != {} || removed != {} ==> staged == book.moving.Keys)
    && (removed != {} ==> published == book.moving.Keys)
    && (forall s :: s in staged && s !in published ==> Lookup(fs, book.Temp(s)) == Lookup(origin, s))
    && (forall s :: s in published ==> Lookup(fs, book.Target(s)) == Lookup(origin, s))
    && (forall s :: s in book.moving && (s !in staged || s in published) ==> book.Temp(s) !in fs)
    && (forall s :: s in staged && !book.IsTarget(published, s) ==> s !in fs)
    && (forall s :: s in book.moving && s !in staged ==> Lookup(fs, s) == Lookup(origin, s))
    && (forall x :: x in removed ==> x !in fs)
    && (forall p {:trigger Lookup(fs, p)} {:trigger Lookup(origin, p)} ::
          p !in book.moving && !book.IsTarget(published, p) && !book.IsTemp(book.moving.Keys, p) && p !in removed
          ==> Lookup(fs, p) == Lookup(origin, p))
  }

  /** No published file's source path has been filled again by another published file. */
  ghost predicate NoRefill(book: Book, published: set<string>) {
    forall s :: s in published ==> !book.IsTarget(published, s)
  }

  /** No file is moved onto the source path of another moved file. */
  ghost predicate Chainless(book: Book) {
    forall s :: s in book.moving ==> book.Target(s) !in book.moving
  }

  lemma {:induction false} SameLookups(a: Files, b: Files)
    requires forall p {:trigger Lookup(a, p)} {:trigger Lookup(b, p)} :: Lookup(a, p) == Lookup(b, p)
    ensures a == b
  {
    forall p ensures p in a <==> p in b {
      assert Lookup(a, p) == Lookup(b, p);
    }
    forall p | p in a ensures a[p] == b[p] {
      assert Lookup(a, p) == Lookup(b, p);
    }
  }

  lemma {:induction false} FreshLayout(book: Book, plans: seq<FilePlan>, origin: Files)
    requires Fresh(book, plans, origin)
    ensures Layout(book, plans, origin, origin, {}, {}, {})
  {
  }

  lemma {:induction false} LayoutStaged(book: Book, plans: seq<FilePlan>, origin: Files, fs: Files, staged: set<string>,
                     now: Files, more: set<string>)
    requires Fresh(book, plans, origin) && Layout(book, plans, origin, fs, staged, {}, {})
    requires more <= book.moving.Keys - staged && book.IsStaged(fs, now, more)
    ensures Layout(book, plans, origin, now, staged + more, {}, {})
  {
    forall s | s in book.moving && s !in more
      ensures Lookup(now, s) == Lookup(fs, s) && Lookup(now, book.Temp(s)) == Lookup(fs, book.Temp(s))
    {
      StageLooks(book, fs, now, more, s);
    }
    forall s | s in more ensures Lookup(now, book.Temp(s)) == Lookup(origin, s) {
      assert Lookup(fs, s) == Lookup(origin, s);
    }
    forall p | p !in book.moving && !book.IsTemp(book.moving.Keys, p) ensures Lookup(now, p) == Lookup(origin, p) {
      assert !book.IsTemp(more, p) && !book.IsTarget({}, p);
      assert Lookup(fs, p) == Lookup(origin, p);
    }
  }

  lemma {:induction false} PublishLooks(book: Book, before: Files, now: Files, published: set<string>, s: string)
    requires book.Separate() && published <= book.moving.Keys && s in book.moving
    requires book.IsPublished(before, now, published)
    ensures !book.IsTarget(published, s) ==> Lookup(now, s) == Lookup(before, s)
    ensures s !in published ==> Lookup(now, book.Temp(s)) == Lookup(before, book.Temp(s))
    ensures s !in published ==> Lookup(now, book.Target(s)) == Lookup(before, book.Target(s))
    ensures s in published ==> Lookup(now, book.Temp(s)) == None
  {
    assert book.Apart(s, s);
    forall q | q in published ensures book.Temp(q) != s && (q != s ==> book.Temp(q) != book.Temp(s))
                                      && book.Target(q) != book.Temp(s) && book.Temp(q) != book.Target(s)
                                      && (q != s ==> book.Target(q) != book.Target(s)) {
      assert book.Apart(q, s) && book.Apart(s, q);
    }
    if s !in published {
      assert !book.IsTemp(published, book.Temp(s)) && !book.IsTarget(published, book.Temp(s));
      assert !book.IsTemp(published, book.Target(s)) && !book.IsTarget(published, book.Target(s));
    }
    assert !book.IsTemp(published, s);
  }

  lemma {:induction false} LayoutPublished(book: Book, plans: seq<FilePlan>, origin: Files, fs: Files,
                                           published: set<string>,
                        now: Files, more: set<string>)
    requires Fresh(book, plans, origin) && Layout(book, plans, origin, fs, book.moving.Keys, published, {})
    requires more <= book.moving.Keys - published && book.IsPublished(fs, now, more)
    ensures Layout(book, plans, origin, now, book.moving.Keys, published + more, {})
  {
    var all := published + more;
    forall s | s in book.moving
      ensures && (s in all ==> Lookup(now, book.Target(s)) == Lookup(origin, s) && book.Temp(s) !in now)
              && (s !in all ==> Lookup(now, book.Temp(s)) == Lookup(origin, s))
    {
      PublishLooks(book, fs, now, more, s);
      assert s in more ==> Lookup(now, book.Target(s)) == Lookup(fs, book.Temp(s));
      assert s in published ==> book.Temp(s) !in fs;
    }
    forall s | s in book.moving && !book.IsTarget(all, s) ensures s !in now {
      assert !book.IsTarget(more, s) && !book.IsTarget(published, s);
      PublishLooks(book, fs, now, more, s);
      assert s !in fs;
    }
    forall p | p !in book.moving && !book.IsTarget(all, p) && !book.IsTemp(book.moving.Keys, p)
      ensures Lookup(now, p) == Lookup(origin, p)
    {
      assert !book.IsTarget(more, p) && !book.IsTarget(published, p) && !book.IsTemp(more, p);
      assert Lookup(now, p) == Lookup(fs, p);
    }
  }

  lemma {:induction false} LayoutRemoved(book: Book, plans: seq<FilePlan>, origin: Files, fs: Files,
                                         removed: set<string>, more: set<string>)
    requires Fresh(book, plans, origin) && more <= Excluded(plans)
    requires Layout(book, plans, origin, fs, book.moving.Keys, book.moving.Keys, removed)
    ensures Layout(book, plans, origin, fs - more, book.moving.Keys, book.moving.Keys, removed + more)
  {
    var now := fs - more;
    forall s | s in book.moving ensures Lookup(now, book.Target(s)) == Lookup(origin, s) && book.Temp(s) !in now {
      assert book.Target(s) !in more;
      assert Lookup(fs, book.Target(s)) == Lookup(origin, s);
    }
    forall p | p !in book.moving && !book.IsTarget(book.moving.Keys, p) && !book.IsTemp(book.moving.Keys, p)
      && p !in removed + more
      ensures Lookup(now, p) == Lookup(origin, p)
    {
      assert Lookup(fs, p) == Lookup(origin, p);
    }
  }

  /** What the preflight concludes from an interrupted disk: exactly the published files count as completed, and
      exactly the files that never left their sources have to be staged. */
  lemma {:induction false} LayoutRead(book: Book, plans: seq<FilePlan>, origin: Files, fs: Files,
                   staged: set<string>, published: set<string>, removed: set<string>)
    requires Fresh(book, plans, origin) && Layout(book, plans, origin, fs, staged, published, removed)
    requires NoRefill(book, published)
    ensures book.Pending(fs) == book.moving.Keys - published
    ensures book.Unstaged(fs) == book.moving.Keys - staged
  {
  }

  lemma {:induction false} NothingStagedNow(book: Book, fs: Files, now: Files)
    requires book.IsStaged(fs, now, {})
    ensures now == fs
  {
    forall p ensures Lookup(now, p) == Lookup(fs, p) {
      assert !book.IsTemp({}, p);
    }
    SameLookups(now, fs);
  }

  lemma {:induction false} NothingPublishedNow(book: Book, fs: Files, now: Files)
    requires book.IsPublished(fs, now, {})
    ensures now == fs
  {
    forall p ensures Lookup(now, p) == Lookup(fs, p) {
      assert !book.IsTemp({}, p) && !book.IsTarget({}, p);
    }
    SameLookups(now, fs);
  }

  lemma {:induction false} StepStaged(book: Book, plans: seq<FilePlan>, origin: Files, fs: Files,
                   staged: set<string>, published: set<string>, removed: set<string>, now: Files, more: set<string>)
    requires Fresh(book, plans, origin) && Layout(book, plans, origin, fs, staged, published, removed)
    requires more <= book.moving.Keys - staged && book.IsStaged(fs, now, more)
    ensures Layout(book, plans, origin, now, staged + more, published, removed)
  {
    if more != {} {
      assert published == {} && removed == {};
      LayoutStaged(book, plans, origin, fs, staged, now, more);
    } else {
      NothingStagedNow(book, fs, now);
      assert staged + more == staged;
    }
  }

  lemma {:induction false} StepPublished(book: Book, plans: seq<FilePlan>, origin: Files, fs: Files,
                      staged: set<string>, published: set<string>, removed: set<string>, now: Files, more: set<string>)
    requires Fresh(book, plans, origin) && Layout(book, plans, origin, fs, staged, published, removed)
    requires more <= book.moving.Keys - published && book.IsPublished(fs, now, more)
    requires more != {} ==> staged == book.moving.Keys
    ensures Layout(book, plans, origin, now, staged, published + more, removed)
  {
    if more != {} {
      assert removed == {};
      LayoutPublished(book, plans, origin, fs, published, now, more);
    } else {
      NothingPublishedNow(book, fs, now);
      assert published + more == published;
    }
  }

  lemma {:induction false} StepRemoved(book: Book, plans: seq<FilePlan>, origin: Files, fs: Files,
                    staged: set<string>, published: set<string>, removed: set<string>, more: set<string>)
    requires Fresh(book, plans, origin) && Layout(book, plans, origin, fs, staged, published, removed)
    requires more <= Excluded(plans) && (more != {} ==> staged == book.moving.Keys && published == book.moving.Keys)
    ensures Layout(book, plans, origin, fs - more, staged, published, removed + more)
  {
    if more != {} {
      LayoutRemoved(book, plans, origin, fs, removed, more);
    } else {
      assert removed + more == removed && fs - more == fs;
    }
  }

  lemma {:induction false} LayoutAfterStaging(book: Book, plans: seq<FilePlan>, origin: Files, fs: Files,
                           staged: set<string>, published: set<string>, removed: set<string>, after: Files,
                           pr: Progress)
    requires Fresh(book, plans, origin) && Layout(book, plans, origin, fs, staged, published, removed)
    requires NoRefill(book, published) && Reached(book, plans, fs, after, pr)
    ensures Layout(book, plans, origin, pr.afterStaging, staged + pr.staged, published, removed)
    ensures pr.published <= book.moving.Keys - published
              && (pr.published != {} || pr.removed != {} ==> staged + pr.staged == book.moving.Keys)
    ensures pr.removed != {} ==> published + pr.published == book.moving.Keys
  {
    LayoutRead(book, plans, origin, fs, staged, published, removed);
    StepStaged(book, plans, origin, fs, staged, published, removed, pr.afterStaging, pr.staged);
  }

  /** A run from an interrupted disk leaves an interrupted disk of the same origin. */
  lemma {:induction false} LayoutStep(book: Book, plans: seq<FilePlan>, origin: Files, fs: Files,
                   staged: set<string>, published: set<string>, removed: set<string>, after: Files, pr: Progress)
    requires Fresh(book, plans, origin) && Layout(book, plans, origin, fs, staged, published, removed)
    requires NoRefill(book, published) && Reached(book, plans, fs, after, pr)
    ensures Layout(book, plans, origin, after, staged + pr.staged, published + pr.published, removed + pr.removed)
  {
    LayoutAfterStaging(book, plans, origin, fs, staged, published, removed, after, pr);
    StepPublished(book, plans, origin, pr.afterStaging, staged + pr.staged, published, removed, pr.afterPublishing,
                  pr.published);
    StepRemoved(book, plans, origin, pr.afterPublishing, staged + pr.staged, published + pr.published, removed,
                pr.removed);
  }

  // ---- Any rename order, from a fresh disk -----------------------------------------------------

  lemma {:induction false} FinishedSets(book: Book, plans: seq<FilePlan>, origin: Files, fs: Files,
                                        staged: set<string>, published: set<string>, removed: set<string>, pr: Progress)
    requires Fresh(book, plans, origin) && Layout(book, plans, origin, fs, staged, published, removed)
    requires NoRefill(book, published) && Finished(book, plans, fs, pr)
    ensures staged + pr.staged == book.moving.Keys && published + pr.published == book.moving.Keys
    ensures removed + pr.removed == Excluded(plans)
  {
    LayoutRead(book, plans, origin, fs, staged, published, removed);
  }

  lemma {:induction false} LayoutIsMoved(book: Book, plans: seq<FilePlan>, origin: Files, fs: Files)
    requires Layout(book, plans, origin, fs, book.moving.Keys, book.moving.Keys, Excluded(plans))
    ensures Moved(book, plans, origin, fs)
  {
  }

  /** A run that goes all the way from an interrupted disk ends where an uninterrupted run ends. */
  lemma {:induction false} FinishedIsMoved(book: Book, plans: seq<FilePlan>, origin: Files, fs: Files,
                        staged: set<string>, published: set<string>, removed: set<string>, after: Files, pr: Progress)
    requires Fresh(book, plans, origin) && Layout(book, plans, origin, fs, staged, published, removed)
    requires NoRefill(book, published) && Reached(book, plans, fs, after, pr) && Finished(book, plans, fs, pr)
    ensures Moved(book, plans, origin, after)
  {
    FinishedSets(book, plans, origin, fs, staged, published, removed, pr);
    LayoutStep(book, plans, origin, fs, staged, published, removed, after, pr);
    LayoutIsMoved(book, plans, origin, after);
  }

  /** Whatever the order of the loops, chains, swaps and longer cycles included, a run that goes all the way from a
      fresh disk moves every file to its target, removes the exclusions and leaves the rest alone. */
  lemma {:induction false} AnyOrderRename(book: Book, plans: seq<FilePlan>, before: Files, after: Files, pr: Progress)
    requires Fresh(book, plans, before) && Reached(book, plans, before, after, pr) && Finished(book, plans, before, pr)
    ensures Moved(book, plans, before, after)
  {
    FreshLayout(book, plans, before);
    FinishedIsMoved(book, plans, before, before, {}, {}, {}, after, pr);
  }

  // ---- Resuming ----------------------------------------------------------------------------------

  lemma {:induction false} LayoutEntry(book: Book, plans: seq<FilePlan>, origin: Files, fs: Files,
                    staged: set<string>, published: set<string>, removed: set<string>, p: string)
    requires Fresh(book, plans, origin) && Layout(book, plans, origin, fs, staged, published, removed)
    ensures LinkFree(origin, p) ==> LinkFree(fs, p)
  {
    if book.IsTarget(published, p) {
      var q :| q in published && q in book.moving && book.Target(q) == p;
      assert Lookup(fs, p) == Lookup(origin, q);
    } else if book.IsTemp(book.moving.Keys, p) {
      var q :| q in book.moving && book.Temp(q) == p;
      assert q in staged && q !in published && p in fs ==> Lookup(fs, p) == Lookup(origin, q);
    } else if p in book.moving {
      assert p !in staged ==> Lookup(fs, p) == Lookup(origin, p);
    } else if p !in removed {
      assert Lookup(fs, p) == Lookup(origin, p);
    }
  }

  /** A path that may receive a file is free, or holds a file that is itself to be moved. */
  lemma {:induction false} TargetIsOpen(book: Book, plans: seq<FilePlan>, origin: Files, fs: Files,
                     staged: set<string>, published: set<string>, removed: set<string>, s: string)
    requires Fresh(book, plans, origin) && Layout(book, plans, origin, fs, staged, published, removed)
    requires s in book.moving && s !in published && book.Target(s) in fs
    ensures book.Target(s) in book.moving && fs[book.Target(s)].kind.Regular?
  {
    var target := book.Target(s);
    forall q | q in published ensures book.Target(q) != target {
      assert book.Apart(q, s);
    }
    forall q | q in book.moving ensures book.Temp(q) != target {
      assert book.Apart(q, s);
    }
    assert target !in removed;
    assert target in book.moving ==> target !in staged;
    assert Lookup(fs, target) == Lookup(origin, target);
  }

  lemma {:induction false} LayoutClear(book: Book, plans: seq<FilePlan>, origin: Files, fs: Files,
                    staged: set<string>, published: set<string>, removed: set<string>, s: string)
    requires Fresh(book, plans, origin) && Layout(book, plans, origin, fs, staged, published, removed)
    requires Inverse(book) && NoRefill(book, published) && s in book.moving
    ensures book.Clear(fs, s)
  {
    if s in published {
      assert Lookup(fs, book.Target(s)) == Lookup(origin, s);
    } else if s in staged {
      assert Lookup(fs, book.Temp(s)) == Lookup(origin, s);
      if s in fs {
        assert book.IsTarget(published, s);
        var q :| q in published && q in book.moving && book.Target(q) == s;
        assert Lookup(fs, s) == Lookup(origin, q);
        InverseIsExact(book, q);
      } else if book.Target(s) in fs {
        TargetIsOpen(book, plans, origin, fs, staged, published, removed, s);
      }
    } else {
      assert Lookup(fs, s) == Lookup(origin, s);
      if book.Target(s) in fs {
        TargetIsOpen(book, plans, origin, fs, staged, published, removed, s);
      }
    }
  }

  lemma {:induction false} LayoutReadable(hash: string, plans: seq<FilePlan>, origin: Files, fs: Files,
                       staged: set<string>, published: set<string>, removed: set<string>)
    requires Readable(hash, plans, origin)
    requires Fresh(BookOf(hash, plans), plans, origin)
    requires Layout(BookOf(hash, plans), plans, origin, fs, staged, published, removed)
    ensures Readable(hash, plans, fs)
  {
    forall i | 0 <= i < |plans| ensures ReadablePlan(hash, plans, i, fs) {
      assert ReadablePlan(hash, plans, i, origin);
      LayoutEntry(BookOf(hash, plans), plans, origin, fs, staged, published, removed, plans[i].original);
      LayoutEntry(BookOf(hash, plans), plans, origin, fs, staged, published, removed, plans[i].effective);
    }
  }

  lemma {:induction false} LayoutExclusions(book: Book, plans: seq<FilePlan>, origin: Files, fs: Files,
                         staged: set<string>, published: set<string>, removed: set<string>)
    requires Fresh(book, plans, origin) && Layout(book, plans, origin, fs, staged, published, removed)
    ensures ExclusionsMatch(plans, fs)
  {
    forall i | 0 <= i < |plans| && plans[i].priority == 0 && plans[i].original in fs
      ensures Lookup(fs, plans[i].original) == Lookup(origin, plans[i].original)
    {
      assert plans[i].original in Excluded(plans);
    }
  }

  /** An interrupted run can be started again, provided no published source has been refilled: the preflight accepts
      the disk and no later check can stop the run. */
  lemma {:induction false} InterruptedIsAccepted(hash: string, plans: seq<FilePlan>, origin: Files, fs: Files,
                              staged: set<string>, published: set<string>, removed: set<string>)
    requires hash != "" && Readable(hash, plans, origin)
    requires Fresh(BookOf(hash, plans), plans, origin)
    requires Layout(BookOf(hash, plans), plans, origin, fs, staged, published, removed)
    requires NoRefill(BookOf(hash, plans), published)
    ensures Accepts(hash, plans, fs) && Complete(BookOf(hash, plans), plans, fs)
  {
    var book := BookOf(hash, plans);
    LayoutReadable(hash, plans, origin, fs, staged, published, removed);
    forall i | 0 <= i < |plans| && Moves(plans[i]) ensures plans[i].original !in BookUpTo(hash, plans, i).moving {
      assert ReadablePlan(hash, plans, i, origin);
    }
    ReadableIsInverse(hash, plans, |plans|);
    forall s | s in book.moving ensures book.Clear(fs, s) {
      LayoutClear(book, plans, origin, fs, staged, published, removed, s);
    }
    LayoutRead(book, plans, origin, fs, staged, published, removed);
    forall s | s in book.moving && !book.Completed(fs, s)
      ensures (s in fs || book.Temp(s) in fs) && (book.Target(s) in fs ==> book.Target(s) in book.moving)
    {
      assert s in book.Pending(fs);
      assert s !in staged ==> Lookup(fs, s) == Lookup(origin, s);
      assert s in staged ==> Lookup(fs, book.Temp(s)) == Lookup(origin, s);
      if book.Target(s) in fs {
        TargetIsOpen(book, plans, origin, fs, staged, published, removed, s);
      }
    }
    LayoutExclusions(book, plans, origin, fs, staged, published, removed);
  }

  /** Nothing is refilled while at most one file is published, so never during staging nor in a half-published swap. */
  lemma {:induction false} NoRefillEarly(book: Book, published: set<string>)
    requires book.Valid() && |published| <= 1
    ensures NoRefill(book, published)
  {
    forall s | s in published ensures !book.IsTarget(published, s) {
      assert |published - {s}| == |published| - 1;
      assert published == {s};
    }
  }

  /** Nothing is ever refilled when no target is a source. */
  lemma {:induction false} NoRefillWithoutChains(book: Book, published: set<string>)
    requires published <= book.moving.Keys && Chainless(book)
    ensures NoRefill(book, published)
  {
  }

  // ---- Any number of crashes -------------------------------------------------------------------

  function StagedBy(prs: seq<Progress>, n: nat): set<string>
    requires n <= |prs|
  {
    if n == 0 then {} else StagedBy(prs, n - 1) + prs[n - 1].staged
  }

  function PublishedBy(prs: seq<Progress>, n: nat): set<string>
    requires n <= |prs|
  {
    if n == 0 then {} else PublishedBy(prs, n - 1) + prs[n - 1].published
  }

  function RemovedBy(prs: seq<Progress>, n: nat): set<string>
    requires n <= |prs|
  {
    if n == 0 then {} else RemovedBy(prs, n - 1) + prs[n - 1].removed
  }

  ghost predicate RunsAt(book: Book, plans: seq<FilePlan>, disks: seq<Files>, prs: seq<Progress>, i: nat)
    requires i < |prs| && |disks| == |prs| + 1
  {
    Reached(book, plans, disks[i], disks[i + 1], prs[i]) && NoRefill(book, PublishedBy(prs, i))
  }

  /** Run after run of the same plan, each starting from the disk on which the last one stopped, and none starting
      while a published source is refilled. */
  ghost predicate Runs(book: Book, plans: seq<FilePlan>, disks: seq<Files>, prs: seq<Progress>) {
    && |disks| == |prs| + 1
    && forall i {:trigger RunsAt(book, plans, disks, prs, i)} :: 0 <= i < |prs| ==> RunsAt(book, plans, disks, prs, i)
  }

  lemma {:induction false} RunsKeepLayout(book: Book, plans: seq<FilePlan>, disks: seq<Files>, prs: seq<Progress>,
                                          n: nat)
    requires Runs(book, plans, disks, prs) && Fresh(book, plans, disks[0]) && n <= |prs|
    ensures Layout(book, plans, disks[0], disks[n], StagedBy(prs, n), PublishedBy(prs, n), RemovedBy(prs, n))
  {
    if n == 0 {
      FreshLayout(book, plans, disks[0]);
    } else {
      RunsKeepLayout(book, plans, disks, prs, n - 1);
      var staged, published, removed := StagedBy(prs, n - 1), PublishedBy(prs, n - 1), RemovedBy(prs, n - 1);
      assert RunsAt(book, plans, disks, prs, n - 1);
      LayoutStep(book, plans, disks[0], disks[n - 1], staged, published, removed, disks[n], prs[n - 1]);
    }
  }

  /** However often the plan is interrupted, the next run is accepted and no later check can stop it. */
  lemma {:induction false} CrashesAccepted(hash: string, plans: seq<FilePlan>, disks: seq<Files>, prs: seq<Progress>)
    requires Runs(BookOf(hash, plans), plans, disks, prs) && NoRefill(BookOf(hash, plans), PublishedBy(prs, |prs|))
    requires hash != "" && Readable(hash, plans, disks[0]) && Fresh(BookOf(hash, plans), plans, disks[0])
    ensures Accepts(hash, plans, disks[|prs|]) && Complete(BookOf(hash, plans), plans, disks[|prs|])
  {
    var n := |prs|;
    RunsKeepLayout(BookOf(hash, plans), plans, disks, prs, n);
    InterruptedIsAccepted(hash, plans, disks[0], disks[n], StagedBy(prs, n), PublishedBy(prs, n), RemovedBy(prs, n));
  }

  lemma {:induction false} ByGrow(prs: seq<Progress>, k: nat, n: nat)
    requires k <= n <= |prs|
    ensures StagedBy(prs, k) <= StagedBy(prs, n) && PublishedBy(prs, k) <= PublishedBy(prs, n)
    ensures RemovedBy(prs, k) <= RemovedBy(prs, n)
  {
    if k < n {
      ByGrow(prs, k, n - 1);
    }
  }

  lemma {:induction false} RunsStayWithin(book: Book, plans: seq<FilePlan>, disks: seq<Files>, prs: seq<Progress>,
                                          n: nat)
    requires Runs(book, plans, disks, prs) && n <= |prs|
    ensures StagedBy(prs, n) <= book.moving.Keys && PublishedBy(prs, n) <= book.moving.Keys
    ensures RemovedBy(prs, n) <= Excluded(plans)
  {
    if n > 0 {
      assert RunsAt(book, plans, disks, prs, n - 1);
      RunsStayWithin(book, plans, disks, prs, n - 1);
    }
  }

  lemma {:induction false} FinishedRunSets(book: Book, plans: seq<FilePlan>, disks: seq<Files>, prs: seq<Progress>,
                                           k: nat)
    requires Runs(book, plans, disks, prs) && Fresh(book, plans, disks[0]) && k < |prs|
    requires Finished(book, plans, disks[k], prs[k])
    ensures StagedBy(prs, k + 1) == book.moving.Keys && PublishedBy(prs, k + 1) == book.moving.Keys
    ensures RemovedBy(prs, k + 1) == Excluded(plans)
  {
    RunsKeepLayout(book, plans, disks, prs, k);
    assert RunsAt(book, plans, disks, prs, k);
    FinishedSets(book, plans, disks[0], disks[k], StagedBy(prs, k), PublishedBy(prs, k), RemovedBy(prs, k), prs[k]);
  }

  lemma {:induction false} LaterRunSets(book: Book, plans: seq<FilePlan>, disks: seq<Files>, prs: seq<Progress>,
                                        k: nat, n: nat)
    requires Runs(book, plans, disks, prs) && Fresh(book, plans, disks[0]) && k < n <= |prs|
    requires Finished(book, plans, disks[k], prs[k])
    ensures StagedBy(prs, n) == book.moving.Keys && PublishedBy(prs, n) == book.moving.Keys
    ensures RemovedBy(prs, n) == Excluded(plans)
  {
    FinishedRunSets(book, plans, disks, prs, k);
    RunsStayWithin(book, plans, disks, prs, n);
    ByGrow(prs, k + 1, n);
  }

  /** The disk is final from the first run on that goes all the way. */
  lemma {:induction false} RunsFinishedIsMoved(book: Book, plans: seq<FilePlan>, disks: seq<Files>, prs: seq<Progress>,
                                               k: nat, n: nat)
    requires Runs(book, plans, disks, prs) && Fresh(book, plans, disks[0]) && k < n <= |prs|
    requires Finished(book, plans, disks[k], prs[k])
    ensures Moved(book, plans, disks[0], disks[n])
  {
    LaterRunSets(book, plans, disks, prs, k, n);
    RunsKeepLayout(book, plans, disks, prs, n);
    LayoutIsMoved(book, plans, disks[0], disks[n]);
  }

  /** However often the plan is interrupted, from the first run on that goes all the way the disk is the one that a
      single uninterrupted run leaves, and later runs do not change it. */
  lemma {:induction false} CrashesConverge(book: Book, plans: seq<FilePlan>, disks: seq<Files>, prs: seq<Progress>,
                                           k: nat, n: nat, direct: Files, once: Progress)
    requires Runs(book, plans, disks, prs) && Fresh(book, plans, disks[0]) && k < n <= |prs|
    requires Finished(book, plans, disks[k], prs[k])
    requires Reached(book, plans, disks[0], direct, once) && Finished(book, plans, disks[0], once)
    ensures disks[n] == direct
  {
    RunsFinishedIsMoved(book, plans, disks, prs, k, n);
    AnyOrderRename(book, plans, disks[0], direct, once);
    MovedIsUnique(book, plans, disks[0], disks[n], direct);
  }

  // ---- Exactly when a second run converges -----------------------------------------------------

  /** A finished run that started while a published source was refilled puts the wrong file at that source's target. */
  lemma {:induction false} RefillMisplaces(book: Book, plans: seq<FilePlan>, origin: Files, fs: Files,
                        staged: set<string>, published: set<string>, removed: set<string>, after: Files, pr: Progress,
                        s: string, q: string)
    requires Fresh(book, plans, origin) && Layout(book, plans, origin, fs, staged, published, removed)
    requires Reached(book, plans, fs, after, pr) && Finished(book, plans, fs, pr)
    requires s in published && q in published && book.Target(q) == s
    ensures Lookup(after, book.Target(s)) == Lookup(origin, q)
  {
    assert Lookup(fs, s) == Lookup(origin, q);
    assert s in book.Unstaged(fs) && s in book.Pending(fs);
    assert Lookup(pr.afterStaging, book.Temp(s)) == Lookup(fs, s);
    assert Lookup(pr.afterPublishing, book.Target(s)) == Lookup(pr.afterStaging, book.Temp(s));
    assert book.Target(s) !in Excluded(plans);
  }

  lemma {:induction false} MisplacedIsNotMoved(book: Book, plans: seq<FilePlan>, origin: Files, after: Files,
                                               s: string, q: string)
    requires Fresh(book, plans, origin) && Distinct(book, origin)
    requires s in book.moving && q in book.moving && s != q && Lookup(after, book.Target(s)) == Lookup(origin, q)
    ensures !Moved(book, plans, origin, after)
  {
  }

  lemma {:induction false} RefilledIsNotMoved(book: Book, plans: seq<FilePlan>, origin: Files, fs: Files,
                           staged: set<string>, published: set<string>, removed: set<string>, after: Files,
                           pr: Progress)
    requires Fresh(book, plans, origin) && Distinct(book, origin)
    requires forall s :: s in book.moving ==> book.Target(s) != s
    requires Layout(book, plans, origin, fs, staged, published, removed)
    requires Reached(book, plans, fs, after, pr) && Finished(book, plans, fs, pr)
    requires !NoRefill(book, published)
    ensures !Moved(book, plans, origin, after)
  {
    var s :| s in published && book.IsTarget(published, s);
    var q :| q in published && q in book.moving && book.Target(q) == s;
    RefillMisplaces(book, plans, origin, fs, staged, published, removed, after, pr, s, q);
    MisplacedIsNotMoved(book, plans, origin, after, s, q);
  }

  /** With files that differ, a second run that goes all the way leaves every file where it belongs if and only if it
      did not start while a published source was refilled. */
  lemma {:induction false} ResumeExact(book: Book, plans: seq<FilePlan>, origin: Files, fs: Files,
                    staged: set<string>, published: set<string>, removed: set<string>, after: Files, pr: Progress)
    requires Fresh(book, plans, origin) && Distinct(book, origin)
    requires forall s :: s in book.moving ==> book.Target(s) != s
    requires Layout(book, plans, origin, fs, staged, published, removed)
    requires Reached(book, plans, fs, after, pr) && Finished(book, plans, fs, pr)
    ensures Moved(book, plans, origin, after) <==> NoRefill(book, published)
  {
    if NoRefill(book, published) {
      FinishedIsMoved(book, plans, origin, fs, staged, published, removed, after, pr);
    } else {
      RefilledIsNotMoved(book, plans, origin, fs, staged, published, removed, after, pr);
    }
  }

  // ---- No content lost -------------------------------------------------------------------------

  /** Where the file that started at `s` is now. */
  function Place(book: Book, staged: set<string>, published: set<string>, s: string): string
    requires s in book.moving
  {
    if s in published then book.Target(s) else if s in staged then book.Temp(s) else s
  }

  ghost predicate Distinct(book: Book, origin: Files) {
    forall s, t :: s in book.moving && t in book.moving && s in origin && t in origin && s != t ==>
      origin[s] != origin[t]
  }

  /** Every file is at its place, and no two files share one. */
  lemma {:induction false} FileAtItsPlace(book: Book, plans: seq<FilePlan>, origin: Files, fs: Files,
                       staged: set<string>, published: set<string>, removed: set<string>, s: string, t: string)
    requires Fresh(book, plans, origin) && Layout(book, plans, origin, fs, staged, published, removed)
    requires s in book.moving && t in book.moving
    ensures Lookup(fs, Place(book, staged, published, s)) == Lookup(origin, s) != None
    ensures s != t ==> Place(book, staged, published, s) != Place(book, staged, published, t)
  {
    assert book.Apart(s, t) && book.Apart(t, s);
  }

  /** Each moved file is at exactly one of its source, its private name and its target. */
  lemma {:induction false} ExactlyOnePlace(book: Book, plans: seq<FilePlan>, origin: Files, fs: Files,
                        staged: set<string>, published: set<string>, removed: set<string>, s: string, p: string)
    requires Fresh(book, plans, origin) && Distinct(book, origin)
    requires Layout(book, plans, origin, fs, staged, published, removed)
    requires s in book.moving && p in {s, book.Temp(s), book.Target(s)}
    ensures Lookup(fs, p) == Lookup(origin, s) <==> p == Place(book, staged, published, s)
  {
  }

  lemma {:induction false} FreshAccepted(hash: string, plans: seq<FilePlan>, fs: Files)
    requires hash != "" && Readable(hash, plans, fs) && Fresh(BookOf(hash, plans), plans, fs)
    ensures Accepts(hash, plans, fs) && Complete(BookOf(hash, plans), plans, fs)
              && BookOf(hash, plans).NoSourceTaken(fs)
  {
    FreshLayout(BookOf(hash, plans), plans, fs);
    InterruptedIsAccepted(hash, plans, fs, fs, {}, {}, {});
  }

  lemma {:induction false} FreshStep(book: Book, plans: seq<FilePlan>, origin: Files, after: Files, pr: Progress)
    requires Fresh(book, plans, origin) && Reached(book, plans, origin, after, pr)
    ensures Layout(book, plans, origin, after, pr.staged, pr.published, pr.removed)
  {
    FreshLayout(book, plans, origin);
    LayoutStep(book, plans, origin, origin, {}, {}, {}, after, pr);
    assert {} + pr.staged == pr.staged && {} + pr.published == pr.published && {} + pr.removed == pr.removed;
  }

  lemma {:induction false} StoppedIsAccepted(hash: string, plans: seq<FilePlan>, origin: Files, fs: Files, pr: Progress)
    requires hash != "" && Readable(hash, plans, origin) && Fresh(BookOf(hash, plans), plans, origin)
    requires Reached(BookOf(hash, plans), plans, origin, fs, pr) && NoRefill(BookOf(hash, plans), pr.published)
    ensures Accepts(hash, plans, fs)
  {
    FreshStep(BookOf(hash, plans), plans, origin, fs, pr);
    InterruptedIsAccepted(hash, plans, origin, fs, pr.staged, pr.published, pr.removed);
  }

  /** The preflight lets two things pass: a file that is nowhere, and, for a file whose source was taken by another
      published file, a target that a bystander holds. An accepted plan is complete, so that a run can go all the way,
      exactly when neither occurs. */
  lemma {:induction false} AcceptedMayBeIncomplete(book: Book, plans: seq<FilePlan>, fs: Files)
    requires forall s :: s in book.moving ==> book.Clear(fs, s)
    requires ExclusionsMatch(plans, fs)
    ensures Complete(book, plans, fs) <==>
              forall s :: s in book.moving ==>
                            && (s in fs || book.Temp(s) in fs || book.Target(s) in fs)
                            && (s in fs && book.Temp(s) in fs && book.Target(s) in fs ==> book.Target(s) in book.moving)
  {
  }

  // ---- A failed look while staging --------------------------------------------------------------

  /** What staging does when the look at a private name fails: it takes the name for free and renames. */
  function AfterFailedLook(book: Book, fs: Files, s: string): Files
    requires s in book.moving
  {
    if Renamable(fs, s, book.Temp(s)) then Renamed(fs, s, book.Temp(s)) else fs
  }

  /** The disk is one that a run of this plan may leave, so no file is lost. */
  ghost predicate Intact(book: Book, plans: seq<FilePlan>, origin: Files, fs: Files) {
    exists staged, published, removed :: Layout(book, plans, origin, fs, staged, published, removed)
  }

  lemma {:induction false} HarmlessLook(book: Book, plans: seq<FilePlan>, origin: Files, fs: Files,
                                        staged: set<string>, published: set<string>, removed: set<string>, s: string)
    requires Fresh(book, plans, origin) && Layout(book, plans, origin, fs, staged, published, removed)
    requires NoRefill(book, published) && s in book.moving && !(s in fs && book.Temp(s) in fs)
    ensures Intact(book, plans, origin, AfterFailedLook(book, fs, s))
  {
    if s in fs {
      assert s !in published && s !in staged;
      assert Lookup(fs, s) == Lookup(origin, s);
      assert Renamable(fs, s, book.Temp(s));
      StageOne(book, fs, fs, {}, s);
      assert {} + {s} == {s};
      StepStaged(book, plans, origin, fs, staged, published, removed, Renamed(fs, s, book.Temp(s)), {s});
    }
    assert s !in fs ==> Layout(book, plans, origin, AfterFailedLook(book, fs, s), staged, published, removed);
  }

  /** On an interrupted disk a source is occupied together with its private name exactly when its file is staged and
      another file was published onto the source. */
  lemma {:induction false} TakenMeansPublishedOnto(book: Book, plans: seq<FilePlan>, origin: Files, fs: Files,
                                                   staged: set<string>, published: set<string>, removed: set<string>,
                                                   s: string)
    requires Fresh(book, plans, origin) && Layout(book, plans, origin, fs, staged, published, removed)
    requires s in book.moving
    ensures s in fs && book.Temp(s) in fs <==> s in staged && s !in published && book.IsTarget(published, s)
  {
    if s in staged && s !in published && book.IsTarget(published, s) {
      var q :| q in published && q in book.moving && book.Target(q) == s;
      assert Lookup(fs, s) == Lookup(origin, q) && Lookup(fs, book.Temp(s)) == Lookup(origin, s);
    }
  }

  /** Another file lies at the source of a staged one. */
  lemma {:induction false} TakenSource(book: Book, plans: seq<FilePlan>, origin: Files, fs: Files,
                                       staged: set<string>, published: set<string>, removed: set<string>, s: string)
    requires Fresh(book, plans, origin) && Distinct(book, origin)
    requires Layout(book, plans, origin, fs, staged, published, removed)
    requires s in book.moving && s in fs && book.Temp(s) in fs
    ensures s in staged && s !in published
    ensures fs[s].kind.Regular? && fs[book.Temp(s)].kind.Regular? && Lookup(fs, s) != Lookup(origin, s)
  {
    TakenMeansPublishedOnto(book, plans, origin, fs, staged, published, removed, s);
    var q :| q in published && q in book.moving && book.Target(q) == s;
    assert Lookup(fs, s) == Lookup(origin, q) && Lookup(fs, book.Temp(s)) == Lookup(origin, s);
  }

  lemma {:induction false} RenamedLooks(fs: Files, from: string, to: string, other: string)
    requires from in fs && from != to && other != to
    ensures Lookup(Renamed(fs, from, to), from) == None
    ensures Lookup(Renamed(fs, from, to), to) == Lookup(fs, from)
    ensures Lookup(Renamed(fs, from, to), other) in {None, Lookup(fs, other)}
  {
  }

  /** The staged file is replaced by the published one and is at none of its places any more. */
  lemma {:induction false} HarmfulLook(book: Book, plans: seq<FilePlan>, origin: Files, fs: Files,
                                       staged: set<string>, published: set<string>, removed: set<string>, s: string)
    requires Fresh(book, plans, origin) && Distinct(book, origin)
    requires Layout(book, plans, origin, fs, staged, published, removed)
    requires s in book.moving && s in fs && book.Temp(s) in fs
    ensures AfterFailedLook(book, fs, s) == Renamed(fs, s, book.Temp(s))
    ensures forall p :: p in {s, book.Temp(s), book.Target(s)} ==>
                          Lookup(AfterFailedLook(book, fs, s), p) != Lookup(origin, s)
  {
    TakenSource(book, plans, origin, fs, staged, published, removed, s);
    ExactlyOnePlace(book, plans, origin, fs, staged, published, removed, s, book.Target(s));
    FileAtItsPlace(book, plans, origin, fs, staged, published, removed, s, s);
    TempIsApart(book, s);
    Overwritten(book, fs, s, Lookup(origin, s));
  }

  lemma {:induction false} Overwritten(book: Book, fs: Files, s: string, file: Option<Entry>)
    requires s in book.moving && book.Temp(s) != s && book.Temp(s) != book.Target(s)
    requires s in fs && book.Temp(s) in fs && fs[s].kind.Regular? && fs[book.Temp(s)].kind.Regular?
    requires file != None && Lookup(fs, s) != file && Lookup(fs, book.Target(s)) != file
    ensures AfterFailedLook(book, fs, s) == Renamed(fs, s, book.Temp(s))
    ensures forall p :: p in {s, book.Temp(s), book.Target(s)} ==> Lookup(AfterFailedLook(book, fs, s), p) != file
  {
    RenamedLooks(fs, s, book.Temp(s), book.Target(s));
  }

  lemma {:induction false} TempIsApart(book: Book, s: string)
    requires book.Separate() && s in book.moving
    ensures book.Temp(s) != s && book.Temp(s) != book.Target(s)
  {
    assert book.Apart(s, s);
  }

  lemma {:induction false} IntactHasFile(book: Book, plans: seq<FilePlan>, origin: Files, fs: Files, s: string)
    requires Fresh(book, plans, origin) && Intact(book, plans, origin, fs) && s in book.moving
    ensures exists p :: p in {s, book.Temp(s), book.Target(s)} && Lookup(fs, p) == Lookup(origin, s)
  {
    var staged, published, removed :| Layout(book, plans, origin, fs, staged, published, removed);
    FileAtItsPlace(book, plans, origin, fs, staged, published, removed, s, s);
    assert Place(book, staged, published, s) in {s, book.Temp(s), book.Target(s)};
  }

  /** With files that differ, a failed look at a private name keeps every file if and only if the source is not
      occupied together with that name. */
  lemma {:induction false} FailedLookExact(book: Book, plans: seq<FilePlan>, origin: Files, fs: Files,
                                           staged: set<string>, published: set<string>, removed: set<string>, s: string)
    requires Fresh(book, plans, origin) && Distinct(book, origin)
    requires Layout(book, plans, origin, fs, staged, published, removed) && NoRefill(book, published)
    requires s in book.moving
    ensures Intact(book, plans, origin, AfterFailedLook(book, fs, s)) <==> !(s in fs && book.Temp(s) in fs)
  {
    if s in fs && book.Temp(s) in fs {
      HarmfulLook(book, plans, origin, fs, staged, published, removed, s);
      if Intact(book, plans, origin, AfterFailedLook(book, fs, s)) {
        IntactHasFile(book, plans, origin, AfterFailedLook(book, fs, s), s);
      }
    } else {
      HarmlessLook(book, plans, origin, fs, staged, published, removed, s);
    }
  }

  // ---- Running a finished plan again -----------------------------------------------------------

  /** What a caller can see in the plan: runs can be interrupted anywhere, the end included, without a published source
      being refilled, if and only if no target is the source of a moved file. */
  lemma {:induction false} ChainlessIsNoRefill(book: Book)
    ensures Chainless(book) <==> NoRefill(book, book.moving.Keys)
    ensures Chainless(book) <==>
              forall published {:trigger NoRefill(book, published)} ::
                published <= book.moving.Keys ==> NoRefill(book, published)
  {
    if Chainless(book) {
      forall published | published <= book.moving.Keys ensures NoRefill(book, published) {
        NoRefillWithoutChains(book, published);
      }
    } else {
      var s :| s in book.moving && book.Target(s) in book.moving;
      assert book.IsTarget(book.moving.Keys, book.Target(s));
      assert !NoRefill(book, book.moving.Keys);
    }
  }

  lemma {:induction false} FinishedLayout(book: Book, plans: seq<FilePlan>, origin: Files, after: Files, pr: Progress)
    requires Fresh(book, plans, origin) && Reached(book, plans, origin, after, pr) && Finished(book, plans, origin, pr)
    ensures Layout(book, plans, origin, after, book.moving.Keys, book.moving.Keys, Excluded(plans))
  {
    FreshStep(book, plans, origin, after, pr);
    FreshLayout(book, plans, origin);
    LayoutRead(book, plans, origin, origin, {}, {}, {});
    assert pr.staged == book.moving.Keys && pr.published == book.moving.Keys;
  }

  /** With files that differ, running a finished plan a second time, all the way, leaves the disk as it is if and only
      if no target is the source of a moved file. No crash is needed for the failure: a finished swap is swapped
      back. */
  lemma {:induction false} SecondRunExact(book: Book, plans: seq<FilePlan>, origin: Files, once: Files, twice: Files,
                                          first: Progress, second: Progress)
    requires Fresh(book, plans, origin) && Distinct(book, origin)
    requires forall s :: s in book.moving ==> book.Target(s) != s
    requires Reached(book, plans, origin, once, first) && Finished(book, plans, origin, first)
    requires Reached(book, plans, once, twice, second) && Finished(book, plans, once, second)
    ensures twice == once <==> Chainless(book)
  {
    var all := book.moving.Keys;
    FinishedLayout(book, plans, origin, once, first);
    ResumeExact(book, plans, origin, once, all, all, Excluded(plans), twice, second);
    ChainlessIsNoRefill(book);
    AnyOrderRename(book, plans, origin, once, first);
    if Chainless(book) {
      MovedIsUnique(book, plans, origin, once, twice);
    }
  }

  /** The second run takes the file that the first one brought to `s` for the file of `s`. */
  lemma {:induction false} SecondRunMisplaces(book: Book, plans: seq<FilePlan>, origin: Files, once: Files,
                                              twice: Files,
                                              first: Progress, second: Progress, s: string, q: string)
    requires Fresh(book, plans, origin) && Distinct(book, origin)
    requires Reached(book, plans, origin, once, first) && Finished(book, plans, origin, first)
    requires Reached(book, plans, once, twice, second) && Finished(book, plans, once, second)
    requires s in book.moving && q in book.moving && q != s && book.Target(q) == s
    ensures Lookup(twice, book.Target(s)) != Lookup(origin, s)
  {
    FinishedLayout(book, plans, origin, once, first);
    RefillMisplaces(book, plans, origin, once, book.moving.Keys, book.moving.Keys, Excluded(plans), twice, second, s,
                    q);
  }

  lemma {:induction false} PublishedMoves(book: Book, plans: seq<FilePlan>, disks: seq<Files>, prs: seq<Progress>,
                                          n: nat)
    requires |disks| == |prs| + 1 && n <= |prs|
    requires forall i {:trigger prs[i]} :: 0 <= i < |prs| ==> Reached(book, plans, disks[i], disks[i + 1], prs[i])
    ensures PublishedBy(prs, n) <= book.moving.Keys
  {
    if n > 0 {
      PublishedMoves(book, plans, disks, prs, n - 1);
    }
  }

  /** Without chained targets, runs of one plan never disturb each other, wherever each of them stops. */
  lemma {:induction false} ChainlessRuns(book: Book, plans: seq<FilePlan>, disks: seq<Files>, prs: seq<Progress>)
    requires Chainless(book) && |disks| == |prs| + 1
    requires forall i {:trigger prs[i]} :: 0 <= i < |prs| ==> Reached(book, plans, disks[i], disks[i + 1], prs[i])
    ensures Runs(book, plans, disks, prs)
  {
    forall i | 0 <= i < |prs| ensures RunsAt(book, plans, disks, prs, i) {
      PublishedMoves(book, plans, disks, prs, i);
      NoRefillWithoutChains(book, PublishedBy(prs, i));
    }
  }

  // ---- A run can go all the way ----------------------------------------------------------------

  lemma {:induction false} StagingExists(book: Book, before: Files, sources: set<string>) returns (after: Files)
    requires book.Separate() && sources <= book.moving.Keys && forall s :: s in sources ==> s in before
    ensures book.IsStaged(before, after, sources)
  {
    if sources == {} {
      after := before;
    } else {
      var s :| s in sources;
      var now := StagingExists(book, before, sources - {s});
      StageLooks(book, before, now, sources - {s}, s);
      StageOne(book, before, now, sources - {s}, s);
      after := Renamed(now, s, book.Temp(s));
      assert sources - {s} + {s} == sources;
    }
  }

  lemma {:induction false} PublishingExists(book: Book, before: Files, sources: set<string>) returns (after: Files)
    requires book.Separate() && sources <= book.moving.Keys && forall s :: s in sources ==> book.Temp(s) in before
    ensures book.IsPublished(before, after, sources)
  {
    if sources == {} {
      after := before;
    } else {
      var s :| s in sources;
      var now := PublishingExists(book, before, sources - {s});
      PublishOne(book, before, now, sources - {s}, s);
      after := Renamed(now, book.Temp(s), book.Target(s));
      assert sources - {s} + {s} == sources;
    }
  }

  /** A run that goes all the way from here to there. */
  ghost predicate Applied(book: Book, plans: seq<FilePlan>, before: Files, after: Files) {
    exists pr :: Reached(book, plans, before, after, pr) && Finished(book, plans, before, pr)
  }

  /** The preflight accepts the disk and no later check can stop the run. */
  ghost predicate Ready(hash: string, plans: seq<FilePlan>, fs: Files) {
    Accepts(hash, plans, fs) && Complete(BookOf(hash, plans), plans, fs)
  }

  /** Where every pending file is at its source or staged, a run can go all the way. */
  lemma {:induction false} ApplicationExists(book: Book, plans: seq<FilePlan>, fs: Files) returns (after: Files)
    requires book.Separate() && forall s :: s in book.Unstaged(fs) ==> s in fs
    ensures Applied(book, plans, fs, after)
  {
    var staged, published := book.Unstaged(fs), book.Pending(fs);
    var now := StagingExists(book, fs, staged);
    ReadyToPublish(book, fs, now, staged);
    var later := PublishingExists(book, now, published);
    after := later - Excluded(plans);
    var pr := Progress(staged, published, Excluded(plans), now, later);
    assert Reached(book, plans, fs, after, pr) && Finished(book, plans, fs, pr);
  }

  // ---- The two kinds of run, on the disk -------------------------------------------------------

  /** The first run of a plan: whatever fails, the files are laid out as if it had merely stopped early, so none is
      lost, and if nothing fails it ends with every file moved. */
  method ApplyFresh(disk: Disk, hash: string, plans: seq<FilePlan>) returns (r: Outcome, ghost pr: Progress)
    requires hash != "" && Readable(hash, plans, disk.files) && Fresh(BookOf(hash, plans), plans, disk.files)
    modifies disk
    ensures Layout(BookOf(hash, plans), plans, old(disk.files), disk.files, pr.staged, pr.published, pr.removed)
    ensures r == Done ==> Moved(BookOf(hash, plans), plans, old(disk.files), disk.files)
    ensures !disk.Faulted() ==> r == Done
  {
    ghost var book, before, begun := BookOf(hash, plans), disk.files, true;
    FreshAccepted(hash, plans, before);
    r, pr, begun := ApplyFilePlan(disk, hash, plans);
    FreshStep(book, plans, before, disk.files, pr);
    if r == Done {
      AnyOrderRename(book, plans, before, disk.files, pr);
    }
  }

  /** A later run of the same plan on the disk a crash left. */
  method ApplyAgain(disk: Disk, hash: string, plans: seq<FilePlan>, ghost origin: Files,
                    ghost staged: set<string>, ghost published: set<string>, ghost removed: set<string>)
    returns (r: Outcome, ghost pr: Progress, ghost begun: bool)
    requires hash != "" && Readable(hash, plans, origin) && Fresh(BookOf(hash, plans), plans, origin)
    requires Layout(BookOf(hash, plans), plans, origin, disk.files, staged, published, removed)
    requires NoRefill(BookOf(hash, plans), published)
    modifies disk
    ensures !begun ==> disk.files == old(disk.files)
    ensures !begun || !disk.statFault || BookOf(hash, plans).NoSourceTaken(old(disk.files)) ==>
              Layout(BookOf(hash, plans), plans, origin, disk.files,
                     staged + pr.staged, published + pr.published, removed + pr.removed)
    ensures r == Done && (!disk.statFault || BookOf(hash, plans).NoSourceTaken(old(disk.files))) ==>
              Moved(BookOf(hash, plans), plans, origin, disk.files)
    ensures !disk.Faulted() ==> r == Done
  {
    ghost var book, before := BookOf(hash, plans), disk.files;
    InterruptedIsAccepted(hash, plans, origin, before, staged, published, removed);
    r, pr, begun := ApplyFilePlan(disk, hash, plans);
    if !begun || !disk.statFault || book.NoSourceTaken(before) {
      LayoutStep(book, plans, origin, before, staged, published, removed, disk.files, pr);
      if r == Done {
        FinishedIsMoved(book, plans, origin, before, staged, published, removed, disk.files, pr);
      }
    }
  }
}
