/** Why a second run of a file plan needs its condition: any three files of one size that go round in a cycle, the
    second of which differs from the others, can lose the second's content to a crash. */
module FilePlanCycles {
  import opened Paths
  import opened FilePlans
  import opened FilePlanTheorems

  /** The three paths of a cycle, their private names, their contents and their common size. */
  datatype Ring = Ring(a: string, b: string, c: string, ta: string, tb: string, tc: string,
                       x: int, y: int, z: int, size: nat) {

    ghost predicate Valid() {
      && a != b && a != c && b != c && ta != tb && ta != tc && tb != tc
      && ta !in {a, b, c} && tb !in {a, b, c} && tc !in {a, b, c}
      && y != x && y != z
    }

    function Plans(): seq<FilePlan> {
      [FilePlan(0, a, b, 1, size), FilePlan(1, b, c, 1, size), FilePlan(2, c, a, 1, size)]
    }

    function Holding(content: int): Entry { Entry(Regular, content, size) }

    function TheBook(): Book {
      Book(map[a := Move(Plans()[0], ta), b := Move(Plans()[1], tb), c := Move(Plans()[2], tc)],
           map[b := a, c := b, a := c])
    }

    function Origin(): Files { map[a := Holding(x), b := Holding(y), c := Holding(z)] }

    /** After publishing the first two. */
    function Stopped(): Files { map[b := Holding(x), c := Holding(y), tc := Holding(z)] }

    /** After the second run. */
    function After(): Files { map[c := Holding(x), a := Holding(z)] }

    function First(): Progress {
      Progress({a, b, c}, {a, b}, {}, map[ta := Holding(x), tb := Holding(y), tc := Holding(z)], Stopped())
    }

    function Second(): Progress {
      Progress({b}, {b, c}, {}, map[c := Holding(y), tb := Holding(x), tc := Holding(z)], After())
    }
  }

  lemma {:induction false} CycleIsSeparate(ring: Ring)
    requires ring.Valid()
    ensures Disjoint(ring.TheBook(), ring.Plans())
  {
  }

  lemma {:induction false} CycleIsFresh(ring: Ring)
    requires ring.Valid()
    ensures Fresh(ring.TheBook(), ring.Plans(), ring.Origin())
  {
    CycleIsSeparate(ring);
    assert Excluded(ring.Plans()) == {};
  }

  lemma {:induction false} OriginSets(ring: Ring)
    requires ring.Valid()
    ensures ring.TheBook().Unstaged(ring.Origin()) == {ring.a, ring.b, ring.c}
    ensures ring.TheBook().Pending(ring.Origin()) == {ring.a, ring.b, ring.c}
  {
    var book, all := ring.TheBook(), {ring.a, ring.b, ring.c};
    assert book.moving.Keys == all;
    forall s | s in all ensures s in ring.Origin() && book.Temp(s) !in ring.Origin() {
    }
  }

  lemma {:induction false} FirstStages(ring: Ring)
    requires ring.Valid()
    ensures ring.TheBook().IsStaged(ring.Origin(), ring.First().afterStaging, ring.First().staged)
  {
  }

  lemma {:induction false} FirstPublishes(ring: Ring)
    requires ring.Valid()
    ensures ring.TheBook().IsPublished(ring.First().afterStaging, ring.Stopped(), ring.First().published)
  {
    var book := ring.TheBook();
    assert book.Temp(ring.a) == ring.ta && book.Temp(ring.b) == ring.tb;
    assert book.Target(ring.a) == ring.b && book.Target(ring.b) == ring.c;
  }

  lemma {:induction false} CycleStops(ring: Ring)
    requires ring.Valid()
    ensures Reached(ring.TheBook(), ring.Plans(), ring.Origin(), ring.Stopped(), ring.First())
  {
    OriginSets(ring);
    FirstStages(ring);
    FirstPublishes(ring);
  }

  lemma {:induction false} StoppedIsClear(ring: Ring, s: string)
    requires ring.Valid() && s in {ring.a, ring.b, ring.c}
    ensures ring.TheBook().Clear(ring.Stopped(), s)
  {
    if s == ring.a {
      return;
    } else if s == ring.b {
      return;
    } else {
      return;
    }
  }

  lemma {:induction false} StoppedIsComplete(ring: Ring)
    requires ring.Valid()
    ensures Complete(ring.TheBook(), ring.Plans(), ring.Stopped())
  {
  }

  lemma {:induction false} CycleIsAccepted(ring: Ring)
    requires ring.Valid()
    ensures forall s :: s in ring.TheBook().moving ==> ring.TheBook().Clear(ring.Stopped(), s)
    ensures Complete(ring.TheBook(), ring.Plans(), ring.Stopped())
  {
    forall s | s in ring.TheBook().moving ensures ring.TheBook().Clear(ring.Stopped(), s) {
      StoppedIsClear(ring, s);
    }
    StoppedIsComplete(ring);
  }

  lemma {:induction false} StoppedSets(ring: Ring)
    requires ring.Valid()
    ensures ring.TheBook().Unstaged(ring.Stopped()) == {ring.b}
    ensures ring.TheBook().Pending(ring.Stopped()) == {ring.b, ring.c}
  {
  }

  lemma {:induction false} SecondStages(ring: Ring)
    requires ring.Valid()
    ensures ring.TheBook().IsStaged(ring.Stopped(), ring.Second().afterStaging, ring.Second().staged)
  {
  }

  lemma {:induction false} SecondPublishes(ring: Ring)
    requires ring.Valid()
    ensures ring.TheBook().IsPublished(ring.Second().afterStaging, ring.After(), ring.Second().published)
  {
  }

  lemma {:induction false} CycleResumes(ring: Ring)
    requires ring.Valid()
    ensures Reached(ring.TheBook(), ring.Plans(), ring.Stopped(), ring.After(), ring.Second())
    ensures Finished(ring.TheBook(), ring.Plans(), ring.Stopped(), ring.Second())
  {
    assert Excluded(ring.Plans()) == {};
    StoppedSets(ring);
    SecondStages(ring);
    SecondPublishes(ring);
  }

  predicate CycleNames(ring: Ring, hash: string) {
    && ring.ta == TempName(hash, ring.Plans()[0]) && ring.tb == TempName(hash, ring.Plans()[1])
    && ring.tc == TempName(hash, ring.Plans()[2])
  }

  lemma {:induction false} CycleBookUpTo(ring: Ring, hash: string)
    requires ring.Valid() && CycleNames(ring, hash)
    ensures BookUpTo(hash, ring.Plans(), 0) == Book(map[], map[])
    ensures BookUpTo(hash, ring.Plans(), 1) ==
              Book(map[ring.a := Move(ring.Plans()[0], ring.ta)], map[ring.b := ring.a])
    ensures BookUpTo(hash, ring.Plans(), 2) ==
              Book(map[ring.a := Move(ring.Plans()[0], ring.ta), ring.b := Move(ring.Plans()[1], ring.tb)],
                   map[ring.b := ring.a, ring.c := ring.b])
  {
  }

  lemma {:induction false} CycleBooks(ring: Ring, hash: string)
    requires ring.Valid() && CycleNames(ring, hash)
    ensures BookOf(hash, ring.Plans()) == ring.TheBook()
    ensures forall i :: 0 <= i < 3 ==> ring.Plans()[i].original !in BookUpTo(hash, ring.Plans(), i).moving
  {
    CycleBookUpTo(ring, hash);
    assert BookUpTo(hash, ring.Plans(), 3) == BookUpTo(hash, ring.Plans(), 2).Add(hash, ring.Plans()[2]);
  }

  lemma {:induction false} CycleIsReadable(ring: Ring, hash: string, fs: Files)
    requires ring.Valid() && CycleNames(ring, hash)
    requires ValidManifestPath(ring.a) && ValidManifestPath(ring.b) && ValidManifestPath(ring.c)
    requires LinkFree(fs, ring.a) && LinkFree(fs, ring.b) && LinkFree(fs, ring.c)
    ensures Readable(hash, ring.Plans(), fs)
  {
    CycleBooks(ring, hash);
  }

  lemma {:induction false} CycleIsAcceptedAgain(ring: Ring, hash: string)
    requires hash != "" && ring.Valid() && CycleNames(ring, hash)
    requires ValidManifestPath(ring.a) && ValidManifestPath(ring.b) && ValidManifestPath(ring.c)
    ensures Accepts(hash, ring.Plans(), ring.Stopped())
  {
    CycleIsReadable(ring, hash, ring.Stopped());
    CycleBooks(ring, hash);
    CycleIsAccepted(ring);
  }

  /** Three files of one size go round in a cycle. The run stops after it published two of them; both now lie where
      another's source was. The next run finds nothing wrong, goes all the way, and the second file's content is
      gone. */
  lemma {:induction false} CycleLosesContent(ring: Ring, hash: string)
    requires hash != "" && ring.Valid() && CycleNames(ring, hash)
    requires ValidManifestPath(ring.a) && ValidManifestPath(ring.b) && ValidManifestPath(ring.c)
    ensures BookOf(hash, ring.Plans()) == ring.TheBook()
    ensures Readable(hash, ring.Plans(), ring.Origin()) && Fresh(ring.TheBook(), ring.Plans(), ring.Origin())
    ensures Reached(ring.TheBook(), ring.Plans(), ring.Origin(), ring.Stopped(), ring.First())
    ensures Accepts(hash, ring.Plans(), ring.Stopped()) && Complete(ring.TheBook(), ring.Plans(), ring.Stopped())
    ensures Reached(ring.TheBook(), ring.Plans(), ring.Stopped(), ring.After(), ring.Second())
    ensures Finished(ring.TheBook(), ring.Plans(), ring.Stopped(), ring.Second())
    ensures ring.b in ring.Origin() && forall p :: p in ring.After() ==> ring.After()[p] != ring.Origin()[ring.b]
  {
    assert ring.b in ring.Origin() && forall p :: p in ring.After() ==> ring.After()[p] != ring.Origin()[ring.b];
    CycleBooks(ring, hash);
    CycleIsReadable(ring, hash, ring.Origin());
    CycleIsAcceptedAgain(ring, hash);
    CycleIsFresh(ring);
    CycleStops(ring);
    CycleIsAccepted(ring);
    CycleResumes(ring);
  }
}
