/** What the verification of copied content asks of the disk: which files it renames, which it expects where, and why
    these agree (internal/reconcile/reconcile.go). */
module LocalVerify {
  import opened Paths
  import opened FilePlans
  import opened FileTables
  import opened FolderRenames
  import opened Manifests

  /** The plan of one file: from its place in the torrent to its stored path. */
  function PlanAt(manifest: seq<File>, overrides: map<int, Override>, i: nat): FilePlan
    requires i < |manifest|
  {
    var e := EffectiveOf(manifest, overrides, i);
    FilePlan(i, manifest[i].path, e.path, e.priority, manifest[i].size)
  }

  function PlansUpTo(manifest: seq<File>, overrides: map<int, Override>, n: nat): (plans: seq<FilePlan>)
    requires n <= |manifest|
    ensures |plans| == n && forall i :: 0 <= i < n ==> plans[i] == PlanAt(manifest, overrides, i)
  {
    if n == 0 then [] else PlansUpTo(manifest, overrides, n - 1) + [PlanAt(manifest, overrides, n - 1)]
  }

  function Plans(manifest: seq<File>, overrides: map<int, Override>): seq<FilePlan> {
    PlansUpTo(manifest, overrides, |manifest|)
  }

  /** The selected files at their stored paths, numbered afresh. */
  function ExpectedUpTo(hash: string, manifest: seq<File>, overrides: map<int, Override>, n: nat): seq<ManifestFile>
    requires n <= |manifest|
  {
    if n == 0 then []
    else
      var before, e := ExpectedUpTo(hash, manifest, overrides, n - 1), EffectiveOf(manifest, overrides, n - 1);
      if e.priority != 0 then before + [ManifestFile(hash, |before|, e.path, manifest[n - 1].size)] else before
  }

  function Expected(hash: string, manifest: seq<File>, overrides: map<int, Override>): seq<ManifestFile> {
    ExpectedUpTo(hash, manifest, overrides, |manifest|)
  }

  method PlanVerification(hash: string, manifest: seq<File>, overrides: map<int, Override>)
    returns (plans: seq<FilePlan>, expected: seq<ManifestFile>, hasOverride: bool)
    ensures plans == Plans(manifest, overrides) && expected == Expected(hash, manifest, overrides)
    ensures hasOverride <==> exists i :: 0 <= i < |manifest| && i in overrides
  {
    plans, expected, hasOverride := [], [], false;
    for i := 0 to |manifest|
      invariant plans == PlansUpTo(manifest, overrides, i) && expected == ExpectedUpTo(hash, manifest, overrides, i)
      invariant hasOverride <==> exists j :: 0 <= j < i && j in overrides
    {
      var plan := FilePlan(i, manifest[i].path, manifest[i].path, 1, manifest[i].size);
      if i in overrides {
        hasOverride := true;
        plan := plan.(effective := overrides[i].path, priority := overrides[i].priority);
      }
      plans := plans + [plan];
      if plan.priority != 0 {
        expected := expected + [ManifestFile(hash, |expected|, plan.effective, manifest[i].size)];
      }
    }
  }

  // ---- The expectation is a valid manifest -----------------------------------------------------

  function SizeUpTo(manifest: seq<File>, n: nat): int
    requires n <= |manifest|
  {
    if n == 0 then 0 else SizeUpTo(manifest, n - 1) + manifest[n - 1].size
  }

  lemma {:induction false} ExpectedPaths(hash: string, manifest: seq<File>, overrides: map<int, Override>, n: nat,
                                         k: nat) returns (i: nat)
    requires n <= |manifest| && k < |ExpectedUpTo(hash, manifest, overrides, n)|
    ensures i < n && EffectiveOf(manifest, overrides, i).priority != 0
    ensures ExpectedUpTo(hash, manifest, overrides, n)[k] ==
              ManifestFile(hash, k, EffectiveOf(manifest, overrides, i).path, manifest[i].size)
    ensures k == |ExpectedUpTo(hash, manifest, overrides, i)|
  {
    if k < |ExpectedUpTo(hash, manifest, overrides, n - 1)| {
      i := ExpectedPaths(hash, manifest, overrides, n - 1, k);
    } else {
      i := n - 1;
    }
  }

  lemma {:induction false} ExpectedSizes(hash: string, manifest: seq<File>, overrides: map<int, Override>, n: nat)
    requires n <= |manifest| && forall i :: 0 <= i < |manifest| ==> manifest[i].size >= 0
    ensures 0 <= TotalSize(ExpectedUpTo(hash, manifest, overrides, n)) <= SizeUpTo(manifest, n)
  {
    if n > 0 {
      ExpectedSizes(hash, manifest, overrides, n - 1);
      var before, all := ExpectedUpTo(hash, manifest, overrides, n - 1), ExpectedUpTo(hash, manifest, overrides, n);
      assert |all| > |before| ==> all[..|all| - 1] == before;
    }
  }

  lemma {:induction false} TotalOfPrefix(files: seq<ManifestFile>, n: nat)
    requires n <= |files| && forall i :: 0 <= i < |files| ==> files[i].size >= 0
    ensures TotalSize(files[..n]) <= TotalSize(files)
  {
    if n == |files| {
      assert files[..n] == files;
    } else {
      var shorter := files[..|files| - 1];
      TotalOfPrefix(shorter, n);
      assert shorter[..n] == files[..n];
    }
  }

  lemma {:induction false} ExpectedDiffer(hash: string, manifest: seq<File>, overrides: map<int, Override>, j: nat,
                                          k: nat)
    requires ConflictFree(manifest, overrides) && j < k < |Expected(hash, manifest, overrides)|
    ensures Expected(hash, manifest, overrides)[j].path != Expected(hash, manifest, overrides)[k].path
  {
    var a := ExpectedPaths(hash, manifest, overrides, |manifest|, j);
    var b := ExpectedPaths(hash, manifest, overrides, |manifest|, k);
    EffectiveDiffer(manifest, overrides, a, b);
  }

  lemma {:induction false} ExpectedSizesNonNegative(hash: string, manifest: seq<File>, overrides: map<int, Override>)
    requires forall i :: 0 <= i < |manifest| ==> manifest[i].size >= 0
    ensures forall k :: 0 <= k < |Expected(hash, manifest, overrides)| ==>
              Expected(hash, manifest, overrides)[k].size >= 0
  {
    forall k | 0 <= k < |Expected(hash, manifest, overrides)| ensures Expected(hash, manifest, overrides)[k].size >= 0 {
      var i := ExpectedPaths(hash, manifest, overrides, |manifest|, k);
    }
  }

  lemma {:induction false} ExpectedFileGood(hash: string, manifest: seq<File>, overrides: map<int, Override>, k: nat)
    requires ConflictFree(manifest, overrides) && forall i :: 0 <= i < |manifest| ==> manifest[i].size >= 0
    requires SizeUpTo(manifest, |manifest|) <= MAX_INT64 && k < |Expected(hash, manifest, overrides)|
    ensures GoodFile(hash, Expected(hash, manifest, overrides), k) <==>
              ValidManifestPath(Expected(hash, manifest, overrides)[k].path)
  {
    var files := Expected(hash, manifest, overrides);
    var i := ExpectedPaths(hash, manifest, overrides, |manifest|, k);
    forall j | 0 <= j < k ensures files[j].path != files[k].path {
      ExpectedDiffer(hash, manifest, overrides, j, k);
    }
    ExpectedSizesNonNegative(hash, manifest, overrides);
    ExpectedSizes(hash, manifest, overrides, |manifest|);
    TotalOfPrefix(files, k + 1);
  }

  /** Every selected file is in the expectation. */
  lemma {:induction false} SelectedIsExpected(hash: string, manifest: seq<File>, overrides: map<int, Override>, n: nat,
                                              i: nat) returns (k: nat)
    requires i < n <= |manifest| && EffectiveOf(manifest, overrides, i).priority != 0
    ensures k < |ExpectedUpTo(hash, manifest, overrides, n)|
    ensures ExpectedUpTo(hash, manifest, overrides, n)[k].path == EffectiveOf(manifest, overrides, i).path
  {
    if i == n - 1 {
      k := |ExpectedUpTo(hash, manifest, overrides, n - 1)|;
    } else {
      k := SelectedIsExpected(hash, manifest, overrides, n - 1, i);
    }
  }

  predicate SelectedPathsValid(manifest: seq<File>, overrides: map<int, Override>) {
    forall i :: 0 <= i < |manifest| && EffectiveOf(manifest, overrides, i).priority != 0 ==>
      ValidManifestPath(EffectiveOf(manifest, overrides, i).path)
  }

  lemma {:induction false} ExpectedPathsValid(hash: string, manifest: seq<File>, overrides: map<int, Override>)
    ensures SelectedPathsValid(manifest, overrides) <==>
              forall k :: 0 <= k < |Expected(hash, manifest, overrides)| ==>
                ValidManifestPath(Expected(hash, manifest, overrides)[k].path)
  {
    var files := Expected(hash, manifest, overrides);
    if SelectedPathsValid(manifest, overrides) {
      forall k | 0 <= k < |files| ensures ValidManifestPath(files[k].path) {
        var i := ExpectedPaths(hash, manifest, overrides, |manifest|, k);
      }
    } else {
      var i :| 0 <= i < |manifest| && EffectiveOf(manifest, overrides, i).priority != 0
               && !ValidManifestPath(EffectiveOf(manifest, overrides, i).path);
      var k := SelectedIsExpected(hash, manifest, overrides, |manifest|, i);
      assert !ValidManifestPath(files[k].path);
    }
  }

  /** Whatever the overrides, as long as stored paths do not conflict, the renumbered list of selected files passes the
      scheduler's manifest check if and only if some file is selected and every selected path passes the path check. */
  lemma {:induction false} ExpectationExact(hash: string, manifest: seq<File>, overrides: map<int, Override>)
    requires ConflictFree(manifest, overrides) && forall i :: 0 <= i < |manifest| ==> manifest[i].size >= 0
    requires SizeUpTo(manifest, |manifest|) <= MAX_INT64
    ensures var files := Expected(hash, manifest, overrides);
            ValidManifest(hash, true, TotalSize(files), files) <==>
              files != [] && SelectedPathsValid(manifest, overrides)
  {
    var files := Expected(hash, manifest, overrides);
    forall k | 0 <= k < |files| ensures GoodFile(hash, files, k) <==> ValidManifestPath(files[k].path) {
      ExpectedFileGood(hash, manifest, overrides, k);
    }
    ExpectedPathsValid(hash, manifest, overrides);
  }

  // ---- Which edits keep the paths valid --------------------------------------------------------

  predicate PathsValid(manifest: seq<File>, overrides: map<int, Override>) {
    forall i :: 0 <= i < |manifest| ==> ValidManifestPath(EffectiveOf(manifest, overrides, i).path)
  }

  /** An override keeps them valid exactly if its own path is, or its file is not in the list; the store does not
      look. */
  lemma {:induction false} OverrideKeepsPathsValid(manifest: seq<File>, overrides: map<int, Override>, index: nat,
                                                   o: Override)
    requires PathsValid(manifest, overrides)
    ensures PathsValid(manifest, overrides[index := o]) <==> index >= |manifest| || ValidManifestPath(o.path)
  {
    var next := overrides[index := o];
    forall i | 0 <= i < |manifest|
      ensures EffectiveOf(manifest, next, i) == if i == index then o else EffectiveOf(manifest, overrides, i)
    {
      StoredEffective(manifest, overrides, o, index, i);
    }
    if index < |manifest| && !ValidManifestPath(o.path) {
      assert EffectiveOf(manifest, next, index) == o;
    }
  }

  /** Priorities and folder renames that the table accepts always do. */
  lemma {:induction false} PrioritiesKeepPathsValid(manifest: seq<File>, overrides: map<int, Override>,
                                                    indexes: seq<int>, priority: int)
    ensures PathsValid(manifest, Prioritized(manifest, overrides, indexes, priority)) <==>
              PathsValid(manifest, overrides)
  {
    var next := Prioritized(manifest, overrides, indexes, priority);
    assert forall i :: 0 <= i < |manifest| ==>
                         EffectiveOf(manifest, next, i).path == EffectiveOf(manifest, overrides, i).path;
  }

  lemma {:induction false} RewriteKeepsValid(p: string, from: string, to: string)
    requires ValidManifestPath(p) && PlainPath(to)
    ensures ValidManifestPath(Rewrite(p, from, to))
  {
    if UnderFolder(p, from) {
      var q := Rewrite(p, from, to);
      RewriteComponents(p, from, to);
      ValidPathExact(p);
      forall part | part in Split(q) ensures GoodComponent(part) {
        assert part in Split(to) || part in Split(p);
      }
      ValidPathExact(q);
    }
  }

  lemma {:induction false} FolderKeepsPathsValid(manifest: seq<File>, overrides: map<int, Override>, from: string,
                                                 to: string)
    requires PathsValid(manifest, overrides) && PlainPath(to)
    ensures PathsValid(manifest, Refoldered(manifest, overrides, from, to))
  {
    forall i | 0 <= i < |manifest|
      ensures ValidManifestPath(EffectiveOf(manifest, Refoldered(manifest, overrides, from, to), i).path)
    {
      RefolderedEffective(manifest, overrides, from, to, i);
      RewriteKeepsValid(EffectiveOf(manifest, overrides, i).path, from, to);
    }
  }

  /** A name of one control character above 0x7f passes the handler's check and the store's, and can never be
      verified. */
  lemma {:induction false} StoredButNeverVerified(hash: string, c: char, path: string, size: int)
    requires '\U{80}' <= c <= '\U{9f}'
    ensures SafeRelativePath([c]) && FileTables.Clear([File(path, size)], map[], 0, [c])
    ensures var files := Expected(hash, [File(path, size)], map[0 := Override([c], 1)]);
            !ValidManifest(hash, true, TotalSize(files), files)
  {
    var manifest, overrides := [File(path, size)], map[0 := Override([c], 1)];
    SplitWhole([c]);
    ReduceGood([[c]], [], false);
    assert c in [c] && IsControl(c);
    var k := SelectedIsExpected(hash, manifest, overrides, 1, 0);
    assert !GoodFile(hash, Expected(hash, manifest, overrides), k);
  }
}
