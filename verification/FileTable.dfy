/** The stored file list of a torrent with its overrides, and the operations that edit it (internal/store/repository.go,
    internal/store/repository_qbt_surface.go). */
module FileTables {
  import opened Paths

  // ---- Paths that cannot both exist ------------------------------------------------------------

  predicate PathConflicts(a: string, b: string) {
    var x, y := Clean(a), Clean(b);
    x == y || y + "/" <= x || x + "/" <= y
  }

  /** A relative path of plain components. */
  predicate PlainPath(p: string) {
    p != "" && forall part :: part in Split(p) ==> GoodComponent(part)
  }

  lemma {:induction false} PlainIsClean(p: string)
    requires PlainPath(p)
    ensures Clean(p) == p
  {
    JoinSplit(p);
    JoinIsClean(Split(p));
  }

  lemma {:induction false} JoinConcat(a: seq<string>, b: seq<string>)
    requires a != [] && b != []
    ensures Join(a + b) == Join(a) + "/" + Join(b)
  {
    if |a| == 1 {
      assert a + b == [a[0]] + b && (a + b)[1..] == b;
    } else {
      assert (a + b)[1..] == a[1..] + b;
      JoinConcat(a[1..], b);
      assert Join(a + b) == a[0] + "/" + (Join(a[1..]) + "/" + Join(b));
      assert Join(a) == a[0] + "/" + Join(a[1..]);
    }
  }

  /** One path lies under another exactly when its components continue the other's. */
  lemma {:induction false} UnderIsPrefix(a: string, b: string)
    ensures a + "/" <= b <==> Split(a) < Split(b)
  {
    if a + "/" <= b {
      var rest := b[|a| + 1..];
      assert b == a + "/" + rest;
      SplitConcat(a, rest);
    }
    if Split(a) < Split(b) {
      var more := Split(b)[|Split(a)|..];
      assert Split(b) == Split(a) + more;
      JoinConcat(Split(a), more);
      JoinSplit(a);
      JoinSplit(b);
      assert b == a + "/" + Join(more);
    }
  }

  /** Two plain paths conflict exactly when the components of one are a prefix of the other's: the same file, or one
      would have to be a directory for the other. */
  lemma {:induction false} ConflictIsPrefix(a: string, b: string)
    requires PlainPath(a) && PlainPath(b)
    ensures PathConflicts(a, b) <==> Split(a) <= Split(b) || Split(b) <= Split(a)
  {
    PlainIsClean(a);
    PlainIsClean(b);
    UnderIsPrefix(a, b);
    UnderIsPrefix(b, a);
    if Split(a) == Split(b) {
      JoinSplit(a);
      JoinSplit(b);
    }
  }

  // ---- Rewriting a folder prefix ---------------------------------------------------------------

  predicate UnderFolder(p: string, folder: string) {
    p == folder || folder + "/" <= p
  }

  /** The path after the folder `from` was renamed to `to`. */
  function Rewrite(p: string, from: string, to: string): string {
    if p == from then to
    else if from + "/" <= p then to + p[|from|..]
    else p
  }

  /** Rewriting replaces the folder's components and keeps the others. */
  lemma {:induction false} RewriteComponents(p: string, from: string, to: string)
    requires UnderFolder(p, from)
    ensures Split(from) <= Split(p)
    ensures Split(Rewrite(p, from, to)) == Split(to) + Split(p)[|Split(from)|..]
  {
    if p == from {
      assert Split(to) + [] == Split(to);
    } else {
      var rest := p[|from| + 1..];
      assert p == from + "/" + rest;
      SplitConcat(from, rest);
      assert p[|from|..] == "/" + rest;
      assert Rewrite(p, from, to) == to + "/" + rest;
      SplitConcat(to, rest);
    }
  }

  /** Files of a folder stay as far from conflicting as they were. */
  lemma {:induction false} RewriteKeepsOrder(p: string, q: string, from: string, to: string)
    requires UnderFolder(p, from) && UnderFolder(q, from)
    ensures Split(Rewrite(p, from, to)) <= Split(Rewrite(q, from, to)) <==> Split(p) <= Split(q)
  {
    RewriteComponents(p, from, to);
    RewriteComponents(q, from, to);
    PrefixReplaced(Split(from), Split(to), Split(p), Split(q));
  }

  /** And different files stay different. */
  lemma {:induction false} RewriteInjective(p: string, q: string, from: string, to: string)
    requires UnderFolder(p, from) && UnderFolder(q, from) && Rewrite(p, from, to) == Rewrite(q, from, to)
    ensures p == q
  {
    RewriteKeepsOrder(p, q, from, to);
    RewriteKeepsOrder(q, p, from, to);
    assert Split(p) == Split(q);
    JoinSplit(p);
    JoinSplit(q);
  }

  lemma {:induction false} PrefixReplaced(a: seq<string>, b: seq<string>, s: seq<string>, t: seq<string>)
    requires a <= s && a <= t
    ensures b + s[|a|..] <= b + t[|a|..] <==> s <= t
  {
    var x, y := s[|a|..], t[|a|..];
    assert s == a + x && t == a + y;
    PrefixCancels(a, x, y);
    PrefixCancels(b, x, y);
  }

  lemma {:induction false} PrefixCancels(a: seq<string>, x: seq<string>, y: seq<string>)
    ensures a + x <= a + y <==> x <= y
  {
    if x <= y {
      assert y == x + y[|x|..];
      assert a + y == (a + x) + y[|x|..];
    }
    if a + x <= a + y {
      assert x == (a + x)[|a|..] && y == (a + y)[|a|..];
      assert (a + y)[..|a + x|] == a + x;
      assert y[..|x|] == (a + y)[|a|..|a + x|] == (a + x)[|a|..];
    }
  }

  // ---- The table -------------------------------------------------------------------------------

  datatype File = File(path: string, size: int)

  datatype Override = Override(path: string, priority: int)

  datatype EditResult = Edited | NotAllowed | Conflicting | NothingThere

  function EffectiveOf(manifest: seq<File>, overrides: map<int, Override>, i: nat): Override
    requires i < |manifest|
  {
    if i in overrides then overrides[i] else Override(manifest[i].path, 1)
  }

  /** An index is known if it is in the file list, or has an override, which may lie outside the list. */
  predicate Known(manifest: seq<File>, overrides: map<int, Override>, i: int) {
    0 <= i < |manifest| || i in overrides
  }

  function AtIndex(manifest: seq<File>, overrides: map<int, Override>, i: int): Override
    requires Known(manifest, overrides, i)
  {
    if i in overrides then overrides[i] else EffectiveOf(manifest, overrides, i)
  }

  /** Something is selected, be it only an override outside the list. */
  ghost predicate AnySelected(manifest: seq<File>, overrides: map<int, Override>) {
    exists i :: Known(manifest, overrides, i) && AtIndex(manifest, overrides, i).priority != 0
  }

  predicate ConflictFree(manifest: seq<File>, overrides: map<int, Override>) {
    forall i, j :: 0 <= i < j < |manifest| ==>
      !PathConflicts(EffectiveOf(manifest, overrides, i).path, EffectiveOf(manifest, overrides, j).path)
  }

  predicate SomeSelected(manifest: seq<File>, overrides: map<int, Override>) {
    exists i :: 0 <= i < |manifest| && EffectiveOf(manifest, overrides, i).priority != 0
  }

  /** No other file's path conflicts with this one. */
  predicate Clear(manifest: seq<File>, overrides: map<int, Override>, index: int, path: string) {
    forall i :: 0 <= i < |manifest| && i != index ==> !PathConflicts(EffectiveOf(manifest, overrides, i).path, path)
  }

  /** Another file is selected. */
  predicate OtherSelected(manifest: seq<File>, overrides: map<int, Override>, index: int) {
    exists i :: 0 <= i < |manifest| && i != index && EffectiveOf(manifest, overrides, i).priority != 0
  }

  predicate KnownPriority(p: int) { p in {0, 1, 6, 7} }

  lemma {:induction false} ConflictsSymmetric(a: string, b: string)
    ensures PathConflicts(a, b) == PathConflicts(b, a)
  {
  }

  /** Files that do not conflict have different paths. */
  lemma {:induction false} EffectiveDiffer(manifest: seq<File>, overrides: map<int, Override>, i: nat, j: nat)
    requires ConflictFree(manifest, overrides) && i < |manifest| && j < |manifest| && i != j
    ensures EffectiveOf(manifest, overrides, i).path != EffectiveOf(manifest, overrides, j).path
  {
  }

  class FileTable {
    const manifest: seq<File>
    var overrides: map<int, Override>
    /** No work has started, or the download is complete; in both cases no worker holds the row. */
    var untouched: bool
    var complete: bool

    function Effective(i: nat): Override
      requires i < |manifest|
      reads this
    {
      EffectiveOf(manifest, overrides, i)
    }

    ghost predicate Valid() reads this {
      ConflictFree(manifest, overrides) && SomeSelected(manifest, overrides)
    }

    constructor (manifest: seq<File>)
      requires manifest != []
      ensures this.manifest == manifest && overrides == map[] && untouched && !complete
      ensures Valid() <==> ConflictFree(manifest, map[])
    {
      this.manifest := manifest;
      overrides := map[];
      untouched, complete := true, false;
      new;
      assert Effective(0).priority != 0;
    }

    /** Moves one file to a path, with a priority, unless the path conflicts with another file's. */
    method SetFileOverride(index: int, relative: string, priority: int) returns (r: EditResult)
      modifies this`overrides
      ensures r == Edited ==> overrides == old(overrides)[index := Override(relative, priority)]
      ensures r != Edited ==> overrides == old(overrides)
      ensures r == Edited <==>
                && index >= 0 && relative != "" && KnownPriority(priority) && (untouched || complete)
                && Clear(manifest, old(overrides), index, relative)
      ensures ConflictFree(manifest, old(overrides)) ==> ConflictFree(manifest, overrides)
      ensures old(Valid()) ==>
                (Valid() <==>
                  r != Edited || index >= |manifest| || priority != 0 || OtherSelected(manifest, old(overrides), index))
    {
      if index < 0 || relative == "" || !KnownPriority(priority) || !(untouched || complete) {
        return NotAllowed;
      }
      var clear := ClearOfOthers(index, relative);
      if !clear {
        return Conflicting;
      }
      OverrideOutcome(manifest, overrides, index, Override(relative, priority));
      overrides := overrides[index := Override(relative, priority)];
      r := Edited;
    }

    /** The path conflicts with no other file's. */
    method ClearOfOthers(index: int, relative: string) returns (clear: bool)
      ensures clear <==> Clear(manifest, overrides, index, relative)
    {
      for i := 0 to |manifest|
        invariant forall j :: 0 <= j < i && j != index ==>
                  !PathConflicts(EffectiveOf(manifest, overrides, j).path, relative)
      {
        if i != index && PathConflicts(EffectiveOf(manifest, overrides, i).path, relative) {
          return false;
        }
      }
      clear := true;
    }

    /** Gives the listed files one priority; refused if nothing would be left selected. */
    method SetFilePriorities(indexes: seq<int>, priority: int) returns (r: EditResult)
      modifies this`overrides
      ensures r == Edited ==> overrides == Prioritized(manifest, old(overrides), indexes, priority)
      ensures r != Edited ==> overrides == old(overrides)
      ensures r == Edited <==>
                && indexes != [] && KnownPriority(priority) && untouched
                && (forall i :: i in indexes ==> Known(manifest, old(overrides), i))
                && AnySelected(manifest, Prioritized(manifest, old(overrides), indexes, priority))
      ensures old(Valid()) ==> (Valid() <==> SomeSelected(manifest, overrides))
      ensures old(Valid()) && (forall i :: i in old(overrides) ==> 0 <= i < |manifest|) ==> Valid()
    {
      if indexes == [] || !KnownPriority(priority) || !untouched {
        return NotAllowed;
      }
      var next := overrides;
      for n := 0 to |indexes|
        invariant forall i :: i in indexes[..n] ==> Known(manifest, overrides, i)
        invariant next == Prioritized(manifest, overrides, indexes[..n], priority)
        invariant overrides == old(overrides)
      {
        var index := indexes[n];
        assert indexes[..n + 1] == indexes[..n] + [index];
        if !Known(manifest, overrides, index) {
          assert index in indexes;
          return NotAllowed;
        }
        next := next[index := AtIndex(manifest, overrides, index).(priority := priority)];
      }
      assert indexes[..|indexes|] == indexes;
      PrioritiesKeepConflictFree(manifest, overrides, indexes, priority);
      PrioritiesKeepIndexes(manifest, overrides, indexes, priority);
      var selected := HasSelection(next);
      if !selected {
        return NotAllowed;
      }
      overrides := next;
      r := Edited;
    }

    /** The loop over the edited entries, in any order. */
    method HasSelection(next: map<int, Override>) returns (selected: bool)
      ensures selected <==> AnySelected(manifest, next)
    {
      var todo := next.Keys + set i | 0 <= i < |manifest| && Known(manifest, next, i);
      while todo != {}
        invariant forall i :: i in todo ==> Known(manifest, next, i)
        invariant forall i :: Known(manifest, next, i) && i !in todo ==> AtIndex(manifest, next, i).priority == 0
      {
        var i :| i in todo;
        if AtIndex(manifest, next, i).priority != 0 {
          return true;
        }
        todo := todo - {i};
      }
      selected := false;
    }

    /** Renames a folder: rewrites every path under it in a working copy, checks every pair, and stores what changed. */
    method RenameFolder(from: string, to: string) returns (r: EditResult)
      modifies this`overrides
      ensures r == Edited ==> overrides == Refoldered(manifest, old(overrides), from, to)
      ensures r == Edited ==> ConflictFree(manifest, overrides)
      ensures r != Edited ==> overrides == old(overrides)
      ensures r == Edited <==>
                && PlainPath(from) && PlainPath(to) && (untouched || complete)
                && (exists i :: 0 <= i < |manifest| && UnderFolder(EffectiveOf(manifest, old(overrides), i).path, from))
                && ConflictFree(manifest, Refoldered(manifest, old(overrides), from, to))
      ensures old(Valid()) ==> Valid()
    {
      if !PlainPath(from) || !PlainPath(to) || !(untouched || complete) {
        return NotAllowed;
      }
      var effective, changed := Rewritten(from, to);
      if !changed {
        return NothingThere;
      }
      RefolderedIs(manifest, overrides, from, to, effective);
      var clear := AllApart(effective);
      if !clear {
        return Conflicting;
      }
      if SomeSelected(manifest, overrides) {
        RefolderedKeepsSelection(manifest, overrides, from, to);
      }
      StoreChanged(effective, from, to);
      r := Edited;
    }

    /** The working copy with every path under the folder rewritten, and whether there was one. */
    method Rewritten(from: string, to: string) returns (paths: seq<Override>, changed: bool)
      ensures |paths| == |manifest|
      ensures forall i :: 0 <= i < |manifest| ==>
                paths[i] == Override(Rewrite(Effective(i).path, from, to), Effective(i).priority)
      ensures changed <==>
                exists i :: 0 <= i < |manifest| && UnderFolder(EffectiveOf(manifest, overrides, i).path, from)
    {
      var effective := new Override[|manifest|](i requires 0 <= i < |manifest| reads this => Effective(i));
      changed := false;
      for i := 0 to |manifest|
        invariant forall j :: 0 <= j < i ==>
                  effective[j] == Override(Rewrite(Effective(j).path, from, to), Effective(j).priority)
        invariant forall j :: i <= j < |manifest| ==> effective[j] == Effective(j)
        invariant changed <==> exists j :: 0 <= j < i && UnderFolder(EffectiveOf(manifest, overrides, j).path, from)
      {
        if effective[i].path == from {
          effective[i] := effective[i].(path := to);
          changed := true;
        } else if from + "/" <= effective[i].path {
          effective[i] := effective[i].(path := to + effective[i].path[|from|..]);
          changed := true;
        }
      }
      paths := effective[..];
    }

    /** Writes an override for every file whose path differs from the stored one. */
    method StoreChanged(effective: seq<Override>, from: string, to: string)
      requires |effective| == |manifest|
      requires forall i :: 0 <= i < |manifest| ==>
                effective[i] == Override(Rewrite(Effective(i).path, from, to), Effective(i).priority)
      modifies this`overrides
      ensures overrides == Refoldered(manifest, old(overrides), from, to)
    {
      var next := overrides;
      for i := 0 to |manifest|
        invariant overrides == old(overrides)
        invariant next == RefolderedUpTo(manifest, overrides, from, to, i)
      {
        assert effective[i] == Override(Rewrite(EffectiveOf(manifest, overrides, i).path, from, to),
                                        EffectiveOf(manifest, overrides, i).priority);
        if EffectiveOf(manifest, overrides, i).path != effective[i].path {
          next := next[i := effective[i]];
        }
      }
      overrides := next;
    }
  }

  /** One path against all later ones. */
  method ApartFromLater(effective: seq<Override>, i: nat) returns (apart: bool)
    requires i < |effective|
    ensures apart <==> forall j :: i < j < |effective| ==> !PathConflicts(effective[i].path, effective[j].path)
  {
    for j := i + 1 to |effective|
      invariant forall k :: i < k < j ==> !PathConflicts(effective[i].path, effective[k].path)
    {
      if PathConflicts(effective[i].path, effective[j].path) {
        return false;
      }
    }
    apart := true;
  }

  /** The nested check of every pair. */
  method AllApart(effective: seq<Override>) returns (apart: bool)
    ensures apart <==> forall i, j :: 0 <= i < j < |effective| ==> !PathConflicts(effective[i].path, effective[j].path)
  {
    for i := 0 to |effective|
      invariant forall k, j :: 0 <= k < i && k < j < |effective| ==>
                !PathConflicts(effective[k].path, effective[j].path)
    {
      apart := ApartFromLater(effective, i);
      if !apart {
        return;
      }
    }
    apart := true;
  }

  // ---- What the edits mean ---------------------------------------------------------------------

  /** The overrides after the listed known entries got a priority. */
  function Prioritized(manifest: seq<File>, overrides: map<int, Override>, indexes: seq<int>, priority: int)
    : map<int, Override>
  {
    map i | i in overrides.Keys + (set k | k in indexes && Known(manifest, overrides, k)) ::
      if i in indexes then AtIndex(manifest, overrides, i).(priority := priority) else overrides[i]
  }

  /** The entry of a file after the rename. */
  function RewrittenEntry(manifest: seq<File>, overrides: map<int, Override>, from: string, to: string,
                          i: nat): Override
    requires i < |manifest|
  {
    var e := EffectiveOf(manifest, overrides, i);
    Override(Rewrite(e.path, from, to), e.priority)
  }

  /** What the loop stores for one file: an override if its path changes. */
  function WithRewritten(manifest: seq<File>, overrides: map<int, Override>, before: map<int, Override>, from: string,
                         to: string, k: nat): map<int, Override>
    requires k < |manifest|
  {
    var o := RewrittenEntry(manifest, overrides, from, to, k);
    if o.path != EffectiveOf(manifest, overrides, k).path then before[k := o] else before
  }

  function RefolderedUpTo(manifest: seq<File>, overrides: map<int, Override>, from: string, to: string,
                          n: nat): map<int, Override>
    requires n <= |manifest|
  {
    if n == 0 then overrides
    else WithRewritten(manifest, overrides, RefolderedUpTo(manifest, overrides, from, to, n - 1), from, to, n - 1)
  }

  function Refoldered(manifest: seq<File>, overrides: map<int, Override>, from: string, to: string): map<int,
                      Override> {
    RefolderedUpTo(manifest, overrides, from, to, |manifest|)
  }

  lemma {:induction false} StoredEffective(manifest: seq<File>, overrides: map<int, Override>, o: Override, k: nat,
                                           i: nat)
    requires i < |manifest|
    ensures EffectiveOf(manifest, overrides[k := o], i) == if i == k then o else EffectiveOf(manifest, overrides, i)
  {
  }

  /** One more file of the loop: its own path is rewritten, all others stay. */
  lemma {:induction false} RefolderedNext(manifest: seq<File>, overrides: map<int, Override>,
                                          before: map<int, Override>, from: string, to: string, k: nat, i: nat)
    requires k < |manifest| && i < |manifest|
    requires i == k ==> EffectiveOf(manifest, before, i) == EffectiveOf(manifest, overrides, i)
    ensures EffectiveOf(manifest, WithRewritten(manifest, overrides, before, from, to, k), i) ==
            if i == k then RewrittenEntry(manifest, overrides, from, to, i) else EffectiveOf(manifest, before, i)
  {
    StoredEffective(manifest, before, RewrittenEntry(manifest, overrides, from, to, k), k, i);
  }

  lemma {:induction false} RefolderedUpToEffective(manifest: seq<File>, overrides: map<int, Override>, from: string,
                                                   to: string, n: nat, i: nat)
    requires n <= |manifest| && i < |manifest|
    ensures EffectiveOf(manifest, RefolderedUpTo(manifest, overrides, from, to, n), i) ==
            if i < n then RewrittenEntry(manifest, overrides, from, to, i) else EffectiveOf(manifest, overrides, i)
  {
    if n > 0 {
      RefolderedUpToEffective(manifest, overrides, from, to, n - 1, i);
      RefolderedNext(manifest, overrides, RefolderedUpTo(manifest, overrides, from, to, n - 1), from, to, n - 1, i);
    }
  }

  /** A folder rename rewrites every effective path and keeps every priority. */
  lemma {:induction false} RefolderedEffective(manifest: seq<File>, overrides: map<int, Override>, from: string,
                                               to: string, i: nat)
    requires i < |manifest|
    ensures EffectiveOf(manifest, Refoldered(manifest, overrides, from, to), i) ==
            Override(Rewrite(EffectiveOf(manifest, overrides, i).path, from, to),
                     EffectiveOf(manifest, overrides, i).priority)
  {
    RefolderedUpToEffective(manifest, overrides, from, to, |manifest|, i);
  }

  /** The working copy is the table after the rename. */
  lemma {:induction false} RefolderedIs(manifest: seq<File>, overrides: map<int, Override>, from: string, to: string,
                                        effective: seq<Override>)
    requires |effective| == |manifest|
    requires forall i :: 0 <= i < |manifest| ==> var e := EffectiveOf(manifest, overrides, i);
               effective[i] == Override(Rewrite(e.path, from, to), e.priority)
    ensures ConflictFree(manifest, Refoldered(manifest, overrides, from, to)) <==>
              forall i, j :: 0 <= i < j < |effective| ==> !PathConflicts(effective[i].path, effective[j].path)
  {
    forall i | 0 <= i < |manifest|
      ensures EffectiveOf(manifest, Refoldered(manifest, overrides, from, to), i) == effective[i]
    {
      RefolderedEffective(manifest, overrides, from, to, i);
    }
  }

  lemma {:induction false} OverrideKeepsConflictFree(manifest: seq<File>, overrides: map<int, Override>, index: int,
                                                     o: Override)
    requires ConflictFree(manifest, overrides)
    requires Clear(manifest, overrides, index, o.path)
    ensures ConflictFree(manifest, overrides[index := o])
  {
    var next := overrides[index := o];
    forall i, j | 0 <= i < j < |manifest|
      ensures !PathConflicts(EffectiveOf(manifest, next, i).path, EffectiveOf(manifest, next, j).path)
    {
      assert !PathConflicts(EffectiveOf(manifest, overrides, i).path, EffectiveOf(manifest, overrides, j).path);
      ConflictsSymmetric(EffectiveOf(manifest, overrides, j).path, o.path);
    }
  }

  /** Changing priorities leaves every path alone. */
  lemma {:induction false} PrioritiesKeepConflictFree(manifest: seq<File>, overrides: map<int, Override>,
                                                      indexes: seq<int>, priority: int)
    ensures ConflictFree(manifest, overrides) ==>
              ConflictFree(manifest, Prioritized(manifest, overrides, indexes, priority))
  {
    var next := Prioritized(manifest, overrides, indexes, priority);
    assert forall i :: 0 <= i < |manifest| ==>
                         EffectiveOf(manifest, next, i).path == EffectiveOf(manifest, overrides, i).path;
  }

  /** And adds no override outside the file list, so that a selection stays one of files in the list. */
  lemma {:induction false} PrioritiesKeepIndexes(manifest: seq<File>, overrides: map<int, Override>,
                                                 indexes: seq<int>, priority: int)
    requires forall i :: i in indexes ==> Known(manifest, overrides, i)
    ensures var next := Prioritized(manifest, overrides, indexes, priority);
            && (SomeSelected(manifest, next) ==> AnySelected(manifest, next))
            && ((forall i :: i in overrides ==> 0 <= i < |manifest|) && AnySelected(manifest, next) ==>
                  SomeSelected(manifest, next))
  {
    var next := Prioritized(manifest, overrides, indexes, priority);
    if SomeSelected(manifest, next) {
      var i :| 0 <= i < |manifest| && EffectiveOf(manifest, next, i).priority != 0;
      assert Known(manifest, next, i) && AtIndex(manifest, next, i).priority != 0;
    }
    if AnySelected(manifest, next) && forall i :: i in overrides ==> 0 <= i < |manifest| {
      var i :| Known(manifest, next, i) && AtIndex(manifest, next, i).priority != 0;
      assert 0 <= i < |manifest| && EffectiveOf(manifest, next, i).priority != 0;
    }
  }

  lemma {:induction false} RefolderedKeepsSelection(manifest: seq<File>, overrides: map<int, Override>, from: string,
                                                    to: string)
    requires SomeSelected(manifest, overrides)
    ensures SomeSelected(manifest, Refoldered(manifest, overrides, from, to))
  {
    var i :| 0 <= i < |manifest| && EffectiveOf(manifest, overrides, i).priority != 0;
    RefolderedEffective(manifest, overrides, from, to, i);
    assert EffectiveOf(manifest, Refoldered(manifest, overrides, from, to), i).priority != 0;
  }

  /** An override of one file leaves a file selected exactly when it selects that file or another one is. */
  lemma {:induction false} OverrideSelection(manifest: seq<File>, overrides: map<int, Override>, index: nat,
                                             o: Override)
    requires index < |manifest|
    ensures SomeSelected(manifest, overrides[index := o]) <==>
              o.priority != 0 || OtherSelected(manifest, overrides, index)
  {
    var next := overrides[index := o];
    assert EffectiveOf(manifest, next, index) == o;
    assert forall i :: 0 <= i < |manifest| && i != index ==>
             EffectiveOf(manifest, next, i) == EffectiveOf(manifest, overrides, i);
  }

  lemma {:induction false} OverrideOutcome(manifest: seq<File>, overrides: map<int, Override>, index: int, o: Override)
    requires index >= 0 && Clear(manifest, overrides, index, o.path)
    ensures ConflictFree(manifest, overrides) ==> ConflictFree(manifest, overrides[index := o])
    ensures SomeSelected(manifest, overrides) ==>
              (SomeSelected(manifest, overrides[index := o]) <==>
                index >= |manifest| || o.priority != 0 || OtherSelected(manifest, overrides, index))
  {
    if ConflictFree(manifest, overrides) {
      OverrideKeepsConflictFree(manifest, overrides, index, o);
    }
    if index < |manifest| {
      OverrideSelection(manifest, overrides, index, o);
    } else {
      OutsideKeepsSelection(manifest, overrides, index, o);
    }
  }

  lemma {:induction false} OutsideKeepsSelection(manifest: seq<File>, overrides: map<int, Override>, index: int,
                                                 o: Override)
    requires index >= |manifest|
    ensures SomeSelected(manifest, overrides) ==> SomeSelected(manifest, overrides[index := o])
  {
    if SomeSelected(manifest, overrides) {
      var i :| 0 <= i < |manifest| && EffectiveOf(manifest, overrides, i).priority != 0;
      assert EffectiveOf(manifest, overrides[index := o], i).priority != 0;
    }
  }

  /** SetFileOverride itself does not look: with priority 0 it deselects the only file. */
  lemma {:induction false} OverrideCanDeselectAll(path: string, size: int)
    requires path != ""
    ensures var manifest := [File(path, size)];
            && SomeSelected(manifest, map[]) && ConflictFree(manifest, map[])
            && !SomeSelected(manifest, map[0 := Override(path, 0)])
  {
    assert EffectiveOf([File(path, size)], map[], 0).priority != 0;
  }

  /** An override outside the list counts as a selected file: with it, the only file of the list can be deselected. */
  lemma {:induction false} PhantomSelection(path: string, size: int, k: int, stored: Override)
    requires k >= 1 && stored.priority != 0
    ensures var manifest, overrides := [File(path, size)], map[k := stored];
            var next := Prioritized(manifest, overrides, [0], 0);
            && SomeSelected(manifest, overrides) && Known(manifest, overrides, 0)
            && AnySelected(manifest, next) && !SomeSelected(manifest, next)
  {
    var manifest, overrides := [File(path, size)], map[k := stored];
    var next := Prioritized(manifest, overrides, [0], 0);
    assert EffectiveOf(manifest, overrides, 0).priority != 0;
    assert Known(manifest, next, k) && AtIndex(manifest, next, k) == stored;
    assert 0 in [0] && EffectiveOf(manifest, next, 0).priority == 0;
  }
}
