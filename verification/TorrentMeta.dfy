/** The file list that a parsed torrent yields (internal/torrentmeta/torrentmeta.go). Lengths are those of the UTF-8
    encoding. */
module TorrentMeta {
  import opened Paths
  import opened Manifests
  import T = FileTables

  datatype Limits = Limits(maxFiles: int, maxName: int, maxComponent: int, maxPath: int, maxTotal: int)

  datatype FileInfo = FileInfo(path: seq<string>, length: int)

  datatype Parsed = Parsed(files: seq<ManifestFile>, total: int) | Rejected

  // ---- One path --------------------------------------------------------------------------------

  /** How many bytes UTF-8 takes for a character (RFC 3629, section 3). */
  function Utf8Width(c: char): int {
    if c < '\U{80}' then 1 else if c < '\U{800}' then 2 else if c < '\U{10000}' then 3 else 4
  }

  function ByteLength(s: string): int {
    if s == "" then 0 else Utf8Width(s[0]) + ByteLength(s[1..])
  }

  lemma {:induction false} ByteLengthConcat(a: string, b: string)
    ensures ByteLength(a + b) == ByteLength(a) + ByteLength(b)
  {
    if a == "" {
      assert a + b == b;
    } else {
      assert (a + b)[1..] == a[1..] + b;
      ByteLengthConcat(a[1..], b);
    }
  }

  /** The count that the loop keeps. */
  function PathLength(parts: seq<string>): int {
    if parts == [] then 0
    else PathLength(parts[..|parts| - 1]) + ByteLength(parts[|parts| - 1]) + if |parts| > 1 then 1 else 0
  }

  predicate GoodPath(parts: seq<string>, limits: Limits) {
    && parts != [] && (forall part :: part in parts ==> ByteLength(part) <= limits.maxComponent && GoodComponent(part))
    && PathLength(parts) <= limits.maxPath
  }

  method ValidateRelativePath(parts: seq<string>, limits: Limits) returns (path: Option<string>)
    ensures path == if GoodPath(parts, limits) then Some(Join(parts)) else None
  {
    if |parts| == 0 {
      return None;
    }
    var length := 0;
    for i := 0 to |parts|
      invariant length == PathLength(parts[..i])
      invariant forall part :: part in parts[..i] ==> ByteLength(part) <= limits.maxComponent && GoodComponent(part)
    {
      assert parts[..i + 1][..i] == parts[..i] && parts[..i + 1] == parts[..i] + [parts[i]];
      if ByteLength(parts[i]) > limits.maxComponent || !GoodComponent(parts[i]) {
        assert parts[i] in parts;
        return None;
      }
      length := length + ByteLength(parts[i]);
      if i != 0 {
        length := length + 1;
      }
    }
    assert parts[..|parts|] == parts;
    if length > limits.maxPath {
      return None;
    }
    path := Some(Join(parts));
  }

  /** The count is the length of the joined path in bytes. */
  lemma {:induction false} PathLengthIsLength(parts: seq<string>)
    ensures PathLength(parts) == ByteLength(Join(parts))
  {
    if |parts| > 1 {
      var head, last := parts[..|parts| - 1], parts[|parts| - 1..];
      PathLengthIsLength(head);
      JoinLength(head, last[0]);
      assert parts == head + [last[0]];
    } else if |parts| == 1 {
      assert PathLength(parts[..0]) == 0;
    }
  }

  lemma {:induction false} JoinLength(parts: seq<string>, last: string)
    requires parts != []
    ensures ByteLength(Join(parts + [last])) == ByteLength(Join(parts)) + 1 + ByteLength(last)
  {
    assert (parts + [last])[1..] == parts[1..] + [last];
    ByteLengthConcat(parts[0], "/");
    assert ByteLength("/") == 1 by {
      assert "/"[1..] == "";
    }
    if |parts| > 1 {
      JoinLength(parts[1..], last);
      ByteLengthConcat(parts[0] + "/", Join(parts[1..]));
      ByteLengthConcat(parts[0] + "/", Join(parts[1..] + [last]));
    } else {
      assert (parts + [last])[1..] == [last];
      ByteLengthConcat(parts[0] + "/", last);
    }
  }

  // ---- Multi-file torrents ---------------------------------------------------------------------

  function FileOf(hash: string, infos: seq<FileInfo>, i: nat): ManifestFile
    requires i < |infos|
  {
    ManifestFile(hash, i, Join(infos[i].path), infos[i].length)
  }

  function FilesUpTo(hash: string, infos: seq<FileInfo>, n: nat): (files: seq<ManifestFile>)
    requires n <= |infos|
    ensures |files| == n && forall i :: 0 <= i < n ==> files[i] == FileOf(hash, infos, i)
  {
    if n == 0 then [] else FilesUpTo(hash, infos, n - 1) + [FileOf(hash, infos, n - 1)]
  }

  function Sum(infos: seq<FileInfo>, n: nat): int
    requires n <= |infos|
  {
    if n == 0 then 0 else Sum(infos, n - 1) + infos[n - 1].length
  }

  function PathsUpTo(infos: seq<FileInfo>, n: nat): set<string>
    requires n <= |infos|
  {
    if n == 0 then {} else PathsUpTo(infos, n - 1) + {Join(infos[n - 1].path)}
  }

  lemma {:induction false} PathTaken(infos: seq<FileInfo>, n: nat, p: string)
    requires n <= |infos|
    ensures p in PathsUpTo(infos, n) <==> exists j :: 0 <= j < n && Join(infos[j].path) == p
  {
    if n > 0 {
      PathTaken(infos, n - 1, p);
    }
  }

  /** Every file is contained, nonnegative, unlike the earlier ones, and keeps the total within bounds. */
  predicate GoodInfo(infos: seq<FileInfo>, limits: Limits, i: nat)
    requires i < |infos|
  {
    && infos[i].length >= 0 && GoodPath(infos[i].path, limits)
    && (forall j :: 0 <= j < i ==> Join(infos[j].path) != Join(infos[i].path))
    && Sum(infos, i + 1) <= MAX_INT64 && Sum(infos, i + 1) <= limits.maxTotal
  }

  predicate GoodUpTo(infos: seq<FileInfo>, limits: Limits, n: nat)
    requires n <= |infos|
  {
    n == 0 || (GoodUpTo(infos, limits, n - 1) && GoodInfo(infos, limits, n - 1))
  }

  predicate Acceptable(infos: seq<FileInfo>, limits: Limits) {
    infos != [] && |infos| <= limits.maxFiles && GoodUpTo(infos, limits, |infos|)
  }

  lemma {:induction false} GoodUpToAt(infos: seq<FileInfo>, limits: Limits, n: nat, i: nat)
    requires i < n <= |infos| && GoodUpTo(infos, limits, n)
    ensures GoodInfo(infos, limits, i)
  {
    if i < n - 1 {
      GoodUpToAt(infos, limits, n - 1, i);
    }
  }

  lemma {:induction false} BadFileNotGood(infos: seq<FileInfo>, limits: Limits, n: nat, i: nat)
    requires i < n <= |infos| && !GoodInfo(infos, limits, i)
    ensures !GoodUpTo(infos, limits, n)
  {
    if i < n - 1 {
      BadFileNotGood(infos, limits, n - 1, i);
    }
  }

  lemma {:induction false} BadFileRejects(infos: seq<FileInfo>, limits: Limits, i: nat)
    requires i < |infos| && !GoodInfo(infos, limits, i)
    ensures !Acceptable(infos, limits)
  {
    BadFileNotGood(infos, limits, |infos|, i);
  }

  /** The checks on one file, given the paths and the total of the ones before it. */
  method OneFile(infos: seq<FileInfo>, limits: Limits, i: nat, seen: set<string>,
                 total: int) returns (path: Option<string>)
    requires i < |infos| && seen == PathsUpTo(infos, i) && total == Sum(infos, i)
    ensures path == if GoodInfo(infos, limits, i) then Some(Join(infos[i].path)) else None
  {
    var info := infos[i];
    if info.length < 0 {
      return None;
    }
    path := ValidateRelativePath(info.path, limits);
    if path.None? {
      return;
    }
    PathTaken(infos, i, path.value);
    assert Sum(infos, i + 1) == total + info.length;
    if path.value in seen || total > MAX_INT64 - info.length || total + info.length > limits.maxTotal {
      return None;
    }
  }

  method MultiFiles(hash: string, infos: seq<FileInfo>, limits: Limits) returns (r: Parsed)
    ensures r == if Acceptable(infos, limits) then Parsed(FilesUpTo(hash, infos, |infos|), Sum(infos, |infos|))
              else Rejected
  {
    if |infos| > limits.maxFiles {
      return Rejected;
    }
    var files: seq<ManifestFile>, seen: set<string>, total := [], {}, 0;
    for i := 0 to |infos|
      invariant files == FilesUpTo(hash, infos, i) && total == Sum(infos, i)
      invariant seen == PathsUpTo(infos, i)
      invariant GoodUpTo(infos, limits, i)
    {
      var path := OneFile(infos, limits, i, seen, total);
      if path.None? {
        BadFileRejects(infos, limits, i);
        return Rejected;
      }
      total := total + infos[i].length;
      seen := seen + {path.value};
      files := files + [ManifestFile(hash, |files|, path.value, infos[i].length)];
    }
    if |files| == 0 {
      return Rejected;
    }
    r := Parsed(files, total);
  }

  lemma {:induction false} TotalIsSum(hash: string, infos: seq<FileInfo>, n: nat)
    requires n <= |infos|
    ensures TotalSize(FilesUpTo(hash, infos, n)) == Sum(infos, n)
  {
    if n > 0 {
      TotalIsSum(hash, infos, n - 1);
      var files := FilesUpTo(hash, infos, n);
      assert files[..n - 1] == FilesUpTo(hash, infos, n - 1);
    }
  }

  lemma {:induction false} FilesPrefix(hash: string, infos: seq<FileInfo>, n: nat)
    requires n <= |infos|
    ensures FilesUpTo(hash, infos, |infos|)[..n] == FilesUpTo(hash, infos, n)
  {
  }

  /** The scheduler, which checks the stored list with its own rules, accepts every list that the parser accepts. */
  lemma {:induction false} MultiFilesVerify(hash: string, infos: seq<FileInfo>, limits: Limits)
    requires Acceptable(infos, limits)
    ensures ValidManifest(hash, true, Sum(infos, |infos|), FilesUpTo(hash, infos, |infos|))
    ensures 0 <= Sum(infos, |infos|) <= MAX_INT64
  {
    var files := FilesUpTo(hash, infos, |infos|);
    forall i | 0 <= i < |files| ensures GoodFile(hash, files, i) {
      GoodUpToAt(infos, limits, |infos|, i);
      GoodComponentsMakeValidPath(infos[i].path);
      FilesPrefix(hash, infos, i + 1);
      TotalIsSum(hash, infos, i + 1);
    }
    TotalIsSum(hash, infos, |infos|);
    SumNonNegative(infos, limits, |infos|);
    assert GoodInfo(infos, limits, |infos| - 1);
  }

  lemma {:induction false} SumNonNegative(infos: seq<FileInfo>, limits: Limits, n: nat)
    requires n <= |infos| && GoodUpTo(infos, limits, n)
    ensures Sum(infos, n) >= 0
  {
    if n > 0 {
      SumNonNegative(infos, limits, n - 1);
    }
  }

  // ---- The list as a stored table --------------------------------------------------------------

  function TableOf(infos: seq<FileInfo>): seq<T.File> {
    seq(|infos|, i requires 0 <= i < |infos| => T.File(Join(infos[i].path), infos[i].length))
  }

  /** No file's path leads through another file. */
  predicate Nestless(infos: seq<FileInfo>) {
    forall i, j :: 0 <= i < |infos| && 0 <= j < |infos| && i != j ==> !(infos[i].path < infos[j].path)
  }

  lemma {:induction false} InfosConflict(infos: seq<FileInfo>, limits: Limits, i: nat, j: nat)
    requires Acceptable(infos, limits) && i < j < |infos|
    ensures T.PathConflicts(Join(infos[i].path), Join(infos[j].path)) <==>
              infos[i].path < infos[j].path || infos[j].path < infos[i].path
  {
    GoodUpToAt(infos, limits, |infos|, i);
    GoodUpToAt(infos, limits, |infos|, j);
    GoodComponentsMakeValidPath(infos[i].path);
    GoodComponentsMakeValidPath(infos[j].path);
    T.ConflictIsPrefix(Join(infos[i].path), Join(infos[j].path));
    assert infos[i].path != infos[j].path;
  }

  /** The parser only compares whole paths, so an accepted list makes a table free of conflicts exactly if no file's
      path leads through another file. */
  lemma {:induction false} AcceptedTableExact(infos: seq<FileInfo>, limits: Limits)
    requires Acceptable(infos, limits)
    ensures T.ConflictFree(TableOf(infos), map[]) <==> Nestless(infos)
  {
    forall i, j | 0 <= i < j < |infos|
      ensures T.PathConflicts(T.EffectiveOf(TableOf(infos), map[], i).path,
                              T.EffectiveOf(TableOf(infos), map[], j).path)
              <==> infos[i].path < infos[j].path || infos[j].path < infos[i].path
    {
      InfosConflict(infos, limits, i, j);
    }
  }

  /** A file and a folder of one name: the parser accepts the list, though no disk can hold it. */
  lemma {:induction false} NestedIsAccepted(a: string, b: string, limits: Limits)
    requires GoodComponent(a) && GoodComponent(b) && limits.maxFiles >= 2 && limits.maxTotal >= 2
    requires ByteLength(a) <= limits.maxComponent && ByteLength(b) <= limits.maxComponent
    requires PathLength([a, b]) <= limits.maxPath && PathLength([a]) <= limits.maxPath
    ensures var infos := [FileInfo([a], 1), FileInfo([a, b], 1)];
            Acceptable(infos, limits) && !T.ConflictFree(TableOf(infos), map[])
  {
    var infos := [FileInfo([a], 1), FileInfo([a, b], 1)];
    GoodComponentsMakeValidPath([a]);
    GoodComponentsMakeValidPath([a, b]);
    assert Sum(infos, 1) == 1 && Sum(infos, 2) == 2;
    assert GoodInfo(infos, limits, 0) && GoodInfo(infos, limits, 1);
    assert GoodUpTo(infos, limits, 0) && GoodUpTo(infos, limits, 1) && GoodUpTo(infos, limits, 2);
    AcceptedTableExact(infos, limits);
    assert infos[0].path < infos[1].path;
  }

  // ---- Single-file torrents --------------------------------------------------------------------

  predicate GoodName(name: string, limits: Limits) {
    && ByteLength(name) <= limits.maxName && ByteLength(name) <= limits.maxComponent
    && ByteLength(name) <= limits.maxPath && GoodComponent(name)
  }

  function SingleFile(hash: string, name: string, length: int, limits: Limits): Parsed {
    if !GoodName(name, limits) || length < 0 || length > limits.maxTotal then Rejected
    else Parsed([ManifestFile(hash, 0, name, length)], length)
  }

  /** The same for a single file, given that its size is a 64-bit number. */
  lemma {:induction false} SingleFileVerifies(hash: string, name: string, length: int, limits: Limits)
    requires SingleFile(hash, name, length, limits).Parsed? && length <= MAX_INT64
    ensures ValidManifest(hash, false, length, SingleFile(hash, name, length, limits).files)
  {
    var files := [ManifestFile(hash, 0, name, length)];
    GoodComponentsMakeValidPath([name]);
    assert Join([name]) == name;
    assert files[..1] == files && files[..0] == [];
    assert TotalSize(files) == length;
    assert GoodFile(hash, files, 0);
  }
}
