/** The file list of a torrent and the scheduler's own check of it (internal/reconcile/reconcile.go). */
module Manifests {
  import opened Paths

  const MAX_INT64: int := 0x7FFF_FFFF_FFFF_FFFF

  datatype ManifestFile = ManifestFile(hash: string, index: int, path: string, size: int)

  function TotalSize(files: seq<ManifestFile>): int {
    if files == [] then 0 else TotalSize(files[..|files| - 1]) + files[|files| - 1].size
  }

  predicate GoodFile(hash: string, files: seq<ManifestFile>, i: nat)
    requires i < |files|
  {
    && files[i].hash == hash && files[i].index == i && files[i].size >= 0 && ValidManifestPath(files[i].path)
    && (forall j :: 0 <= j < i ==> files[j].path != files[i].path)
    && TotalSize(files[..i + 1]) <= MAX_INT64
  }

  /** A nonempty list, of one file when the torrent is a single file, with consecutive indexes, distinct contained
      paths and sizes that add up to the recorded total within 64 bits. */
  predicate ValidManifest(hash: string, multiFile: bool, total: int, files: seq<ManifestFile>) {
    && (if multiFile then files != [] else |files| == 1)
    && (forall i :: 0 <= i < |files| ==> GoodFile(hash, files, i))
    && TotalSize(files) == total
  }

  function PathsUpTo(files: seq<ManifestFile>, n: nat): set<string>
    requires n <= |files|
  {
    if n == 0 then {} else PathsUpTo(files, n - 1) + {files[n - 1].path}
  }

  lemma {:induction false} PathTaken(files: seq<ManifestFile>, n: nat, p: string)
    requires n <= |files|
    ensures p in PathsUpTo(files, n) <==> exists j :: 0 <= j < n && files[j].path == p
  {
    if n > 0 {
      PathTaken(files, n - 1, p);
    }
  }

  /** The scheduler's check of a stored list. */
  method Validate(hash: string, multiFile: bool, total: int, files: seq<ManifestFile>) returns (ok: bool)
    ensures ok <==> ValidManifest(hash, multiFile, total, files)
  {
    if if multiFile then files == [] else |files| != 1 {
      return false;
    }
    var sum := 0;
    var seen: set<string> := {};
    for i := 0 to |files|
      invariant sum == TotalSize(files[..i]) && 0 <= sum <= MAX_INT64
      invariant seen == PathsUpTo(files, i)
      invariant forall j :: 0 <= j < i ==> GoodFile(hash, files, j)
    {
      var file := files[i];
      assert files[..i + 1][..i] == files[..i] && files[..i + 1][i] == file;
      if file.hash != hash || file.index != i || file.size < 0 || !ValidManifestPath(file.path) {
        assert !GoodFile(hash, files, i);
        return false;
      }
      PathTaken(files, i, file.path);
      if file.path in seen {
        assert !GoodFile(hash, files, i);
        return false;
      }
      seen := seen + {file.path};
      if sum > MAX_INT64 - file.size {
        assert !GoodFile(hash, files, i);
        return false;
      }
      sum := sum + file.size;
    }
    assert files[..|files|] == files;
    ok := sum == total;
  }
}
