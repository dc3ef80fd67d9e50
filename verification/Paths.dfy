/** Slash-separated relative paths as plain strings, the order of strings, and the decimal numerals used in generated
    names. */
module Paths {

  datatype Option<+T> = None | Some(value: T)

  function Digit(d: nat): (c: char)
    requires d < 10
    ensures c != '-'
  {
    ('0' as int + d) as char
  }

  function Numeral(n: nat): (s: string)
    ensures |s| > 0 && s[0] != '-'
  {
    if n < 10 then [Digit(n)] else Numeral(n / 10) + [Digit(n % 10)]
  }

  /** The decimal numeral of an integer, as Go's %d prints it. */
  function Decimal(n: int): string {
    if n < 0 then "-" + Numeral(-n) else Numeral(n)
  }

  lemma {:induction false} NumeralInjective(m: nat, n: nat)
    requires Numeral(m) == Numeral(n)
    ensures m == n
  {
    var s, t := Numeral(m), Numeral(n);
    assert s[|s| - 1] == Digit(m % 10) && t[|t| - 1] == Digit(n % 10);
    if m >= 10 && n >= 10 {
      assert s[..|s| - 1] == Numeral(m / 10) && t[..|t| - 1] == Numeral(n / 10);
      NumeralInjective(m / 10, n / 10);
    }
  }

  /** Different integers print differently, so names that end in an index are distinct. */
  lemma {:induction false} DecimalInjective(m: int, n: int)
    requires Decimal(m) == Decimal(n)
    ensures m == n
  {
    if m < 0 && n < 0 {
      assert Decimal(m)[1..] == Numeral(-m) && Decimal(n)[1..] == Numeral(-n);
      NumeralInjective(-m, -n);
    } else if m >= 0 && n >= 0 {
      NumeralInjective(m, n);
    }
  }

  // ---- Order ----------------------------------------------------------------------------------

  predicate StringBefore(a: string, b: string) {
    b != "" && (a == "" || a[0] < b[0] || (a[0] == b[0] && StringBefore(a[1..], b[1..])))
  }

  lemma {:induction false} StringBeforeTransitive(a: string, b: string, c: string)
    requires StringBefore(a, b) && StringBefore(b, c)
    ensures StringBefore(a, c)
  {
    if a != "" && a[0] == b[0] == c[0] {
      StringBeforeTransitive(a[1..], b[1..], c[1..]);
    }
  }

  lemma {:induction false} StringBeforeTotal(a: string, b: string)
    requires a != b
    ensures StringBefore(a, b) != StringBefore(b, a)
  {
    if a != "" && b != "" && a[0] == b[0] {
      assert a == [a[0]] + a[1..] && b == [b[0]] + b[1..];
      StringBeforeTotal(a[1..], b[1..]);
    }
  }

  // ---- Components ------------------------------------------------------------------------------

  /** The components with one more character in front of the first. */
  function Fronted(c: char, parts: seq<string>): (r: seq<string>)
    requires |parts| > 0
    ensures |r| == |parts|
  {
    [[c] + parts[0]] + parts[1..]
  }

  lemma {:induction false} FrontedConcat(c: char, parts: seq<string>, more: seq<string>)
    requires |parts| > 0
    ensures Fronted(c, parts + more) == Fronted(c, parts) + more
  {
  }

  /** strings.Split(p, "/"). */
  function Split(p: string): (parts: seq<string>)
    ensures |parts| > 0
  {
    if p == "" then [""]
    else if p[0] == '/' then [""] + Split(p[1..])
    else Fronted(p[0], Split(p[1..]))
  }

  /** strings.Join(parts, "/"). */
  function Join(parts: seq<string>): string {
    if parts == [] then ""
    else if |parts| == 1 then parts[0]
    else parts[0] + "/" + Join(parts[1..])
  }

  lemma {:induction false} JoinSplit(p: string)
    ensures Join(Split(p)) == p
  {
    if p != "" {
      JoinSplit(p[1..]);
      var rest := Split(p[1..]);
      assert p == [p[0]] + p[1..];
      if p[0] == '/' {
        assert ([""] + rest)[1..] == rest;
      } else if |rest| > 1 {
        assert Split(p)[1..] == rest[1..];
        assert Join(Split(p)) == [p[0]] + rest[0] + "/" + Join(rest[1..]) == [p[0]] + (rest[0] + "/" + Join(rest[1..]));
      }
    }
  }

  lemma {:induction false} SplitWhole(part: string)
    requires '/' !in part
    ensures Split(part) == [part]
  {
    if part != "" {
      SplitWhole(part[1..]);
      assert [part[0]] + part[1..] == part;
    }
  }

  /** A path under a folder has the folder's components followed by its own. */
  lemma {:induction false} SplitConcat(a: string, b: string)
    ensures Split(a + "/" + b) == Split(a) + Split(b)
  {
    var p := a + "/" + b;
    if a == "" {
      assert p[0] == '/' && p[1..] == b;
    } else {
      SplitConcat(a[1..], b);
      assert p[0] == a[0] && p[1..] == a[1..] + "/" + b;
      if a[0] == '/' {
        assert [""] + (Split(a[1..]) + Split(b)) == ([""] + Split(a[1..])) + Split(b);
      } else {
        FrontedConcat(a[0], Split(a[1..]), Split(b));
      }
    }
  }

  lemma {:induction false} SplitJoin(parts: seq<string>)
    requires |parts| > 0 && forall part :: part in parts ==> '/' !in part
    ensures Split(Join(parts)) == parts
  {
    SplitWhole(parts[0]);
    if |parts| > 1 {
      SplitJoin(parts[1..]);
      SplitConcat(parts[0], Join(parts[1..]));
    }
  }

  // ---- Cleaning --------------------------------------------------------------------------------

  predicate IsAbs(p: string) { |p| > 0 && p[0] == '/' }

  predicate IsControl(c: char) { c < ' ' || '\U{7f}' <= c <= '\U{9f}' }

  /** The component stack of Go's filepath.Clean. */
  function Reduce(parts: seq<string>, kept: seq<string>, rooted: bool): seq<string> {
    if parts == [] then kept
    else Reduce(parts[1..],
                if parts[0] == "" || parts[0] == "." then kept
                else if parts[0] != ".." then kept + [parts[0]]
                else if kept != [] && kept[|kept| - 1] != ".." then kept[..|kept| - 1]
                else if rooted then kept
                else kept + [".."],
                rooted)
  }

  /** filepath.Clean on a system that separates with slashes. */
  function Clean(p: string): string {
    var kept := Reduce(Split(p), [], IsAbs(p));
    if IsAbs(p) then "/" + Join(kept) else if kept == [] then "." else Join(kept)
  }

  predicate GoodComponent(part: string) {
    && part != "" && part != "." && part != ".."
    && forall c :: c in part ==> c != '/' && c != '\\' && !IsControl(c)
  }

  /** A relative path that stays inside its root: fsafe's validManifestPath. */
  predicate ValidManifestPath(p: string) {
    && p != "" && !IsAbs(p) && Clean(p) == p
    && p != "." && p != ".." && !("../" <= p)
    && forall c :: c in p ==> c != '\\' && !IsControl(c)
  }

  lemma {:induction false} ReduceGood(parts: seq<string>, kept: seq<string>, rooted: bool)
    requires forall i :: 0 <= i < |parts| ==> parts[i] != "" && parts[i] != "." && parts[i] != ".."
    ensures Reduce(parts, kept, rooted) == kept + parts
  {
    if parts == [] {
      assert kept + parts == kept;
    } else {
      assert kept + parts == kept + [parts[0]] + parts[1..];
      ReduceGood(parts[1..], kept + [parts[0]], rooted);
    }
  }

  lemma {:induction false} JoinMembers(parts: seq<string>, c: char)
    ensures c in Join(parts) ==> c == '/' || exists part :: part in parts && c in part
  {
    if |parts| > 1 {
      JoinMembers(parts[1..], c);
    }
  }

  lemma {:induction false} NoDotPrefix(parts: seq<string>)
    requires |parts| > 0 && forall part :: part in parts ==> GoodComponent(part)
    ensures Join(parts) != "." && Join(parts) != ".." && !("../" <= Join(parts))
  {
    var p := Join(parts);
    SplitJoin(parts);
    assert GoodComponent(parts[0]);
    if p == "." || p == ".." {
      SplitWhole(p);
    } else if "../" <= p {
      assert p == ".." + "/" + p[3..];
      SplitConcat("..", p[3..]);
      SplitWhole("..");
    }
  }

  lemma {:induction false} JoinIsClean(parts: seq<string>)
    requires |parts| > 0 && forall part :: part in parts ==> GoodComponent(part)
    ensures Join(parts) != "" && !IsAbs(Join(parts)) && Clean(Join(parts)) == Join(parts)
    ensures Split(Join(parts)) == parts
  {
    assert forall i :: 0 <= i < |parts| ==> GoodComponent(parts[i]);
    assert Join(parts)[0] == parts[0][0];
    SplitJoin(parts);
    ReduceGood(parts, [], false);
    assert [] + parts == parts;
  }

  lemma {:induction false} JoinHasPlainCharacters(parts: seq<string>)
    requires forall part :: part in parts ==> GoodComponent(part)
    ensures forall c :: c in Join(parts) ==> c != '\\' && !IsControl(c)
  {
    forall c | c in Join(parts) ensures c != '\\' && !IsControl(c) {
      JoinMembers(parts, c);
    }
  }

  /** Components that are each good make a path that passes every whole-path test. */
  lemma {:induction false} GoodComponentsMakeValidPath(parts: seq<string>)
    requires |parts| > 0 && forall part :: part in parts ==> GoodComponent(part)
    ensures ValidManifestPath(Join(parts)) && Split(Join(parts)) == parts
  {
    JoinIsClean(parts);
    NoDotPrefix(parts);
    JoinHasPlainCharacters(parts);
  }

  // ---- Whole paths and components --------------------------------------------------------------

  lemma {:induction false} SplitParts(p: string, part: string)
    requires part in Split(p)
    ensures '/' !in part && forall c :: c in part ==> c in p
  {
    if p != "" {
      var rest := Split(p[1..]);
      if part in rest {
        SplitParts(p[1..], part);
      } else if p[0] != '/' {
        SplitParts(p[1..], rest[0]);
        assert part == [p[0]] + rest[0];
      }
    }
  }

  /** A reduced relative path: no empty or dot components, and dots that go up only in front. */
  predicate Reduced(kept: seq<string>) {
    && (forall i :: 0 <= i < |kept| ==> kept[i] != "" && kept[i] != "." && '/' !in kept[i])
    && (forall i, j :: 0 <= i < j < |kept| && kept[j] == ".." ==> kept[i] == "..")
  }

  lemma {:induction false} ReduceReduces(parts: seq<string>, kept: seq<string>)
    requires Reduced(kept) && forall part :: part in parts ==> '/' !in part
    ensures Reduced(Reduce(parts, kept, false))
  {
    if parts != [] {
      var next :=
        if parts[0] == "" || parts[0] == "." then kept
        else if parts[0] != ".." then kept + [parts[0]]
        else if kept != [] && kept[|kept| - 1] != ".." then kept[..|kept| - 1]
        else kept + [".."];
      assert parts[0] in parts;
      ReduceReduces(parts[1..], next);
    }
  }

  lemma {:induction false} CleanIsReduced(p: string)
    requires p != "." && !IsAbs(p) && Clean(p) == p
    ensures Reduced(Split(p))
  {
    var kept := Reduce(Split(p), [], false);
    forall part | part in Split(p) ensures '/' !in part {
      SplitParts(p, part);
    }
    ReduceReduces(Split(p), []);
    SplitJoin(kept);
  }

  lemma {:induction false} UpInFront(p: string)
    requires Split(p)[0] == ".."
    ensures p == ".." || "../" <= p
  {
    JoinSplit(p);
    assert p == if |Split(p)| == 1 then ".." else ".." + "/" + Join(Split(p)[1..]);
  }

  /** The whole-path check is exactly the check of the components. */
  lemma {:induction false} ValidPathExact(p: string)
    ensures ValidManifestPath(p) <==> p != "" && forall part :: part in Split(p) ==> GoodComponent(part)
  {
    var parts := Split(p);
    JoinSplit(p);
    if ValidManifestPath(p) {
      CleanIsReduced(p);
      if parts[0] == ".." {
        UpInFront(p);
      }
      forall part | part in parts ensures GoodComponent(part) {
        SplitParts(p, part);
        var i :| 0 <= i < |parts| && parts[i] == part;
      }
    } else if p != "" && forall part :: part in parts ==> GoodComponent(part) {
      GoodComponentsMakeValidPath(parts);
    }
  }
}
