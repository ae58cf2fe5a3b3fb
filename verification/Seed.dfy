/**
 The digest of a repository seed: the manifest digest of the files in path order, whatever order they
 came in.
 */
module Seed {
  import opened Manifest

  // ---------------------------------------------------------------- path order

  /** Byte-wise order of paths. */
  predicate Less(a: seq<Byte>, b: seq<Byte>) {
    b != [] && (a == [] || a[0] < b[0] || (a[0] == b[0] && Less(a[1..], b[1..])))
  }

  lemma {:induction false} LessTotal(a: seq<Byte>, b: seq<Byte>)
    ensures a == b || Less(a, b) || Less(b, a)
    ensures !(Less(a, b) && Less(b, a)) && !Less(a, a)
    decreases |a|
  {
    if a != [] {
      LessTotal(a[1..], a[1..]);
      if b != [] && a[0] == b[0] {
        LessTotal(a[1..], b[1..]);
        assert a == [a[0]] + a[1..] && b == [b[0]] + b[1..];
      }
    }
  }

  lemma {:induction false} LessTransitive(a: seq<Byte>, b: seq<Byte>, c: seq<Byte>)
    requires Less(a, b) && Less(b, c)
    ensures Less(a, c)
    decreases |a|
  {
    if a != [] && a[0] == b[0] && b[0] == c[0] {
      LessTransitive(a[1..], b[1..], c[1..]);
    }
  }

  predicate AtMost(a: seq<Byte>, b: seq<Byte>) {
    !Less(b, a)
  }

  lemma AtMostTransitive(a: seq<Byte>, b: seq<Byte>, c: seq<Byte>)
    requires AtMost(a, b) && AtMost(b, c)
    ensures AtMost(a, c)
  {
    LessTotal(a, b);
    LessTotal(b, c);
    if Less(c, a) && a != b {
      LessTransitive(c, a, b);
    }
  }

  predicate Sorted(files: seq<File>) {
    forall i, j :: 0 <= i < j < |files| ==> AtMost(files[i].path, files[j].path)
  }

  predicate StrictlySorted(files: seq<File>) {
    forall i, j :: 0 <= i < j < |files| ==> Less(files[i].path, files[j].path)
  }

  /** A possible outcome of sorting `files` by path: an unstable sort may give any of them. */
  ghost predicate SortedVersion(sorted: seq<File>, files: seq<File>) {
    multiset(sorted) == multiset(files) && Sorted(sorted)
  }

  /** Files that share a path are the same file. */
  ghost predicate Consistent(files: seq<File>) {
    forall i, j :: 0 <= i < |files| && 0 <= j < |files| && files[i].path == files[j].path ==> files[i] == files[j]
  }

  // ---------------------------------------------------------------- the digest

  function InsertedAt(sorted: seq<File>, i: nat, file: File): (result: seq<File>)
    requires i <= |sorted|
    ensures |result| == |sorted| + 1
    ensures forall k :: 0 <= k < |result| ==>
      result[k] == if k < i then sorted[k] else if k == i then file else sorted[k - 1]
    ensures multiset(result) == multiset(sorted + [file])
  {
    assert sorted == sorted[..i] + sorted[i..];
    sorted[..i] + [file] + sorted[i..]
  }

  lemma FitsBetween(sorted: seq<File>, i: nat, file: File)
    requires Sorted(sorted) && i <= |sorted|
    requires i > 0 ==> AtMost(sorted[i - 1].path, file.path)
    requires i < |sorted| ==> AtMost(file.path, sorted[i].path)
    ensures forall k :: 0 <= k < i ==> AtMost(sorted[k].path, file.path)
    ensures forall k :: i <= k < |sorted| ==> AtMost(file.path, sorted[k].path)
  {
    hide AtMost;
    forall k | 0 <= k < i - 1 ensures AtMost(sorted[k].path, file.path) {
      AtMostTransitive(sorted[k].path, sorted[i - 1].path, file.path);
    }
    forall k | i < k < |sorted| ensures AtMost(file.path, sorted[k].path) {
      AtMostTransitive(file.path, sorted[i].path, sorted[k].path);
    }
  }

  lemma InsertionKeepsOrder(sorted: seq<File>, i: nat, file: File)
    requires Sorted(sorted) && i <= |sorted|
    requires i > 0 ==> AtMost(sorted[i - 1].path, file.path)
    requires i < |sorted| ==> AtMost(file.path, sorted[i].path)
    ensures SortedVersion(InsertedAt(sorted, i, file), sorted + [file])
  {
    hide AtMost;
    var result := InsertedAt(sorted, i, file);
    FitsBetween(sorted, i, file);
    forall k, l | 0 <= k < l < |result| ensures AtMost(result[k].path, result[l].path) {
      if k < i && l < i { assert AtMost(sorted[k].path, sorted[l].path); }
      if k < i && l == i { assert AtMost(sorted[k].path, file.path); }
      if k == i { assert AtMost(file.path, sorted[l - 1].path); }
      if k < i && l > i { assert AtMost(sorted[k].path, sorted[l - 1].path); }
      if k > i && l > i { assert AtMost(sorted[k - 1].path, sorted[l - 1].path); }
    }
  }

  /** Puts `file` where it belongs in a sorted list. */
  method Insert(sorted: seq<File>, file: File) returns (result: seq<File>)
    requires Sorted(sorted)
    ensures SortedVersion(result, sorted + [file])
  {
    hide SortedVersion;
    var i := |sorted|;
    while i > 0 && Less(file.path, sorted[i - 1].path)
      invariant 0 <= i <= |sorted|
      invariant i < |sorted| ==> Less(file.path, sorted[i].path)
    {
      i := i - 1;
    }
    if i < |sorted| {
      LessTotal(file.path, sorted[i].path);
    }
    InsertionKeepsOrder(sorted, i, file);
    result := InsertedAt(sorted, i, file);
  }

  /** Sorts a copy. */
  method SortByPath(files: seq<File>) returns (sorted: seq<File>)
    ensures SortedVersion(sorted, files)
  {
    sorted := [];
    for i := 0 to |files|
      invariant SortedVersion(sorted, files[..i])
    {
      sorted := Insert(sorted, files[i]);
      assert files[..i + 1] == files[..i] + [files[i]];
    }
    assert files[..|files|] == files;
  }

  method SeedDigest(files: seq<File>) returns (digest: Digest)
    ensures exists sorted :: SortedVersion(sorted, files) && digest == Sha256(Frame(sorted))
  {
    var canonical := SortByPath(files);
    digest := ManifestDigest(canonical);
  }

  // ---------------------------------------------------------------- independence of order

  lemma SameFirst(a: seq<File>, b: seq<File>)
    requires Sorted(a) && Sorted(b) && multiset(a) == multiset(b) && Consistent(a) && a != [] && b != []
    ensures a[0] == b[0]
  {
    assert a[0] in multiset(b) && b[0] in multiset(a);
    var i :| 0 <= i < |a| && a[i] == b[0];
    var j :| 0 <= j < |b| && b[j] == a[0];
    LessTotal(a[0].path, a[0].path);
    LessTotal(b[0].path, b[0].path);
    LessTotal(a[0].path, b[0].path);
    assert AtMost(a[0].path, a[i].path) && AtMost(b[0].path, b[j].path);
  }

  /** The rests of two such lists are such lists again. */
  lemma SameRest(a: seq<File>, b: seq<File>)
    requires Sorted(a) && Sorted(b) && multiset(a) == multiset(b) && Consistent(a) && a != [] && b != []
    ensures a[0] == b[0] && Sorted(a[1..]) && Sorted(b[1..]) && Consistent(a[1..])
      && multiset(a[1..]) == multiset(b[1..])
  {
    hide Sorted, Consistent;
    SameFirst(a, b);
    SortedRest(a);
    SortedRest(b);
    ConsistentRest(a);
    WithoutFirst(a);
    WithoutFirst(b);
  }

  lemma WithoutFirst(a: seq<File>)
    requires a != []
    ensures multiset(a[1..]) == multiset(a) - multiset{a[0]}
  {
    assert a == [a[0]] + a[1..];
  }

  lemma ConsistentRest(a: seq<File>)
    requires Consistent(a) && a != []
    ensures Consistent(a[1..])
  {
    forall i, j | 0 <= i < |a| - 1 && 0 <= j < |a| - 1 && a[1..][i].path == a[1..][j].path
      ensures a[1..][i] == a[1..][j]
    {
      assert a[1..][i] == a[i + 1] && a[1..][j] == a[j + 1];
    }
  }

  lemma SortedRest(a: seq<File>)
    requires Sorted(a) && a != []
    ensures Sorted(a[1..])
  {}

  lemma {:induction false} SortedIsUnique(a: seq<File>, b: seq<File>)
    requires Sorted(a) && Sorted(b) && multiset(a) == multiset(b) && Consistent(a)
    ensures a == b
    decreases |a|
  {
    hide Sorted, Consistent;
    assert |a| == |multiset(a)| == |multiset(b)| == |b|;
    if a != [] {
      SameRest(a, b);
      SortedIsUnique(a[1..], b[1..]);
      assert a == [a[0]] + a[1..] && b == [b[0]] + b[1..];
    }
  }

  lemma ConsistentTogether(a: seq<File>, b: seq<File>)
    requires multiset(a) == multiset(b) && Consistent(b)
    ensures Consistent(a)
  {
    forall i, j | 0 <= i < |a| && 0 <= j < |a| && a[i].path == a[j].path ensures a[i] == a[j] {
      assert a[i] in multiset(b) && a[j] in multiset(b);
      var k :| 0 <= k < |b| && b[k] == a[i];
      var l :| 0 <= l < |b| && b[l] == a[j];
    }
  }

  /** In a sorted list with two different files under one path, two such files are neighbours. */
  lemma {:induction false} DifferingNeighbours(s: seq<File>, i: nat, j: nat) returns (k: nat)
    requires Sorted(s) && i < j < |s| && s[i].path == s[j].path && s[i] != s[j]
    ensures k + 1 < |s| && s[k].path == s[k + 1].path && s[k] != s[k + 1]
    decreases j - i
  {
    assert s[i].path == s[i + 1].path by {
      LessTotal(s[i].path, s[i + 1].path);
      assert AtMost(s[i].path, s[i + 1].path);
      assert i + 1 < j ==> AtMost(s[i + 1].path, s[j].path);
    }
    if s[i] != s[i + 1] {
      k := i;
    } else {
      k := DifferingNeighbours(s, i + 1, j);
    }
  }

  lemma Swapped(s: seq<File>, k: nat) returns (t: seq<File>)
    requires Sorted(s) && k + 1 < |s| && s[k].path == s[k + 1].path && s[k] != s[k + 1]
    ensures Sorted(t) && multiset(t) == multiset(s) && t != s
  {
    t := s[k := s[k + 1]][k + 1 := s[k]];
    assert t[k] != s[k];
    forall i, j | 0 <= i < j < |t| ensures AtMost(t[i].path, t[j].path) {
      assert t[i].path == s[i].path && t[j].path == s[j].path;
    }
  }

  ghost predicate OneFrame(files: seq<File>) {
    forall a, b :: SortedVersion(a, files) && SortedVersion(b, files) ==> Frame(a) == Frame(b)
  }

  lemma ShortTogether(a: seq<File>, b: seq<File>)
    requires multiset(a) == multiset(b) && AllShort(b)
    ensures AllShort(a)
  {
    forall i | 0 <= i < |a| ensures Short(a[i].path) && Short(a[i].content) {
      assert a[i] in multiset(b);
      var k :| 0 <= k < |b| && b[k] == a[i];
    }
  }

  lemma {:induction false} SomeSortedVersion(files: seq<File>) returns (sorted: seq<File>)
    ensures SortedVersion(sorted, files)
    decreases |files|
  {
    if files == [] {
      sorted := [];
    } else {
      var n := |files| - 1;
      var rest := SomeSortedVersion(files[..n]);
      sorted := InsertedVersion(rest, files[n], |rest|);
      assert files == files[..n] + [files[n]];
    }
  }

  lemma {:induction false} InsertedVersion(rest: seq<File>, file: File, i: nat) returns (result: seq<File>)
    requires Sorted(rest) && i <= |rest|
    requires i < |rest| ==> AtMost(file.path, rest[i].path)
    ensures SortedVersion(result, rest + [file])
    decreases i
  {
    if i > 0 && Less(file.path, rest[i - 1].path) {
      LessTotal(file.path, rest[i - 1].path);
      result := InsertedVersion(rest, file, i - 1);
    } else {
      InsertionKeepsOrder(rest, i, file);
      result := InsertedAt(rest, i, file);
    }
  }

  /** The digest is a function of which files there are, however they are listed and however the sort
      treats equal paths, exactly if no path names two different files. */
  lemma OrderIndependentExactly(files: seq<File>)
    requires AllShort(files)
    ensures OneFrame(files) <==> Consistent(files)
  {
    if Consistent(files) {
      forall a, b | SortedVersion(a, files) && SortedVersion(b, files) ensures Frame(a) == Frame(b) {
        ConsistentTogether(a, files);
        SortedIsUnique(a, b);
      }
    } else {
      var s := SomeSortedVersion(files);
      if Consistent(s) {
        ConsistentTogether(files, s);
      }
      var i, j :| 0 <= i < |s| && 0 <= j < |s| && s[i].path == s[j].path && s[i] != s[j];
      var k := DifferingNeighbours(s, if i < j then i else j, if i < j then j else i);
      var t := Swapped(s, k);
      ShortTogether(s, files);
      ShortTogether(t, files);
      if Frame(s) == Frame(t) {
        FrameIsInjective(s, t);
      }
      assert SortedVersion(s, files) && SortedVersion(t, files);
    }
  }

  /** A seed has the digest of a rendered template exactly if it has the same files, in any order. */
  lemma SeedMatchesTemplateExactly(rendered: seq<File>, files: seq<File>, sorted: seq<File>)
    requires StrictlySorted(rendered) && SortedVersion(sorted, files)
    requires AllShort(rendered) && AllShort(files)
    ensures Frame(sorted) == Frame(rendered) <==> multiset(files) == multiset(rendered)
  {
    ShortTogether(sorted, files);
    if Frame(sorted) == Frame(rendered) {
      FrameIsInjective(sorted, rendered);
    }
    if multiset(files) == multiset(rendered) {
      forall i, j | 0 <= i < |rendered| && 0 <= j < |rendered| && i != j ensures rendered[i].path != rendered[j].path {
        LessTotal(rendered[i].path, rendered[i].path);
      }
      forall i, j | 0 <= i < j < |rendered| ensures AtMost(rendered[i].path, rendered[j].path) {
        LessTotal(rendered[i].path, rendered[j].path);
      }
      SortedIsUnique(rendered, sorted);
    }
  }

  // ---------------------------------------------------------------- the two validations

  /** The order and digest checks on a rendered template. */
  method ValidateRendered(files: seq<File>, digest: Digest) returns (valid: bool)
    ensures valid <==>
      files != [] && files[0].path != [] && StrictlySorted(files) && digest == Sha256(Frame(files))
  {
    if files == [] {
      return false;
    }
    var previous: seq<Byte> := [];
    for i := 0 to |files|
      invariant previous == if i == 0 then [] else files[i - 1].path
      invariant StrictlySorted(files[..i]) && (i > 0 ==> files[0].path != [])
    {
      if !Less(previous, files[i].path) {
        assert i > 0 ==> !Less(files[i - 1].path, files[i].path);
        assert i == 0 ==> files[0].path == [];
        return false;
      }
      forall k | 0 <= k < i ensures Less(files[k].path, files[i].path) {
        if k < i - 1 {
          assert files[..i][k] == files[k] && files[..i][i - 1] == files[i - 1];
          LessTransitive(files[k].path, files[i - 1].path, files[i].path);
        }
      }
      assert forall k :: 0 <= k < i ==> files[..i + 1][k] == files[..i][k];
      previous := files[i].path;
    }
    assert files[..|files|] == files;
    var actual := ManifestDigest(files);
    valid := digest == actual;
  }

  ghost predicate DistinctUnder(lower: seq<Byte> -> seq<Byte>, files: seq<File>) {
    forall i, j :: 0 <= i < j < |files| ==> lower(files[i].path) != lower(files[j].path)
  }

  /** The duplicate and digest checks on a seed; `lower` is the case folding of paths.  A seed that
      passes them has a digest that does not depend on the order of its files. */
  method ValidateSeed(files: seq<File>, digest: Digest, lower: seq<Byte> -> seq<Byte>) returns (valid: bool)
    ensures valid ==> Consistent(files)
    ensures valid <==> files != [] && DistinctUnder(lower, files) && forall sorted :: SortedVersion(sorted, files) ==>
      digest == Sha256(Frame(sorted))
  {
    if files == [] {
      return false;
    }
    var seen: set<seq<Byte>> := {};
    for i := 0 to |files|
      invariant forall k :: 0 <= k < i ==> lower(files[k].path) in seen
      invariant forall key :: key in seen ==> exists k :: 0 <= k < i && lower(files[k].path) == key
      invariant DistinctUnder(lower, files[..i])
    {
      var key := lower(files[i].path);
      if key in seen {
        return false;
      }
      seen := seen + {key};
    }
    assert files[..|files|] == files;
    assert Consistent(files);
    var actual := SeedDigest(files);
    forall a, b | SortedVersion(a, files) && SortedVersion(b, files) ensures a == b {
      ConsistentTogether(a, files);
      SortedIsUnique(a, b);
    }
    valid := digest == actual;
  }
}
