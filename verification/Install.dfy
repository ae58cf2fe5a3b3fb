/** Installing a bundle's files under a root, checking them, and removing exactly them again. */
module Install {
  import opened Wrappers
  import opened FileTree

  // ---------------------------------------------------------------- receipts

  /** The bundle, the owned files and the digest each had when it was installed. */
  datatype Receipt = Receipt(bundle: string, ownedFiles: seq<Path>, digests: map<Path, string>)

  /** The receipt encoding and the content digest. */
  datatype Codec = Codec(encode: Receipt -> Bytes, parse: Bytes -> Option<Receipt>, digest: Bytes -> string)

  const RECEIPT: Path := [".agx", "receipt.json"]
  const METADATA: Path := [".agx"]
  const PLUGINS: Path := ["components", "agent-plugins"]
  const RUNTIME: Path := ["components", "configs-runtime"]

  /** Owned paths are distinct, lie inside the known components and each have a digest. */
  predicate ValidReceipt(receipt: Receipt) {
    && receipt.ownedFiles != []
    && (forall i, j :: 0 <= i < j < |receipt.ownedFiles| ==> receipt.ownedFiles[i] != receipt.ownedFiles[j])
    && (forall p :: p in receipt.ownedFiles ==> (PLUGINS < p || RUNTIME < p) && p in receipt.digests)
    && (forall p :: p in receipt.digests ==> p in receipt.ownedFiles)
  }

  datatype Error =
    | NoReceipt
    | UnsafePath        // an owned path is not a regular file under real directories
    | Drifted           // an owned file has other content
    | ChangedMeanwhile  // after the first check, before its removal
    | RemoveFailed

  // ---------------------------------------------------------------- inspection

  datatype OwnedFileState = Missing | Regular | Unsafe

  /** What is at a path: a regular file, nothing, or something no removal may touch. */
  ghost function StateOf(t: Tree, p: Path): OwnedFileState {
    if p in t then (if t[p].File? then Regular else Unsafe)
    else if exists q :: q in t && q < p && !t[q].Dir? then Unsafe
    else Missing
  }

  /** Looks at every segment of the path, root first, and follows no link. */
  method InspectOwnedFile(t: Tree, p: Path) returns (state: OwnedFileState)
    requires WellFormed(t) && p != []
    ensures state == StateOf(t, p)
  {
    for length := 0 to |p| + 1
      invariant forall k :: 0 <= k < length ==> p[..k] in t && t[p[..k]].Dir?
    {
      var current := p[..length];
      if current !in t {
        NothingBelowMissing(t, current, p);
        forall q | q in t && q < p ensures t[q].Dir? {
          assert q == p[..|q|];
          assert |q| >= length ==> current <= q;
        }
        return Missing;
      }
      if length == |p| {
        assert current == p;
        return if t[p].File? then Regular else Unsafe;
      }
      if !t[current].Dir? {
        if p in t {
          AncestorsAreDirectories(t, current, p);
        }
        return Unsafe;
      }
    }
    assert p[..|p|] == p;
    state := Unsafe;
  }

  lemma NothingBelowMissing(t: Tree, current: Path, p: Path)
    requires WellFormed(t) && current !in t && current <= p
    ensures p !in t
    ensures forall q :: q in t ==> !(current <= q)
  {
    forall q | q in t ensures !(current <= q) {
      if current <= q {
        assert current == q || current < q;
        AncestorsAreDirectories(t, current, q);
      }
    }
  }

  /** A directory whose every segment is a real one. */
  predicate RealDirectory(t: Tree, p: Path) {
    forall k :: 0 <= k <= |p| ==> p[..k] in t && t[p[..k]].Dir?
  }

  lemma RealDirectoryExactly(t: Tree, p: Path)
    requires WellFormed(t)
    ensures RealDirectory(t, p) <==> p in t && t[p].Dir?
  {
    assert p[..|p|] == p;
    if p in t && t[p].Dir? {
      forall k | 0 <= k <= |p| ensures p[..k] in t && t[p[..k]].Dir? {
        if k < |p| {
          AncestorsAreDirectories(t, p[..k], p);
        }
      }
    }
  }

  function Intact(t: Tree, codec: Codec, receipt: Receipt, p: Path): bool
    requires p in receipt.digests
  {
    p in t && t[p].File? && codec.digest(t[p].content) == receipt.digests[p]
  }

  method ReadReceipt(t: Tree, codec: Codec) returns (receipt: Result<Receipt, Error>)
    requires WellFormed(t)
    ensures receipt.Ok? <==>
      RECEIPT in t && t[RECEIPT].File? && codec.parse(t[RECEIPT].content).Some?
        && ValidReceipt(codec.parse(t[RECEIPT].content).value)
    ensures receipt.Ok? ==> receipt.value == codec.parse(t[RECEIPT].content).value
  {
    var state := InspectOwnedFile(t, RECEIPT);
    if !state.Regular? {
      return Err(NoReceipt);
    }
    var parsed := codec.parse(t[RECEIPT].content);
    if parsed.None? || !ValidReceipt(parsed.value) {
      return Err(NoReceipt);
    }
    receipt := Ok(parsed.value);
  }

  // ---------------------------------------------------------------- status

  datatype StatusPhase = Absent | Configured | DriftedPhase

  datatype Status = Status(phase: StatusPhase, missing: seq<Path>, modified: seq<Path>)

  /** Read-only: which owned files are gone, and which have other content. */
  method GetStatus(disk: Disk, codec: Codec) returns (status: Result<Status, Error>)
    requires WellFormed(disk.tree)
    ensures [] !in disk.tree ==> status == Ok(Status(Absent, [], []))
    ensures status.Ok? && [] in disk.tree ==>
      && RECEIPT in disk.tree && disk.tree[RECEIPT].File? && codec.parse(disk.tree[RECEIPT].content).Some?
      && var receipt := codec.parse(disk.tree[RECEIPT].content).value;
         && ValidReceipt(receipt)
         && (forall p :: p in status.value.missing <==>
               p in receipt.ownedFiles && !(p in disk.tree && disk.tree[p].File?))
         && (forall p :: p in status.value.modified <==>
               p in receipt.ownedFiles && p in disk.tree && disk.tree[p].File? && !Intact(disk.tree, codec, receipt, p))
         && (status.value.phase == Configured <==>
               forall p :: p in receipt.ownedFiles ==> Intact(disk.tree, codec, receipt, p))
         && (status.value.phase == Configured || status.value.phase == DriftedPhase)
    ensures RECEIPT in disk.tree && disk.tree[RECEIPT].File? && codec.parse(disk.tree[RECEIPT].content).Some?
      && ValidReceipt(codec.parse(disk.tree[RECEIPT].content).value)
      ==> status.Ok?
  {
    if [] !in disk.tree {
      NothingBelowMissing(disk.tree, [], RECEIPT);
      return Ok(Status(Absent, [], []));
    }
    var read := ReadReceipt(disk.tree, codec);
    if read.Err? {
      return Err(read.error);
    }
    var receipt := read.value;
    var missing, modified: seq<Path> := [], [];
    for i := 0 to |receipt.ownedFiles|
      invariant forall p :: p in missing <==> p in receipt.ownedFiles[..i] && !(p in disk.tree && disk.tree[p].File?)
      invariant forall p :: p in modified <==>
        p in receipt.ownedFiles[..i] && p in disk.tree && disk.tree[p].File? && !Intact(disk.tree, codec, receipt, p)
    {
      var p := receipt.ownedFiles[i];
      assert receipt.ownedFiles[..i + 1] == receipt.ownedFiles[..i] + [p];
      assert p in receipt.ownedFiles;
      var state := InspectOwnedFile(disk.tree, p);
      if !state.Regular? {
        missing := missing + [p];
      } else if codec.digest(disk.tree[p].content) != receipt.digests[p] {
        modified := modified + [p];
      }
    }
    assert receipt.ownedFiles[..|receipt.ownedFiles|] == receipt.ownedFiles;
    if missing != [] {
      assert missing[0] in missing;
    }
    if modified != [] {
      assert modified[0] in modified;
    }
    status := Ok(Status(if missing != [] || modified != [] then DriftedPhase else Configured, missing, modified));
  }

  // ---------------------------------------------------------------- directories to try

  /** The directories an installation may have made: `.agx`, and everything above an owned file. */
  ghost predicate Candidate(receipt: Receipt, d: Path) {
    d == METADATA || (d != [] && exists f :: f in receipt.ownedFiles && d < f)
  }

  /** Deepest first; among equally deep ones any order will do. */
  method OwnedDirectoryCandidates(receipt: Receipt) returns (directories: seq<Path>)
    requires forall f :: f in receipt.ownedFiles ==> f != []
    ensures forall d :: d in directories <==> Candidate(receipt, d)
    ensures forall i, j :: 0 <= i < j < |directories| ==> |directories[i]| >= |directories[j]|
    ensures forall i, j :: 0 <= i < j < |directories| ==> directories[i] != directories[j]
  {
    var seen: set<Path> := {METADATA};
    for i := 0 to |receipt.ownedFiles|
      invariant forall d :: d in seen <==>
        d == METADATA || (d != [] && exists k :: 0 <= k < i && d < receipt.ownedFiles[k])
    {
      var file := receipt.ownedFiles[i];
      assert file in receipt.ownedFiles;
      var directory := Parent(file);
      ghost var before := seen;
      while directory != []
        invariant directory < file
        invariant forall d :: d in seen <==> d in before || Between(directory, d, file)
        decreases |directory|
      {
        var above := Parent(directory);
        forall d ensures Between(above, d, file) <==> Between(directory, d, file) || d == directory {
          BetweenStep(directory, d, file);
        }
        seen := seen + {directory};
        directory := above;
      }
    }
    directories := SortByDepth(seen);
    forall d ensures d in seen <==> Candidate(receipt, d) {
      if f :| f in receipt.ownedFiles && d < f {
        var k :| 0 <= k < |receipt.ownedFiles| && receipt.ownedFiles[k] == f;
      }
      if k :| 0 <= k < |receipt.ownedFiles| && d < receipt.ownedFiles[k] {
        assert receipt.ownedFiles[k] in receipt.ownedFiles;
      }
    }
  }

  predicate Between(above: Path, d: Path, file: Path) {
    above < d && d < file
  }

  lemma BetweenStep(directory: Path, d: Path, file: Path)
    requires directory != [] && directory < file
    ensures Between(Parent(directory), d, file) <==> Between(directory, d, file) || d == directory
  {}

  method SortByDepth(paths: set<Path>) returns (sorted: seq<Path>)
    ensures forall d :: d in sorted <==> d in paths
    ensures forall i, j :: 0 <= i < j < |sorted| ==> |sorted[i]| >= |sorted[j]| && sorted[i] != sorted[j]
  {
    sorted := [];
    var rest := paths;
    while rest != {}
      invariant rest <= paths
      invariant forall d :: d in sorted <==> d in paths - rest
      invariant forall d, e :: d in sorted && e in rest ==> |d| >= |e|
      invariant forall i, j :: 0 <= i < j < |sorted| ==> |sorted[i]| >= |sorted[j]| && sorted[i] != sorted[j]
      decreases |rest|
    {
      DeepestExists(rest);
      var d :| d in rest && forall e :: e in rest ==> |e| <= |d|;
      sorted := sorted + [d];
      rest := rest - {d};
    }
  }

  lemma {:induction false} DeepestExists(paths: set<Path>)
    requires paths != {}
    ensures exists d :: d in paths && forall e :: e in paths ==> |e| <= |d|
    decreases |paths|
  {
    var d :| d in paths;
    if paths != {d} {
      assert paths - {d} != {};
      DeepestExists(paths - {d});
      var best :| best in paths - {d} && forall e :: e in paths - {d} ==> |e| <= |best|;
      if |d| <= |best| {
        assert forall e :: e in paths ==> |e| <= |best|;
      } else {
        assert forall e :: e in paths ==> |e| <= |d|;
      }
    }
  }

  // ---------------------------------------------------------------- uninstall

  /** What AGX may remove at all, as it finds it: an owned file with its recorded content, the
      receipt, a directory it may have made, or the root, at which it does not look again. */
  ghost predicate Permitted(codec: Codec, receipt: Receipt, entry: (Path, Node)) {
    || (entry.0 in receipt.ownedFiles && entry.0 in receipt.digests && entry.1.File?
        && codec.digest(entry.1.content) == receipt.digests[entry.0])
    || (entry.0 == RECEIPT && entry.1.File?)
    || (Candidate(receipt, entry.0) && entry.1.Dir?)
    || entry.0 == []
  }

  ghost predicate AllPermitted(codec: Codec, receipt: Receipt, entries: seq<(Path, Node)>) {
    forall e :: e in entries ==> Permitted(codec, receipt, e)
  }

  /** Owned files, the receipt, and directories AGX may have made. */
  ghost predicate Ours(t: Tree, receipt: Receipt, p: Path) {
    p in receipt.ownedFiles || p == RECEIPT || (Candidate(receipt, p) && p in t && t[p].Dir?)
  }

  ghost predicate OnlyOursBelow(t: Tree, receipt: Receipt, d: Path) {
    forall q :: q in t && d < q ==> Ours(t, receipt, q)
  }

  /** What an undisturbed uninstall removes: our files, and those directories, the root included,
      below which there is nothing but our own. */
  ghost predicate Goes(t: Tree, receipt: Receipt, p: Path) {
    || p in receipt.ownedFiles || p == RECEIPT
    || ((p == [] || Candidate(receipt, p)) && p in t && t[p].Dir? && OnlyOursBelow(t, receipt, p))
  }

  ghost function Survivors(t: Tree, receipt: Receipt): Tree {
    map p | p in t && !Goes(t, receipt, p) :: t[p]
  }

  /** An owned path that stops an uninstall: something else is there, or other content. */
  ghost predicate Blocks(t: Tree, codec: Codec, receipt: Receipt, p: Path)
    requires p in receipt.digests
  {
    StateOf(t, p).Unsafe? || (StateOf(t, p).Regular? && !Intact(t, codec, receipt, p))
  }

  /** Reads every owned file before anything is removed. */
  method Preflight(t: Tree, codec: Codec, receipt: Receipt) returns (removals: Result<seq<Path>, Error>)
    requires WellFormed(t) && ValidReceipt(receipt)
    ensures removals.Err? <==> exists p :: p in receipt.ownedFiles && Blocks(t, codec, receipt, p)
    ensures removals.Err? ==> removals.error == UnsafePath || removals.error == Drifted
    ensures removals.Ok? ==> forall p :: p in removals.value <==> p in receipt.ownedFiles && p in t
    ensures removals.Ok? ==> forall i, j :: 0 <= i < j < |removals.value| ==> removals.value[i] != removals.value[j]
  {
    var found: seq<Path> := [];
    for i := 0 to |receipt.ownedFiles|
      invariant forall p :: p in found <==> p in receipt.ownedFiles[..i] && p in t
      invariant forall p :: p in receipt.ownedFiles[..i] ==> !Blocks(t, codec, receipt, p)
      invariant forall k, l :: 0 <= k < l < |found| ==> found[k] != found[l]
    {
      var p := receipt.ownedFiles[i];
      assert p in receipt.ownedFiles;
      assert receipt.ownedFiles[..i + 1] == receipt.ownedFiles[..i] + [p];
      var state := InspectOwnedFile(t, p);
      match state
      case Missing =>
      case Unsafe => return Err(UnsafePath);
      case Regular =>
        if codec.digest(t[p].content) != receipt.digests[p] {
          return Err(Drifted);
        }
        found := found + [p];
    }
    assert receipt.ownedFiles[..|receipt.ownedFiles|] == receipt.ownedFiles;
    removals := Ok(found);
  }

  /** The log grew, by permitted removals only. */
  twostate predicate LogExtends(disk: Disk, codec: Codec, receipt: Receipt)
    reads disk
  {
    && |old(disk.removed)| <= |disk.removed|
    && disk.removed[..|old(disk.removed)|] == old(disk.removed)
    && AllPermitted(codec, receipt, disk.removed[|old(disk.removed)|..])
  }

  /** Checks one file again, and removes it. */
  method RemoveOwnedFile(disk: Disk, codec: Codec, receipt: Receipt, p: Path) returns (error: Option<Error>)
    requires WellFormed(disk.tree) && ValidReceipt(receipt) && p in receipt.ownedFiles
    modifies disk`tree, disk`removed
    ensures WellFormed(disk.tree)
    ensures LogExtends(disk, codec, receipt)
    ensures disk.quiet && error.None? ==> disk.tree == old(disk.tree) - {p}
    ensures disk.quiet && error.Some? ==> disk.tree == old(disk.tree)
    ensures disk.quiet && disk.reliable && p in old(disk.tree) && Intact(old(disk.tree), codec, receipt, p) ==>
      error.None?
  {
    disk.Disturb();
    var state := InspectOwnedFile(disk.tree, p);
    match state
    case Unsafe => return Some(ChangedMeanwhile);
    case Missing => return None;
    case Regular =>
      if codec.digest(disk.tree[p].content) != receipt.digests[p] {
        return Some(ChangedMeanwhile);
      }
      FileIsEmpty(disk.tree, p);
      var ok := disk.Remove(p);
      if !ok {
        return Some(RemoveFailed);
      }
      error := None;
  }

  /** Removes the files that passed the first check. */
  method RemoveOwnedFiles(disk: Disk, codec: Codec, receipt: Receipt, removals: seq<Path>)
    returns (error: Option<Error>)
    requires WellFormed(disk.tree) && ValidReceipt(receipt)
    requires forall p :: p in removals ==> p in receipt.ownedFiles
    requires forall i, j :: 0 <= i < j < |removals| ==> removals[i] != removals[j]
    modifies disk`tree, disk`removed
    ensures WellFormed(disk.tree)
    ensures LogExtends(disk, codec, receipt)
    ensures disk.quiet && error.None? ==> disk.tree == old(disk.tree) - (set p | p in removals)
    ensures disk.quiet && disk.reliable
      && (forall p :: p in removals ==> p in old(disk.tree) && Intact(old(disk.tree), codec, receipt, p))
      ==> error.None?
  {
    assert disk.tree == disk.tree - (set p | p in removals[..0]);
    for i := 0 to |removals|
      invariant WellFormed(disk.tree)
      invariant LogExtends(disk, codec, receipt)
      invariant disk.quiet ==> disk.tree == old(disk.tree) - (set p | p in removals[..i])
    {
      var p := removals[i];
      assert p in removals && p in receipt.ownedFiles;
      assert removals[..i + 1] == removals[..i] + [p];
      ghost var grownBefore := disk.removed;
      error := RemoveOwnedFile(disk, codec, receipt, p);
      LogJoins(codec, receipt, old(disk.removed), grownBefore, disk.removed);
      if error.Some? {
        return;
      }
    }
    assert removals[..|removals|] == removals;
    error := None;
  }

  lemma LogJoins(codec: Codec, receipt: Receipt, first: seq<(Path, Node)>, second: seq<(Path, Node)>,
                 third: seq<(Path, Node)>)
    requires |first| <= |second| <= |third| && second[..|first|] == first && third[..|second|] == second
    requires AllPermitted(codec, receipt, second[|first|..]) && AllPermitted(codec, receipt, third[|second|..])
    ensures third[..|first|] == first && AllPermitted(codec, receipt, third[|first|..])
  {}

  lemma FileIsEmpty(t: Tree, p: Path)
    requires WellFormed(t) && p in t && !t[p].Dir?
    ensures Empty(t, p)
  {
    forall q | q in t && p < q ensures false {
      AncestorsAreDirectories(t, p, q);
    }
  }

  /** The tree once the files are gone and the directories in `gone` too. */
  ghost predicate Cleared(t: Tree, receipt: Receipt, now: Tree, gone: set<Path>) {
    now == t - (set p | p in receipt.ownedFiles) - {RECEIPT} - gone
  }

  /** Candidates are real directories wherever they exist, once nothing blocks an uninstall. */
  lemma CandidatesAreDirectories(t: Tree, receipt: Receipt, d: Path)
    requires WellFormed(t) && ValidReceipt(receipt) && RECEIPT in t
    requires forall f :: f in receipt.ownedFiles ==> !StateOf(t, f).Unsafe?
    requires Candidate(receipt, d) && d in t
    ensures t[d].Dir?
  {
    if d == METADATA {
      AncestorsAreDirectories(t, METADATA, RECEIPT);
    } else {
      var f :| f in receipt.ownedFiles && d < f;
      if f in t {
        AncestorsAreDirectories(t, d, f);
      }
    }
  }

  /** The deeper candidates have been decided: exactly those that go are gone. */
  ghost predicate DecidedBelow(t: Tree, receipt: Receipt, gone: set<Path>, d: Path) {
    forall q :: q in t && d < q && Candidate(receipt, q) && t[q].Dir? ==> (q in gone <==> OnlyOursBelow(t, receipt, q))
  }

  ghost predicate GoneAreCandidates(t: Tree, receipt: Receipt, gone: set<Path>) {
    forall q :: q in gone ==> Candidate(receipt, q) && q in t && t[q].Dir?
  }

  lemma OursBelowIsOurs(t: Tree, receipt: Receipt, d: Path, q: Path)
    requires OnlyOursBelow(t, receipt, d) && d < q
    ensures OnlyOursBelow(t, receipt, q)
  {}

  /** When the deeper candidates have been decided, a directory is empty exactly if there was
      nothing but ours below it: one pass, deepest first, is enough. */
  lemma EmptyExactlyIfOnlyOurs(t: Tree, receipt: Receipt, now: Tree, gone: set<Path>, d: Path)
    requires Cleared(t, receipt, now, gone)
    requires DecidedBelow(t, receipt, gone, d) && GoneAreCandidates(t, receipt, gone)
    ensures Empty(now, d) <==> OnlyOursBelow(t, receipt, d)
  {
    if Empty(now, d) {
      forall q | q in t && d < q ensures Ours(t, receipt, q) {
        assert q !in now;
      }
    }
    if OnlyOursBelow(t, receipt, d) {
      forall q | q in t && d < q ensures q !in now {
        assert Ours(t, receipt, q);
        OursBelowIsOurs(t, receipt, d, q);
      }
      assert forall q :: q in now ==> q in t;
    }
  }

  ghost predicate Decided(t: Tree, receipt: Receipt, gone: set<Path>, directories: seq<Path>, count: nat)
    requires count <= |directories|
  {
    && GoneAreCandidates(t, receipt, gone)
    && (forall j :: 0 <= j < count && directories[j] in t ==>
          (directories[j] in gone <==> OnlyOursBelow(t, receipt, directories[j])))
    && (forall j :: count <= j < |directories| ==> directories[j] !in gone)
  }

  /** Nothing stops this uninstall, and it has a receipt to follow. */
  ghost predicate Removable(t: Tree, codec: Codec, receipt: Receipt) {
    && WellFormed(t) && ValidReceipt(receipt)
    && RECEIPT in t && t[RECEIPT].File?
    && forall p :: p in receipt.ownedFiles ==> !Blocks(t, codec, receipt, p)
  }

  lemma DeeperIsDecided(t: Tree, codec: Codec, receipt: Receipt, gone: set<Path>, directories: seq<Path>, i: nat)
    requires Removable(t, codec, receipt) && i < |directories|
    requires forall d :: d in directories <==> Candidate(receipt, d)
    requires forall k, l :: 0 <= k < l < |directories| ==> |directories[k]| >= |directories[l]|
    requires Decided(t, receipt, gone, directories, i)
    ensures DecidedBelow(t, receipt, gone, directories[i])
  {}

  /** A candidate is still there in the middle of the pass, as a real directory, if it was at all. */
  lemma StillThere(t: Tree, codec: Codec, receipt: Receipt, now: Tree, gone: set<Path>, d: Path)
    requires Removable(t, codec, receipt) && Cleared(t, receipt, now, gone)
    requires Candidate(receipt, d) && d !in gone
    ensures d in now <==> d in t
    ensures d in now ==> now[d].Dir?
  {
    if d in t {
      assert forall f :: f in receipt.ownedFiles && f in t ==> !Blocks(t, codec, receipt, f) && t[f].File?;
      CandidatesAreDirectories(t, receipt, d);
    }
  }

  lemma ClearedStep(t: Tree, receipt: Receipt, now: Tree, gone: set<Path>, d: Path)
    requires Cleared(t, receipt, now, gone)
    ensures Cleared(t, receipt, now - {d}, gone + {d})
  {}

  /** One directory of the pass. */
  method RemoveDirectory(disk: Disk, codec: Codec, receipt: Receipt, d: Path) returns (ok: bool)
    requires WellFormed(disk.tree) && Candidate(receipt, d)
    modifies disk`tree, disk`removed
    ensures WellFormed(disk.tree)
    ensures LogExtends(disk, codec, receipt)
    ensures disk.quiet && ok ==>
      d in old(disk.tree) && old(disk.tree)[d].Dir? && Empty(old(disk.tree), d) && disk.tree == old(disk.tree) - {d}
    ensures disk.quiet && !ok ==> disk.tree == old(disk.tree)
    ensures disk.quiet && disk.reliable && d in old(disk.tree) && old(disk.tree)[d].Dir? && Empty(old(disk.tree), d) ==>
      ok
  {
    disk.Disturb();
    RealDirectoryExactly(disk.tree, d);
    if !RealDirectory(disk.tree, d) {
      return false;
    }
    ok := disk.Remove(d);
  }

  /** One pass over the candidates, deepest first. */
  method RemoveCandidates(disk: Disk, codec: Codec, receipt: Receipt, directories: seq<Path>, ghost t: Tree)
    returns (ghost gone: set<Path>)
    requires WellFormed(disk.tree) && Removable(t, codec, receipt)
    requires disk.quiet ==> Cleared(t, receipt, disk.tree, {})
    requires forall d :: d in directories <==> Candidate(receipt, d)
    requires forall i, j :: 0 <= i < j < |directories| ==> |directories[i]| >= |directories[j]|
    requires forall i, j :: 0 <= i < j < |directories| ==> directories[i] != directories[j]
    modifies disk`tree, disk`removed
    ensures WellFormed(disk.tree)
    ensures LogExtends(disk, codec, receipt)
    ensures disk.quiet && disk.reliable ==>
      Cleared(t, receipt, disk.tree, gone) && Decided(t, receipt, gone, directories, |directories|)
  {
    gone := {};
    for i := 0 to |directories|
      invariant WellFormed(disk.tree)
      invariant LogExtends(disk, codec, receipt)
      invariant disk.quiet && disk.reliable ==>
        Cleared(t, receipt, disk.tree, gone) && Decided(t, receipt, gone, directories, i)
    {
      var d := directories[i];
      assert d in directories;
      ghost var before, logBefore := disk.tree, disk.removed;
      var ok := RemoveDirectory(disk, codec, receipt, d);
      LogJoins(codec, receipt, old(disk.removed), logBefore, disk.removed);
      if disk.quiet && disk.reliable {
        PassStep(t, codec, receipt, before, gone, directories, i, ok);
        if ok {
          gone := gone + {d};
        }
      }
    }
  }

  lemma DecidedStep(t: Tree, receipt: Receipt, gone: set<Path>, directories: seq<Path>, i: nat, ok: bool)
    requires i < |directories| && Candidate(receipt, directories[i])
    requires forall k, l :: 0 <= k < l < |directories| ==> directories[k] != directories[l]
    requires Decided(t, receipt, gone, directories, i)
    requires ok ==> directories[i] in t && t[directories[i]].Dir?
    requires directories[i] in t ==> (ok <==> OnlyOursBelow(t, receipt, directories[i]))
    ensures Decided(t, receipt, if ok then gone + {directories[i]} else gone, directories, i + 1)
  {}

  /** One decision of the pass: the directory goes exactly if it was empty by then. */
  lemma PassStep(t: Tree, codec: Codec, receipt: Receipt, before: Tree, gone: set<Path>, directories: seq<Path>, i: nat,
                 ok: bool)
    requires Removable(t, codec, receipt) && i < |directories|
    requires forall d :: d in directories <==> Candidate(receipt, d)
    requires forall k, l :: 0 <= k < l < |directories| ==> |directories[k]| >= |directories[l]|
    requires forall k, l :: 0 <= k < l < |directories| ==> directories[k] != directories[l]
    requires Cleared(t, receipt, before, gone) && Decided(t, receipt, gone, directories, i)
    requires ok <==> directories[i] in before && before[directories[i]].Dir? && Empty(before, directories[i])
    ensures Decided(t, receipt, if ok then gone + {directories[i]} else gone, directories, i + 1)
    ensures Cleared(t, receipt, if ok then before - {directories[i]} else before,
                    if ok then gone + {directories[i]} else gone)
  {
    var d := directories[i];
    assert d in directories;
    assert d !in gone;
    DeeperIsDecided(t, codec, receipt, gone, directories, i);
    EmptyExactlyIfOnlyOurs(t, receipt, before, gone, d);
    StillThere(t, codec, receipt, before, gone, d);
    if d in t {
      CandidatesAreDirectories(t, receipt, d);
    }
    ClearedStep(t, receipt, before, gone, d);
    DecidedStep(t, receipt, gone, directories, i, ok);
  }

  /** The candidates, and then the root. */
  method RemoveDirectories(disk: Disk, codec: Codec, receipt: Receipt, ghost t: Tree)
    requires WellFormed(disk.tree) && Removable(t, codec, receipt)
    requires disk.quiet ==> Cleared(t, receipt, disk.tree, {})
    modifies disk`tree, disk`removed
    ensures WellFormed(disk.tree)
    ensures LogExtends(disk, codec, receipt)
    ensures disk.quiet && disk.reliable ==> disk.tree == Survivors(t, receipt)
  {
    var directories := OwnedDirectoryCandidates(receipt);
    ghost var gone := RemoveCandidates(disk, codec, receipt, directories, t);
    ghost var before, logBefore := disk.tree, disk.removed;
    disk.Disturb();
    var ok := disk.Remove([]);
    LogJoins(codec, receipt, old(disk.removed), logBefore, disk.removed);
    if disk.quiet && disk.reliable {
      PassIsExact(t, codec, receipt, before, disk.tree, gone, directories);
    }
  }

  lemma PassIsExact(t: Tree, codec: Codec, receipt: Receipt, before: Tree, after: Tree, gone: set<Path>,
                    directories: seq<Path>)
    requires Removable(t, codec, receipt) && Cleared(t, receipt, before, gone)
    requires forall d :: d in directories <==> Candidate(receipt, d)
    requires Decided(t, receipt, gone, directories, |directories|)
    requires after == if [] in before && Empty(before, []) then before - {[]} else before
    ensures after == Survivors(t, receipt)
  {
    RootGoesExactly(t, codec, receipt, before, gone, directories);
    forall p | p in t && p != [] ensures p in before <==> !Goes(t, receipt, p) {
      DecidedExactly(t, codec, receipt, gone, directories, p);
    }
    assert [] !in receipt.ownedFiles;
    assert forall p :: p in after <==> p in Survivors(t, receipt);
  }

  lemma DecidedExactly(t: Tree, codec: Codec, receipt: Receipt, gone: set<Path>, directories: seq<Path>, p: Path)
    requires Removable(t, codec, receipt)
    requires forall d :: d in directories <==> Candidate(receipt, d)
    requires Decided(t, receipt, gone, directories, |directories|)
    requires p in t && p != []
    ensures p in receipt.ownedFiles || p == RECEIPT || p in gone <==> Goes(t, receipt, p)
  {}

  lemma RootGoesExactly(t: Tree, codec: Codec, receipt: Receipt, before: Tree, gone: set<Path>, directories: seq<Path>)
    requires Removable(t, codec, receipt) && Cleared(t, receipt, before, gone)
    requires forall d :: d in directories <==> Candidate(receipt, d)
    requires Decided(t, receipt, gone, directories, |directories|)
    ensures [] in t && [] in before && t[[]].Dir?
    ensures Empty(before, []) <==> OnlyOursBelow(t, receipt, [])
  {
    AncestorsAreDirectories(t, [], RECEIPT);
    assert [] !in receipt.ownedFiles && !Candidate(receipt, []);
    forall q | q in t && Candidate(receipt, q) && t[q].Dir? ensures q in gone <==> OnlyOursBelow(t, receipt, q) {
      assert q in directories;
    }
    EmptyExactlyIfOnlyOurs(t, receipt, before, gone, []);
  }

  ghost predicate HasReceipt(t: Tree, codec: Codec) {
    RECEIPT in t && t[RECEIPT].File? && codec.parse(t[RECEIPT].content).Some?
      && ValidReceipt(codec.parse(t[RECEIPT].content).value)
  }

  ghost function ReceiptOf(t: Tree, codec: Codec): Receipt
    requires HasReceipt(t, codec)
  {
    codec.parse(t[RECEIPT].content).value
  }

  method RemoveReceipt(disk: Disk, codec: Codec, receipt: Receipt) returns (error: Option<Error>)
    requires WellFormed(disk.tree)
    modifies disk`tree, disk`removed
    ensures WellFormed(disk.tree)
    ensures LogExtends(disk, codec, receipt)
    ensures disk.quiet && error.None? ==> disk.tree == old(disk.tree) - {RECEIPT}
    ensures disk.quiet && disk.reliable && RECEIPT in old(disk.tree) && old(disk.tree)[RECEIPT].File? ==> error.None?
  {
    disk.Disturb();
    var state := InspectOwnedFile(disk.tree, RECEIPT);
    match state
    case Unsafe => return Some(UnsafePath);
    case Missing => return None;
    case Regular =>
      FileIsEmpty(disk.tree, RECEIPT);
      var ok := disk.Remove(RECEIPT);
      error := if ok then None else Some(RemoveFailed);
  }

  /**
   Removes what the receipt claims and nothing else.  The first error leaves the rest in place; an
   undisturbed run on a reliable disk leaves exactly the survivors.
   */
  method Uninstall(disk: Disk, codec: Codec) returns (retained: Result<set<Path>, Error>)
    requires WellFormed(disk.tree)
    modifies disk`tree, disk`removed
    ensures WellFormed(disk.tree)
    ensures !HasReceipt(old(disk.tree), codec) ==> retained == Err(NoReceipt) && disk.removed == old(disk.removed)
    ensures HasReceipt(old(disk.tree), codec) ==> LogExtends(disk, codec, old(ReceiptOf(disk.tree, codec)))
    ensures HasReceipt(old(disk.tree), codec) && !old(Removable(disk.tree, codec, ReceiptOf(disk.tree, codec))) ==>
      (retained == Err(UnsafePath) || retained == Err(Drifted)) && disk.tree == old(disk.tree)
        && disk.removed == old(disk.removed)
    ensures disk.quiet && disk.reliable && HasReceipt(old(disk.tree), codec) ==>
      old(Removable(disk.tree, codec, ReceiptOf(disk.tree, codec))) ==>
      retained.Ok? && disk.tree == old(Survivors(disk.tree, ReceiptOf(disk.tree, codec)))
    ensures retained.Ok? ==> retained.value == disk.tree.Keys - {[]}
  {
    ghost var t := disk.tree;
    var read := ReadReceipt(disk.tree, codec);
    if read.Err? {
      return Err(NoReceipt);
    }
    var receipt := read.value;
    var checked := Preflight(disk.tree, codec, receipt);
    if checked.Err? {
      return Err(checked.error);
    }
    var error := RemoveOwnedFiles(disk, codec, receipt, checked.value);
    if error.Some? {
      return Err(error.value);
    }
    ghost var logBefore := disk.removed;
    error := RemoveReceipt(disk, codec, receipt);
    LogJoins(codec, receipt, old(disk.removed), logBefore, disk.removed);
    if error.Some? {
      return Err(error.value);
    }
    if disk.quiet {
      assert Cleared(t, receipt, disk.tree, {});
    }
    logBefore := disk.removed;
    RemoveDirectories(disk, codec, receipt, t);
    LogJoins(codec, receipt, old(disk.removed), logBefore, disk.removed);
    retained := Ok(disk.tree.Keys - {[]});
  }

  /** No directory that AGX may have made is left empty. */
  lemma NothingEmptyIsLeft(t: Tree, codec: Codec, receipt: Receipt, d: Path)
    requires Removable(t, codec, receipt) && (d == [] || Candidate(receipt, d))
    requires d in Survivors(t, receipt)
    ensures exists q :: q in Survivors(t, receipt) && d < q && !Ours(t, receipt, q)
  {
    if d == [] {
      AncestorsAreDirectories(t, [], RECEIPT);
    } else {
      CandidatesAreDirectories(t, receipt, d);
    }
    var q :| q in t && d < q && !Ours(t, receipt, q);
  }

  /** Nothing but what is ours is missing afterwards, and what is left is unchanged. */
  lemma OthersSurvive(t: Tree, receipt: Receipt, p: Path)
    requires p in t && p != [] && !Ours(t, receipt, p)
    ensures p in Survivors(t, receipt) && Survivors(t, receipt)[p] == t[p]
  {}
}
