/** Unpacking an archive into a stage, publishing the stage as the root, and taking it all back. */
module Apply {
  import opened Wrappers
  import opened FileTree
  import opened Install

  // ---------------------------------------------------------------- names in an archive

  datatype EntryKind = PaxHeader | DirectoryEntry | RegularEntry | OtherEntry

  /** An archive entry; its name is given split at the slashes, backslashes having become slashes. */
  datatype Entry = Entry(absolute: bool, parts: seq<string>, kind: EntryKind, content: Bytes)

  const MAX_ASSET_BYTES := 134_217_728

  /** Adds one part to a cleaned name: empty parts and `.` vanish, `..` takes back the part before. */
  function CleanStep(absolute: bool, cleaned: seq<string>, part: string): seq<string> {
    if part == "" || part == "." then cleaned
    else if part != ".." then cleaned + [part]
    else if cleaned != [] && cleaned[|cleaned| - 1] != ".." then cleaned[..|cleaned| - 1]
    else if absolute then cleaned
    else cleaned + [part]
  }

  function Clean(absolute: bool, parts: seq<string>): seq<string> {
    if parts == [] then []
    else CleanStep(absolute, Clean(absolute, parts[..|parts| - 1]), parts[|parts| - 1])
  }

  predicate Plain(part: string) {
    part != "" && part != "." && part != ".."
  }

  /** It goes up first, if at all, and is plain from there on; an absolute name never goes up. */
  ghost predicate UpFirst(absolute: bool, cleaned: seq<string>) {
    && (forall i :: 0 <= i < |cleaned| ==> Plain(cleaned[i]) || cleaned[i] == "..")
    && (forall i, j :: 0 <= i < j < |cleaned| && cleaned[j] == ".." ==> cleaned[i] == "..")
    && (absolute ==> forall i :: 0 <= i < |cleaned| ==> cleaned[i] != "..")
  }

  lemma CleanStepKeepsUpFirst(absolute: bool, cleaned: seq<string>, part: string)
    requires UpFirst(absolute, cleaned)
    ensures UpFirst(absolute, CleanStep(absolute, cleaned, part))
  {
    if part == ".." && cleaned != [] {
      var last := |cleaned| - 1;
      assert cleaned[last] == ".." ==> forall i :: 0 <= i < last ==> cleaned[i] == "..";
    }
  }

  lemma {:induction false} CleanGoesUpFirst(absolute: bool, parts: seq<string>)
    ensures UpFirst(absolute, Clean(absolute, parts))
  {
    if parts != [] {
      CleanGoesUpFirst(absolute, parts[..|parts| - 1]);
      CleanStepKeepsUpFirst(absolute, Clean(absolute, parts[..|parts| - 1]), parts[|parts| - 1]);
    }
  }

  /** Where an entry goes below the root, or why it goes nowhere: skipped, or refused. */
  datatype Placement = Skipped | RefusedName | At(path: Path)

  function Place(e: Entry): Placement {
    if e.kind.PaxHeader? then Skipped
    else
      var cleaned := Clean(e.absolute, e.parts);
      if e.absolute || cleaned == [] || (|cleaned| > 1 && cleaned[0] == "..") then RefusedName
      else if |cleaned| == 1 then (if e.kind.DirectoryEntry? then Skipped else RefusedName)
      else At(PLUGINS + cleaned[1..])
  }

  /** No name, however written, leads outside the component. */
  lemma PlacementStaysInside(e: Entry)
    ensures Place(e).At? ==> PLUGINS < Place(e).path && forall i :: 0 <= i < |Place(e).path| ==> Plain(Place(e).path[i])
  {
    CleanGoesUpFirst(e.absolute, e.parts);
    if Place(e).At? {
      var cleaned := Clean(e.absolute, e.parts);
      assert forall i :: 0 < i < |cleaned| && cleaned[i] == ".." ==> cleaned[0] == "..";
      assert forall i :: 0 < i < |cleaned| ==> Plain(cleaned[i]);
      assert |"components"| == 10 && |"agent-plugins"| == 13;
      assert forall i :: 0 <= i < |PLUGINS| ==> Plain(PLUGINS[i]);
    }
  }

  // ---------------------------------------------------------------- extraction

  datatype ApplyError = BadArchive | NoRegularFiles | Conflict | DriftedInstallation

  /** What an entry leaves behind, and where. */
  datatype Item = Nothing | Made(path: Path, node: Node)

  function ItemOf(e: Entry): Item {
    if !Place(e).At? then Nothing
    else match e.kind
      case DirectoryEntry => Made(Place(e).path, Dir)
      case RegularEntry => Made(Place(e).path, File(e.content))
      case _ => Nothing
  }

  function ItemsOf(entries: seq<Entry>): (items: seq<Item>)
    ensures |items| == |entries|
    ensures forall i :: 0 <= i < |items| ==> items[i] == ItemOf(entries[i])
  {
    seq(|entries|, i requires 0 <= i < |entries| => ItemOf(entries[i]))
  }

  /** Some item is at this path or below it. */
  ghost predicate Reaches(items: seq<Item>, p: Path) {
    exists e :: e in items && e.Made? && p <= e.path
  }

  /** What an entry left is there. */
  ghost predicate Holds(t: Tree, e: Item) {
    e.Made? ==> e.path in t && t[e.path] == e.node
  }

  /** Real directories and regular files only, and the files are `files`, inside the component. */
  ghost predicate OnlyFiles(t: Tree, files: seq<Path>) {
    && (forall p :: p in t ==> (t[p].Dir? || t[p].File?) && (t[p].File? <==> p in files))
    && (forall p :: p in files ==> PLUGINS < p && p in t)
    && (forall i, j :: 0 <= i < j < |files| ==> files[i] != files[j])
  }

  /** `t` is what the entries make of an empty stage: their paths with everything above them, with
      the content of each regular entry where it goes, and no other file. */
  ghost predicate Unpacked(t: Tree, items: seq<Item>, files: seq<Path>) {
    && WellFormed(t)
    && ReachedExactly(t, items)
    && OnlyFiles(t, files)
    && AllHold(t, items)
    && FromItems(items, files)
  }

  ghost predicate FileItem(items: seq<Item>, p: Path) {
    exists e :: e in items && e.Made? && e.node.File? && e.path == p
  }

  /** Every file is one of the regular entries. */
  ghost predicate FromItems(items: seq<Item>, files: seq<Path>) {
    forall p :: p in files ==> FileItem(items, p)
  }

  lemma FilesStayItems(items: seq<Item>, e: Item, files: seq<Path>)
    requires FromItems(items, files)
    ensures FromItems(items + [e], files)
    ensures e.Made? && e.node.File? ==> FromItems(items + [e], files + [e.path])
  {}

  /** No earlier entry put a file there or above. */
  ghost predicate NoFileAbove(done: seq<Item>, p: Path) {
    forall e :: e in done && e.Made? && e.node.File? ==> !(e.path <= p)
  }

  /** The entry has an acceptable name, size and type, and a place that earlier entries left for it. */
  ghost predicate Fits(done: seq<Item>, e: Entry) {
    match Place(e)
    case Skipped => true
    case RefusedName => false
    case At(target) =>
      match e.kind
      case DirectoryEntry => NoFileAbove(done, target)
      case RegularEntry => |e.content| <= MAX_ASSET_BYTES && !Reaches(done, target) && NoFileAbove(done, target)
      case _ => false
  }

  /** Whether an archive can be unpacked at all. */
  ghost predicate AllFit(entries: seq<Entry>) {
    forall i :: 0 <= i < |entries| ==> Fits(ItemsOf(entries)[..i], entries[i])
  }

  /** A directory can be made exactly where no file is in the way. */
  lemma WayIsClear(t: Tree, done: seq<Item>, files: seq<Path>, p: Path)
    requires Unpacked(t, done, files)
    ensures (forall q :: q in t && q <= p ==> t[q].Dir?) <==> NoFileAbove(done, p)
  {}

  ghost predicate AllHold(t: Tree, items: seq<Item>) {
    forall i :: 0 <= i < |items| ==> Holds(t, items[i])
  }

  lemma StillHolds(before: Tree, after: Tree, items: seq<Item>, e: Item)
    requires AllHold(before, items) && Holds(after, e)
    requires forall p :: p in before ==> p in after && after[p] == before[p]
    ensures AllHold(after, items + [e])
  {}

  ghost predicate ReachedExactly(t: Tree, items: seq<Item>) {
    forall p :: p in t <==> p == [] || Reaches(items, p)
  }

  lemma ReachGrows(before: Tree, after: Tree, items: seq<Item>, e: Item)
    requires ReachedExactly(before, items) && e.Made?
    requires forall p :: p in after <==> p in before || p <= e.path
    ensures ReachedExactly(after, items + [e])
  {}

  lemma DirectoriesGrow(before: Tree, after: Tree, files: seq<Path>, d: Path)
    requires OnlyFiles(before, files) && Grown(before, after, d, |d| + 1)
    ensures OnlyFiles(after, files)
    ensures forall p :: p in after <==> p in before || p <= d
    ensures forall p :: p in before ==> p in after && after[p] == before[p]
  {}

  lemma MadeDirectory(before: Tree, after: Tree, items: seq<Item>, e: Item, files: seq<Path>)
    requires Unpacked(before, items, files) && e.Made? && e.node.Dir?
    requires WellFormed(after) && Grown(before, after, e.path, |e.path| + 1)
    requires e.path in after && after[e.path].Dir?
    ensures Unpacked(after, items + [e], files)
  {
    DirectoriesGrow(before, after, files, e.path);
    ReachGrows(before, after, items, e);
    StillHolds(before, after, items, e);
    FilesStayItems(items, e, files);
  }

  lemma PrefixOfFile(f: Path, p: Path)
    requires f != []
    ensures p <= f <==> p == f || (p <= Parent(f) && |p| < |Parent(f)| + 1)
  {}

  lemma FileReach(before: Tree, middle: Tree, after: Tree, f: Path, content: Bytes)
    requires f != [] && Grown(before, middle, Parent(f), |Parent(f)| + 1)
    requires f !in middle && after == middle[f := File(content)]
    ensures forall p :: p in after <==> p in before || p <= f
    ensures forall p :: p in before ==> p in after && after[p] == before[p]
  {
    forall p ensures p in after <==> p in before || p <= f {
      PrefixOfFile(f, p);
    }
  }

  lemma MadeFile(before: Tree, middle: Tree, after: Tree, items: seq<Item>, e: Item, files: seq<Path>)
    requires Unpacked(before, items, files) && e.Made? && e.node.File?
    requires PLUGINS < e.path
    requires Grown(before, middle, Parent(e.path), |Parent(e.path)| + 1)
    requires e.path !in middle && WellFormed(after) && after == middle[e.path := e.node]
    ensures Unpacked(after, items + [e], files + [e.path])
  {
    FileReach(before, middle, after, e.path, e.node.content);
    ReachGrows(before, after, items, e);
    FilesGrow(before, middle, after, e.path, e.node.content, files);
    StillHolds(before, after, items, e);
    FilesStayItems(items, e, files);
  }

  lemma FilesGrow(before: Tree, middle: Tree, after: Tree, f: Path, content: Bytes, files: seq<Path>)
    requires OnlyFiles(before, files) && f != [] && PLUGINS < f
    requires Grown(before, middle, Parent(f), |Parent(f)| + 1)
    requires f !in middle && after == middle[f := File(content)]
    ensures OnlyFiles(after, files + [f])
  {
    assert f !in files;
  }

  lemma LeftNothing(t: Tree, items: seq<Item>, e: Item, files: seq<Path>)
    requires Unpacked(t, items, files) && e.Nothing?
    ensures Unpacked(t, items + [e], files)
  {}

  lemma DirectoryMeansClear(before: Tree, after: Tree, p: Path)
    requires WellFormed(after) && p in after && after[p].Dir?
    requires forall q :: q in before ==> q in after && after[q] == before[q]
    ensures forall q :: q in before && q <= p ==> before[q].Dir?
  {
    forall q | q in before && q <= p ensures before[q].Dir? {
      if q != p {
        AncestorsAreDirectories(after, q, p);
      }
    }
  }

  method ExtractDirectory(stage: Disk, e: Entry, target: Path, files: seq<Path>, ghost done: seq<Item>)
    returns (ok: bool)
    requires Unpacked(stage.tree, done, files) && e.kind.DirectoryEntry? && Place(e) == At(target)
    modifies stage`tree
    ensures WellFormed(stage.tree)
    ensures ok ==> Unpacked(stage.tree, done + [ItemOf(e)], files)
    ensures ok <==> NoFileAbove(done, target)
  {
    ghost var before := stage.tree;
    WayIsClear(before, done, files, target);
    ok := stage.MkdirAll(target);
    if ok {
      DirectoryMeansClear(before, stage.tree, target);
      MadeDirectory(before, stage.tree, done, ItemOf(e), files);
    }
  }

  /** No file above a place and none at it is the same as none above its parent, if nothing is there. */
  lemma ParentIsClear(done: seq<Item>, target: Path)
    requires target != [] && !Reaches(done, target)
    ensures NoFileAbove(done, target) <==> NoFileAbove(done, Parent(target))
  {}

  /** Makes a new file and the directories above it, which works exactly if nothing is in the way. */
  method PlaceFile(stage: Disk, target: Path, content: Bytes) returns (ok: bool, ghost middle: Tree)
    requires WellFormed(stage.tree) && target != []
    modifies stage`tree
    ensures WellFormed(stage.tree)
    ensures ok ==>
      && Grown(old(stage.tree), middle, Parent(target), |Parent(target)| + 1)
      && target !in middle && stage.tree == middle[target := File(content)]
    ensures ok <==> target !in old(stage.tree) && forall q :: q in old(stage.tree) && q <= Parent(target) ==>
      old(stage.tree)[q].Dir?
  {
    ghost var before := stage.tree;
    ok := stage.MkdirAll(Parent(target));
    middle := stage.tree;
    if ok {
      DirectoryMeansClear(before, middle, Parent(target));
      NotMade(before, middle, target);
      ok := stage.CreateFile(target, content);
    }
  }

  method ExtractFile(stage: Disk, e: Entry, target: Path, files: seq<Path>, ghost done: seq<Item>) returns (ok: bool)
    requires Unpacked(stage.tree, done, files) && e.kind.RegularEntry? && Place(e) == At(target) && PLUGINS < target
    modifies stage`tree
    ensures WellFormed(stage.tree)
    ensures ok ==> Unpacked(stage.tree, done + [ItemOf(e)], files + [target])
    ensures ok <==> |e.content| <= MAX_ASSET_BYTES && !Reaches(done, target) && NoFileAbove(done, target)
  {
    hide Reaches, NoFileAbove, Grown;
    if |e.content| > MAX_ASSET_BYTES {
      return false;
    }
    ghost var before := stage.tree;
    WayIsClear(before, done, files, Parent(target));
    if !Reaches(done, target) {
      ParentIsClear(done, target);
    }
    ghost var middle;
    ok, middle := PlaceFile(stage, target, e.content);
    if ok {
      MadeFile(before, middle, stage.tree, done, ItemOf(e), files);
    }
  }

  lemma NotMade(before: Tree, middle: Tree, target: Path)
    requires target != [] && Grown(before, middle, Parent(target), |Parent(target)| + 1)
    ensures target in middle <==> target in before
  {
  }

  method ExtractOne(stage: Disk, e: Entry, files: seq<Path>, ghost done: seq<Item>) returns (more: Option<seq<Path>>)
    requires Unpacked(stage.tree, done, files)
    modifies stage`tree
    ensures WellFormed(stage.tree)
    ensures more.Some? ==> Unpacked(stage.tree, done + [ItemOf(e)], more.value)
    ensures more.Some? <==> Fits(done, e)
  {
    match Place(e)
    case Skipped =>
      LeftNothing(stage.tree, done, ItemOf(e), files);
      more := Some(files);
    case RefusedName => more := None;
    case At(target) =>
      PlacementStaysInside(e);
      match e.kind
      case DirectoryEntry =>
        var ok := ExtractDirectory(stage, e, target, files, done);
        more := if ok then Some(files) else None;
      case RegularEntry =>
        var ok := ExtractFile(stage, e, target, files, done);
        more := if ok then Some(files + [target]) else None;
      case _ => more := None;
  }

  lemma NothingUnpacked()
    ensures Unpacked(map[[] := Dir], [], [])
  {}

  /** Unpacks the archive entry by entry into an empty stage. */
  method Extract(stage: Disk, entries: seq<Entry>) returns (files: Result<seq<Path>, ApplyError>)
    requires stage.tree == map[[] := Dir]
    modifies stage`tree
    ensures files.Ok? ==> Unpacked(stage.tree, ItemsOf(entries), files.value)
    ensures WellFormed(stage.tree)
    ensures files.Ok? <==> AllFit(entries)
    ensures files.Err? ==> files.error == BadArchive
  {
    hide Unpacked, Fits, ItemOf;
    NothingUnpacked();
    var found: seq<Path> := [];
    ghost var items := ItemsOf(entries);
    for i := 0 to |entries|
      invariant WellFormed(stage.tree) && Unpacked(stage.tree, items[..i], found)
      invariant forall k :: 0 <= k < i ==> Fits(items[..k], entries[k])
    {
      assert items[..i + 1] == items[..i] + [items[i]];
      var more := ExtractOne(stage, entries[i], found, items[..i]);
      if more.None? {
        return Err(BadArchive);
      }
      found := more.value;
    }
    assert items[..|items|] == items;
    files := Ok(found);
  }

  // ---------------------------------------------------------------- apply

  /** A bundle: its identity, its archive, and the platform runtime if it has one. */
  datatype Bundle = Bundle(id: string, archive: seq<Entry>, runtime: Option<(string, Bytes)>)

  /** An intact installation and nothing else: every file is owned or is the receipt. */
  ghost predicate FreshlyInstalled(t: Tree, codec: Codec, receipt: Receipt) {
    && WellFormed(t) && HasReceipt(t, codec) && ReceiptOf(t, codec) == receipt
    && (forall p :: p in t ==> t[p].Dir? || t[p].File?)
    && (forall p :: p in t && t[p].File? <==> p in receipt.ownedFiles || p == RECEIPT)
    && (forall p :: p in receipt.ownedFiles ==> Intact(t, codec, receipt, p))
  }

  /** The digests of the files as unpacked. */
  method DigestFiles(t: Tree, codec: Codec, files: seq<Path>) returns (digests: map<Path, string>)
    requires forall p :: p in files ==> p in t && t[p].File?
    ensures forall p :: p in digests <==> p in files
    ensures forall p :: p in files ==> digests[p] == codec.digest(t[p].content)
  {
    digests := map[];
    for i := 0 to |files|
      invariant forall p :: p in digests <==> p in files[..i]
      invariant forall p :: p in digests ==> p in files && digests[p] == codec.digest(t[p].content)
    {
      assert files[..i + 1] == files[..i] + [files[i]];
      assert files[i] in files;
      digests := digests[files[i] := codec.digest(t[files[i]].content)];
    }
    assert files[..|files|] == files;
  }

  /** Files at or under either component, and no others. */
  ghost predicate OnlyOwned(t: Tree, files: seq<Path>) {
    && WellFormed(t)
    && (forall p :: p in t ==> (t[p].Dir? || t[p].File?) && (t[p].File? <==> p in files))
    && (forall p :: p in files ==> (PLUGINS < p || RUNTIME < p) && p in t)
    && (forall i, j :: 0 <= i < j < |files| ==> files[i] != files[j])
  }

  /** `after` is `before` with one more file, the directories above it, and nothing else. */
  ghost predicate Added(before: Tree, after: Tree, p: Path, content: Bytes) {
    && p !in before
    && (forall q :: q in after <==> q in before || q <= p)
    && (forall q :: q in after ==> after[q] == if q in before then before[q] else if q == p then File(content) else Dir)
  }

  /** Adds a file, with its directories, to a stage that lacks it. */
  method StageFile(stage: Disk, p: Path, content: Bytes) returns (ok: bool)
    requires WellFormed(stage.tree) && p != []
    modifies stage`tree
    ensures WellFormed(stage.tree)
    ensures ok ==> Added(old(stage.tree), stage.tree, p, content)
    ensures ok <==> p !in old(stage.tree) && forall q :: q in old(stage.tree) && q <= Parent(p) ==>
      old(stage.tree)[q].Dir?
  {
    ghost var before := stage.tree;
    ghost var middle;
    ok, middle := PlaceFile(stage, p, content);
    if ok {
      FileReach(before, middle, stage.tree, p, content);
      NotMade(before, middle, p);
    }
  }

  /** Everything is in the component, or a directory above it. */
  ghost predicate InsidePlugins(t: Tree) {
    forall q :: q in t ==> (q <= PLUGINS && t[q].Dir?) || PLUGINS < q
  }

  lemma UnpackedIsInside(t: Tree, entries: seq<Entry>, files: seq<Path>)
    requires Unpacked(t, ItemsOf(entries), files)
    ensures InsidePlugins(t)
  {
    hide AllHold, FromItems, WellFormed, Place, ItemsOf;
    forall q | q in t ensures (q <= PLUGINS && t[q].Dir?) || PLUGINS < q {
      if q != [] {
        assert Reaches(ItemsOf(entries), q);
        var e :| e in ItemsOf(entries) && e.Made? && q <= e.path;
        var i :| 0 <= i < |entries| && ItemsOf(entries)[i] == e;
        PlacementStaysInside(entries[i]);
        Comparable(q, PLUGINS, e.path);
      }
    }
  }

  lemma Comparable(p: Path, q: Path, whole: Path)
    requires p <= whole && q < whole
    ensures p <= q || q < p
  {}

  /** The places of the runtime and the receipt are free beside the component. */
  lemma PlacesAreFree(t: Tree, name: string)
    requires InsidePlugins(t)
    ensures RUNTIME + [name] !in t && RECEIPT !in t && METADATA !in t
    ensures forall q :: q in t && (q <= RUNTIME || q <= METADATA) ==> t[q].Dir?
  {
    OutsideComponent(RUNTIME + [name], name);
    OutsideComponent(RECEIPT, name);
    assert |"components"| == 10 && |".agx"| == 4 && |"agent-plugins"| == 13 && |"configs-runtime"| == 15;
    assert !(RUNTIME + [name] <= PLUGINS) && !(RECEIPT <= PLUGINS);
    assert METADATA[0] != PLUGINS[0] && !(METADATA <= PLUGINS);
    assert METADATA <= RECEIPT;
    forall q | q in t && (q <= RUNTIME || q <= METADATA) ensures t[q].Dir? {
      assert q <= RUNTIME ==> q <= RUNTIME + [name];
      assert q <= METADATA ==> q <= RECEIPT;
      OutsideComponent(q, name);
    }
  }

  lemma StagedOwned(before: Tree, after: Tree, files: seq<Path>, p: Path, content: Bytes)
    requires OnlyOwned(before, files) && WellFormed(after) && (PLUGINS < p || RUNTIME < p)
    requires Added(before, after, p, content)
    ensures OnlyOwned(after, files + [p])
  {}

  /** The receipt of a stage accounts for it, and can be read back from it. */
  lemma StagedReceipt(before: Tree, after: Tree, codec: Codec, receipt: Receipt)
    requires OnlyOwned(before, receipt.ownedFiles) && ValidReceipt(receipt)
    requires codec.parse(codec.encode(receipt)) == Some(receipt)
    requires forall p :: p in receipt.ownedFiles ==> receipt.digests[p] == codec.digest(before[p].content)
    requires WellFormed(after) && Added(before, after, RECEIPT, codec.encode(receipt))
    ensures FreshlyInstalled(after, codec, receipt)
  {
    assert RECEIPT <= RECEIPT;
    assert forall p :: p in receipt.ownedFiles ==> p in after && Intact(after, codec, receipt, p);
  }

  lemma OutsideComponent(q: Path, name: string)
    requires q <= RUNTIME + [name] || q <= RECEIPT
    ensures !(PLUGINS < q)
  {
    assert |"components"| == 10 && |".agx"| == 4 && |"agent-plugins"| == 13 && |"configs-runtime"| == 15;
    if q <= RUNTIME + [name] && |q| >= 2 {
      assert q[1] == (RUNTIME + [name])[1] == "configs-runtime";
    }
    if q <= RECEIPT && |q| >= 1 {
      assert q[0] == RECEIPT[0] == ".agx";
    }
  }

  lemma BesideTheRuntime(name: string)
    ensures !(RECEIPT <= RUNTIME + [name]) && !(METADATA <= RUNTIME + [name]) && !(RUNTIME + [name] <= RECEIPT)
  {
    assert |"components"| == 10 && |".agx"| == 4;
    assert (RUNTIME + [name])[0] == "components" && RECEIPT[0] == ".agx" && METADATA[0] == ".agx";
  }

  function Executable(name: string): Path {
    RUNTIME + [name]
  }

  /** `after` is `before` with the runtime, if there is one. */
  ghost predicate RuntimeAdded(before: Tree, after: Tree, runtime: Option<(string, Bytes)>) {
    match runtime
    case None => after == before
    case Some((name, content)) => Added(before, after, Executable(name), content)
  }

  /** Puts the platform runtime beside the plugins, if there is one. */
  method StageRuntime(stage: Disk, runtime: Option<(string, Bytes)>, files: seq<Path>) returns (all: Option<seq<Path>>)
    requires OnlyOwned(stage.tree, files)
    modifies stage`tree
    ensures all.Some? ==> OnlyOwned(stage.tree, all.value) && RuntimeAdded(old(stage.tree), stage.tree, runtime)
    ensures all.Some? ==> all.value == files + if runtime.None? then [] else [Executable(runtime.value.0)]
    ensures InsidePlugins(old(stage.tree)) ==> all.Some? && RECEIPT !in stage.tree && METADATA !in stage.tree
  {
    if runtime.None? {
      if InsidePlugins(stage.tree) {
        PlacesAreFree(stage.tree, "");
      }
      return Some(files);
    }
    var (name, content) := runtime.value;
    var executable := Executable(name);
    assert Parent(executable) == RUNTIME && RUNTIME < executable;
    if InsidePlugins(stage.tree) {
      PlacesAreFree(stage.tree, name);
      BesideTheRuntime(name);
    }
    var ok := StageFile(stage, executable, content);
    if !ok {
      return None;
    }
    StagedOwned(old(stage.tree), stage.tree, files, executable, content);
    all := Some(files + [executable]);
  }

  lemma RoomForReceipt(t: Tree, files: seq<Path>)
    requires OnlyOwned(t, files)
    ensures Parent(RECEIPT) == METADATA
    ensures METADATA !in t ==> forall q :: q in t && q <= METADATA ==> t[q].Dir?
  {}

  /** Writes the receipt of what is in the stage. */
  method StageReceipt(stage: Disk, codec: Codec, id: string, files: seq<Path>) returns (receipt: Option<Receipt>)
    requires OnlyOwned(stage.tree, files) && files != []
    requires forall r :: ValidReceipt(r) ==> codec.parse(codec.encode(r)) == Some(r)
    modifies stage`tree
    ensures receipt.Some? ==>
      && FreshlyInstalled(stage.tree, codec, receipt.value) && receipt.value.bundle == id
        && receipt.value.ownedFiles == files
      && Added(old(stage.tree), stage.tree, RECEIPT, codec.encode(receipt.value))
    ensures RECEIPT !in old(stage.tree) && METADATA !in old(stage.tree) ==> receipt.Some?
  {
    var digests := DigestFiles(stage.tree, codec, files);
    var built := Receipt(id, files, digests);
    RoomForReceipt(stage.tree, files);
    var ok := StageFile(stage, RECEIPT, codec.encode(built));
    if !ok {
      return None;
    }
    assert Parent(RECEIPT) == METADATA && METADATA < RECEIPT;
    StagedReceipt(old(stage.tree), stage.tree, codec, built);
    receipt := Some(built);
  }

  lemma FileItemIsThere(t: Tree, items: seq<Item>, p: Path)
    requires AllHold(t, items) && FileItem(items, p)
    ensures p in t && t[p].File?
  {
    var e :| e in items && e.Made? && e.node.File? && e.path == p;
    var i :| 0 <= i < |items| && items[i] == e;
    assert Holds(t, items[i]);
  }

  /** The archive can be unpacked and holds a regular file. */
  ghost predicate Installable(bundle: Bundle) {
    AllFit(bundle.archive) && exists p :: FileItem(ItemsOf(bundle.archive), p)
  }

  lemma UnpackedFiles(t: Tree, items: seq<Item>, files: seq<Path>)
    requires Unpacked(t, items, files)
    ensures forall p :: p in files <==> FileItem(items, p)
    ensures files != [] <==> exists p :: FileItem(items, p)
  {
    forall p | FileItem(items, p) ensures p in files {
      FileItemIsThere(t, items, p);
    }
    assert files != [] ==> files[0] in files;
  }

  predicate RuntimePath(bundle: Bundle, p: Path) {
    bundle.runtime.Some? && p == Executable(bundle.runtime.value.0)
  }

  /** Something of the bundle is at this path or below it. */
  ghost predicate BundlePath(bundle: Bundle, p: Path) {
    || Reaches(ItemsOf(bundle.archive), p) || p <= RECEIPT
    || (bundle.runtime.Some? && p <= Executable(bundle.runtime.value.0))
  }

  /** A file of the bundle is at this path. */
  ghost predicate BundleFile(bundle: Bundle, p: Path) {
    FileItem(ItemsOf(bundle.archive), p) || p == RECEIPT || RuntimePath(bundle, p)
  }

  /** `t` is exactly the archive, the runtime if there is one, the receipt, and the directories above
      them: what is there, and what each file holds. */
  ghost predicate Laid(t: Tree, codec: Codec, bundle: Bundle, receipt: Receipt) {
    && (forall p :: p in t <==> BundlePath(bundle, p))
    && (forall p :: p in t ==> t[p].Dir? || t[p].File?)
    && (forall p :: p in t ==> (t[p].File? <==> BundleFile(bundle, p)))
    && AllHold(t, ItemsOf(bundle.archive))
    && RECEIPT in t && t[RECEIPT] == File(codec.encode(receipt))
    && (forall p :: p in t && RuntimePath(bundle, p) ==> t[p] == File(bundle.runtime.value.1))
  }

  lemma FileItemHolds(t: Tree, u: Tree, items: seq<Item>, p: Path)
    requires AllHold(t, items) && AllHold(u, items) && FileItem(items, p)
    ensures p in t && p in u && t[p] == u[p]
  {
    var e :| e in items && e.Made? && e.node.File? && e.path == p;
    var i :| 0 <= i < |items| && items[i] == e;
    assert Holds(t, items[i]) && Holds(u, items[i]);
  }

  /** There is only one such tree. */
  lemma LaidIsUnique(t: Tree, u: Tree, codec: Codec, bundle: Bundle, receipt: Receipt)
    requires Laid(t, codec, bundle, receipt) && Laid(u, codec, bundle, receipt)
    ensures t == u
  {
    hide AllHold, FileItem, BundlePath, Executable;
    forall p | p in t ensures t[p] == u[p] {
      if FileItem(ItemsOf(bundle.archive), p) {
        FileItemHolds(t, u, ItemsOf(bundle.archive), p);
      }
    }
  }

  function NodeAfter(before: Tree, bundle: Bundle, content: Bytes, p: Path): Node {
    if p in before then before[p]
    else if p == RECEIPT then File(content)
    else if RuntimePath(bundle, p) then File(bundle.runtime.value.1)
    else Dir
  }

  /** What adding the runtime and then the receipt makes of a tree. */
  lemma TwiceAdded(before: Tree, middle: Tree, t: Tree, bundle: Bundle, content: Bytes)
    requires RuntimeAdded(before, middle, bundle.runtime) && Added(middle, t, RECEIPT, content)
    ensures forall p :: p in t <==>
      p in before || p <= RECEIPT || (bundle.runtime.Some? && p <= Executable(bundle.runtime.value.0))
    ensures forall p :: p in t ==> t[p] == NodeAfter(before, bundle, content, p)
    ensures RECEIPT in t && RECEIPT !in before
    ensures bundle.runtime.Some? ==>
      Executable(bundle.runtime.value.0) in t && Executable(bundle.runtime.value.0) !in before
      && Executable(bundle.runtime.value.0) != RECEIPT
  {
    assert RECEIPT <= RECEIPT;
    if bundle.runtime.Some? {
      var executable := Executable(bundle.runtime.value.0);
      assert executable <= executable;
      BesideTheRuntime(bundle.runtime.value.0);
    }
  }

  /** Each node of the finished tree is as the bundle says, given where it came from. */
  lemma NodeIsLaid(before: Tree, node: Node, bundle: Bundle, content: Bytes, files: seq<Path>, p: Path)
    requires Unpacked(before, ItemsOf(bundle.archive), files)
    requires node == NodeAfter(before, bundle, content, p) && RECEIPT !in before
    requires bundle.runtime.Some? ==> Executable(bundle.runtime.value.0) !in before
    ensures (node.Dir? || node.File?) && (node.File? <==> BundleFile(bundle, p))
  {
    hide Reaches, FileItem, Executable, ItemsOf, AllHold, FromItems, WellFormed, ReachedExactly;
    UnpackedFiles(before, ItemsOf(bundle.archive), files);
    assert p in before ==> before[p].Dir? || before[p].File?;
    assert p in before ==> (before[p].File? <==> p in files);
  }

  lemma PathIsLaid(before: Tree, items: seq<Item>, p: Path)
    requires ReachedExactly(before, items)
    ensures p in before || p <= RECEIPT <==> Reaches(items, p) || p <= RECEIPT
  {}

  lemma StillAllHold(before: Tree, after: Tree, items: seq<Item>)
    requires AllHold(before, items) && forall p :: p in before ==> p in after && after[p] == before[p]
    ensures AllHold(after, items)
  {}

  /** Unpacking, then the runtime, then the receipt lays out the bundle. */
  lemma StagesLayOut(unpacked: Tree, middle: Tree, t: Tree, codec: Codec, bundle: Bundle, files: seq<Path>,
                     receipt: Receipt)
    requires Unpacked(unpacked, ItemsOf(bundle.archive), files)
    requires RuntimeAdded(unpacked, middle, bundle.runtime)
    requires Added(middle, t, RECEIPT, codec.encode(receipt))
    ensures Laid(t, codec, bundle, receipt)
  {
    hide RuntimeAdded, Added, Reaches, Executable, ItemsOf, AllHold, OnlyFiles, FromItems, WellFormed, ReachedExactly;
    hide BundleFile;
    var content := codec.encode(receipt);
    TwiceAdded(unpacked, middle, t, bundle, content);
    forall p ensures p in t <==> BundlePath(bundle, p) {
      PathIsLaid(unpacked, ItemsOf(bundle.archive), p);
    }
    forall p | p in t ensures (t[p].Dir? || t[p].File?) && (t[p].File? <==> BundleFile(bundle, p)) {
      NodeIsLaid(unpacked, t[p], bundle, content, files, p);
    }
    StillAllHold(unpacked, t, ItemsOf(bundle.archive));
  }

  /** Builds the whole installation in a stage of its own. */
  method BuildStage(bundle: Bundle, codec: Codec) returns (built: Result<(Tree, Receipt), ApplyError>)
    requires forall r :: ValidReceipt(r) ==> codec.parse(codec.encode(r)) == Some(r)
    ensures built.Ok? ==>
      && FreshlyInstalled(built.value.0, codec, built.value.1)
      && built.value.1.bundle == bundle.id
      && Laid(built.value.0, codec, bundle, built.value.1)
    ensures built.Ok? <==> Installable(bundle)
    ensures built.Err? ==> built.error == if AllFit(bundle.archive) then NoRegularFiles else BadArchive
  {
    hide Laid, FreshlyInstalled, RuntimeAdded, Added, AllFit;
    var stage := new Disk(map[[] := Dir], true, true);
    var extracted := Extract(stage, bundle.archive);
    if extracted.Err? {
      return Err(extracted.error);
    }
    UnpackedFiles(stage.tree, ItemsOf(bundle.archive), extracted.value);
    if extracted.value == [] {
      return Err(NoRegularFiles);
    }
    ghost var unpacked := stage.tree;
    UnpackedIsInside(unpacked, bundle.archive, extracted.value);
    var files := StageRuntime(stage, bundle.runtime, extracted.value);
    ghost var middle := stage.tree;
    var receipt := StageReceipt(stage, codec, bundle.id, files.value);
    StagesLayOut(unpacked, middle, stage.tree, codec, bundle, extracted.value, receipt.value);
    built := Ok((stage.tree, receipt.value));
  }

  /** An installation of this bundle whose owned files are all as they were installed. */
  ghost predicate Intactly(t: Tree, codec: Codec, id: string) {
    && HasReceipt(t, codec) && ReceiptOf(t, codec).bundle == id
    && forall p :: p in ReceiptOf(t, codec).ownedFiles ==> Intact(t, codec, ReceiptOf(t, codec), p)
  }

  /** Installs where nothing is; where the same bundle is, checks it; refuses everything else. */
  method ApplyBundle(disk: Disk, bundle: Bundle, codec: Codec) returns (result: Result<(Receipt, bool), ApplyError>)
    requires WellFormed(disk.tree)
    requires forall r :: ValidReceipt(r) ==> codec.parse(codec.encode(r)) == Some(r)
    modifies disk`tree
    ensures WellFormed(disk.tree)
    ensures result.Err? ==> disk.tree == old(disk.tree)
    ensures [] in old(disk.tree) ==> disk.tree == old(disk.tree)
    ensures result.Ok? && [] in old(disk.tree) ==>
      && result.value.1 && HasReceipt(disk.tree, codec) && result.value.0 == ReceiptOf(disk.tree, codec)
      && result.value.0.bundle == bundle.id
      && forall p :: p in result.value.0.ownedFiles ==> Intact(disk.tree, codec, result.value.0, p)
    ensures result.Ok? && [] !in old(disk.tree) ==>
      && !result.value.1 && FreshlyInstalled(disk.tree, codec, result.value.0) && result.value.0.bundle == bundle.id
      && Laid(disk.tree, codec, bundle, result.value.0)
    ensures [] !in old(disk.tree) ==> (result.Ok? <==> Installable(bundle))
    ensures [] in old(disk.tree) ==> (result.Ok? <==> Intactly(disk.tree, codec, bundle.id))
  {
    if [] in disk.tree {
      var read := ReadReceipt(disk.tree, codec);
      if read.Err? || read.value.bundle != bundle.id {
        return Err(Conflict);
      }
      var status := GetStatus(disk, codec);
      if status.Err? || status.value.phase != Configured {
        return Err(DriftedInstallation);
      }
      return Ok((read.value, true));
    }
    var built := BuildStage(bundle, codec);
    if built.Err? {
      return Err(built.error);
    }
    disk.tree := built.value.0;
    result := Ok((built.value.1, false));
  }

  // ---------------------------------------------------------------- round trip

  /** A directory that came with the archive and holds no regular file at any depth. */
  ghost predicate Fileless(t: Tree, d: Path) {
    d in t && t[d].Dir? && forall q :: q in t && d < q ==> !t[q].File?
  }

  /** After installing and uninstalling, what is left is the directories without files, and what is
      above them. */
  lemma LeftoversExactly(t: Tree, codec: Codec, receipt: Receipt, p: Path)
    requires FreshlyInstalled(t, codec, receipt)
    ensures p in Survivors(t, receipt) <==> exists d :: Fileless(t, d) && p <= d
  {
    AncestorsAreDirectories(t, [], RECEIPT);
    if p in Survivors(t, receipt) {
      SurvivorLeadsToFileless(t, codec, receipt, p);
    }
    if d :| Fileless(t, d) && p <= d {
      FilelessSurvives(t, codec, receipt, d);
      if p != d {
        AncestorsAreDirectories(t, p, d);
      }
    }
  }

  lemma SurvivorLeadsToFileless(t: Tree, codec: Codec, receipt: Receipt, p: Path)
    requires FreshlyInstalled(t, codec, receipt) && p in Survivors(t, receipt)
    ensures exists d :: Fileless(t, d) && p <= d
  {
    if p == [] || Candidate(receipt, p) {
      var q :| q in t && p < q && !Ours(t, receipt, q);
      NotOursIsFileless(t, codec, receipt, q);
      assert p <= q;
    } else {
      NotOursIsFileless(t, codec, receipt, p);
    }
  }

  lemma NotOursIsFileless(t: Tree, codec: Codec, receipt: Receipt, q: Path)
    requires FreshlyInstalled(t, codec, receipt) && q in t && q != [] && !Ours(t, receipt, q)
    ensures Fileless(t, q)
  {}

  lemma FilelessSurvives(t: Tree, codec: Codec, receipt: Receipt, d: Path)
    requires FreshlyInstalled(t, codec, receipt) && Fileless(t, d)
    ensures d in Survivors(t, receipt) && !Ours(t, receipt, d) && d != []
  {}

  lemma FreshIsRemovable(t: Tree, codec: Codec, receipt: Receipt)
    requires FreshlyInstalled(t, codec, receipt)
    ensures Removable(t, codec, receipt)
  {}

  /** A directory of the archive with no regular entry anywhere below. */
  ghost predicate EmptyInArchive(items: seq<Item>, d: Path) {
    PLUGINS < d && Reaches(items, d) && forall q :: d <= q ==> !FileItem(items, q)
  }

  lemma ItemsAreInside(entries: seq<Entry>, p: Path)
    ensures FileItem(ItemsOf(entries), p) ==> PLUGINS < p
    ensures Reaches(ItemsOf(entries), p) ==> p <= PLUGINS || PLUGINS < p
  {
    hide Place;
    var items := ItemsOf(entries);
    if FileItem(items, p) {
      var e :| e in items && e.Made? && e.node.File? && e.path == p;
      var i :| 0 <= i < |entries| && items[i] == e;
      PlacementStaysInside(entries[i]);
    }
    if Reaches(items, p) {
      var e :| e in items && e.Made? && p <= e.path;
      var i :| 0 <= i < |entries| && items[i] == e;
      PlacementStaysInside(entries[i]);
      Comparable(p, PLUGINS, e.path);
    }
  }

  /** Nothing in the component is the receipt or the runtime. */
  lemma NotReserved(q: Path, bundle: Bundle)
    requires PLUGINS < q
    ensures !(q <= RECEIPT) && (bundle.runtime.Some? ==> !(q <= Executable(bundle.runtime.value.0)))
    ensures !RuntimePath(bundle, q) && q != RECEIPT
  {
    if q <= RECEIPT {
      OutsideComponent(q, "");
    }
    if bundle.runtime.Some? && q <= Executable(bundle.runtime.value.0) {
      OutsideComponent(q, bundle.runtime.value.0);
    }
  }

  lemma FilelessIsArchived(t: Tree, codec: Codec, bundle: Bundle, receipt: Receipt, d: Path)
    requires Laid(t, codec, bundle, receipt) && Installable(bundle) && Fileless(t, d)
    ensures EmptyInArchive(ItemsOf(bundle.archive), d)
  {
    var items := ItemsOf(bundle.archive);
    assert RECEIPT in t && t[RECEIPT].File? by { assert RECEIPT <= RECEIPT; }
    assert !(d <= RECEIPT);
    if bundle.runtime.Some? {
      var executable := Executable(bundle.runtime.value.0);
      assert executable <= executable && executable in t && t[executable].File?;
      assert !(d <= executable);
    }
    forall q | d <= q ensures !FileItem(items, q) {
      if FileItem(items, q) {
        FileItemIsThere(t, items, q);
      }
    }
    var f :| FileItem(items, f);
    ItemsAreInside(bundle.archive, f);
    ItemsAreInside(bundle.archive, d);
    assert d <= PLUGINS ==> d <= f;
  }

  lemma ArchivedIsFileless(t: Tree, codec: Codec, bundle: Bundle, receipt: Receipt, d: Path)
    requires Laid(t, codec, bundle, receipt) && EmptyInArchive(ItemsOf(bundle.archive), d)
    ensures Fileless(t, d)
  {
    hide Reaches, FileItem, Executable, ItemsOf, AllHold;
    assert BundlePath(bundle, d);
    forall q | q in t && d <= q ensures !t[q].File? {
      NotReserved(q, bundle);
      assert !BundleFile(bundle, q);
    }
    assert d <= d;
  }

  /** In a tree that is exactly a bundle, the directories without files at any depth are those that
      its archive has. */
  lemma FilelessExactly(t: Tree, codec: Codec, bundle: Bundle, receipt: Receipt, d: Path)
    requires Laid(t, codec, bundle, receipt) && Installable(bundle)
    ensures Fileless(t, d) <==> EmptyInArchive(ItemsOf(bundle.archive), d)
  {
    hide Laid, Installable, Fileless, EmptyInArchive;
    if Fileless(t, d) {
      FilelessIsArchived(t, codec, bundle, receipt, d);
    }
    if EmptyInArchive(ItemsOf(bundle.archive), d) {
      ArchivedIsFileless(t, codec, bundle, receipt, d);
    }
  }

  /**
   Apply on an absent root, look, uninstall.  The installation was the bundle and nothing else, and
   intact; what is left is the archive's directories without a regular entry below, with what is above
   them, and nothing at all where there are none.
   */
  method ApplyThenUninstall(disk: Disk, bundle: Bundle, codec: Codec)
    returns (applied: bool, status: Result<Status, Error>, ghost installed: Tree, ghost receipt: Receipt,
             retained: Result<set<Path>, Error>)
    requires disk.tree == map[] && disk.quiet && disk.reliable
    requires forall r :: ValidReceipt(r) ==> codec.parse(codec.encode(r)) == Some(r)
    modifies disk`tree, disk`removed
    ensures applied <==> Installable(bundle)
    ensures applied ==> Laid(installed, codec, bundle, receipt) && receipt.bundle == bundle.id
    ensures applied ==> status == Ok(Status(Configured, [], [])) && retained == Ok(disk.tree.Keys - {[]})
    ensures applied ==> forall p :: p in disk.tree <==> exists d :: EmptyInArchive(ItemsOf(bundle.archive), d) && p <= d
    ensures applied ==> forall p :: p in disk.tree ==> disk.tree[p].Dir?
    ensures !applied ==> disk.tree == map[]
  {
    hide Laid, EmptyInArchive, Installable;
    var result := ApplyBundle(disk, bundle, codec);
    installed := disk.tree;
    applied := result.Ok?;
    status, retained := Ok(Status(Absent, [], [])), Ok({});
    receipt := *;
    if applied {
      receipt := result.value.0;
      FreshIsRemovable(disk.tree, codec, receipt);
      AncestorsAreDirectories(disk.tree, [], RECEIPT);
      status := GetStatus(disk, codec);
      NothingWrong(disk.tree, codec, receipt, status.value);
      retained := Uninstall(disk, codec);
      forall p ensures p in disk.tree <==> exists d :: EmptyInArchive(ItemsOf(bundle.archive), d) && p <= d {
        LeftoversExactly(installed, codec, receipt, p);
        forall d ensures Fileless(installed, d) <==> EmptyInArchive(ItemsOf(bundle.archive), d) {
          FilelessExactly(installed, codec, bundle, receipt, d);
        }
      }
      forall p | p in disk.tree ensures disk.tree[p].Dir? {
        assert p in Survivors(installed, receipt);
      }
    }
  }

  lemma Occupied(s: seq<Path>)
    ensures s != [] ==> exists p :: p in s
  {
    if s != [] {
      assert s[0] in s;
    }
  }

  lemma NothingWrong(t: Tree, codec: Codec, receipt: Receipt, status: Status)
    requires FreshlyInstalled(t, codec, receipt)
    requires forall p :: p in status.missing <==> p in receipt.ownedFiles && !(p in t && t[p].File?)
    requires forall p :: p in status.modified <==>
      p in receipt.ownedFiles && p in t && t[p].File? && !Intact(t, codec, receipt, p)
    requires status.phase == Configured <==> forall p :: p in receipt.ownedFiles ==> Intact(t, codec, receipt, p)
    ensures status == Status(Configured, [], [])
  {
    Occupied(status.missing);
    Occupied(status.modified);
  }
}
