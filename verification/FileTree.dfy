/**
 The file tree under an installation root, seen without following links.

 A path is a sequence of names below the root, and `[]` is the root itself; for sequences `p < q`
 says that `q` lies strictly below `p`.
 */
module FileTree {
  type Bytes = seq<int>
  type Path = seq<string>

  /** `Special` is a link or any other entry that is neither a real directory nor a regular file. */
  datatype Node = Dir | File(content: Bytes) | Special

  type Tree = map<Path, Node>

  function Parent(p: Path): Path
    requires p != []
  {
    p[..|p| - 1]
  }

  /** Entries exist only inside real directories. */
  predicate WellFormed(t: Tree) {
    forall p :: p in t && p != [] ==> Parent(p) in t && t[Parent(p)].Dir?
  }

  ghost predicate Empty(t: Tree, p: Path) {
    forall q :: q in t ==> !(p < q)
  }

  lemma {:induction false} AncestorsAreDirectories(t: Tree, p: Path, q: Path)
    requires WellFormed(t) && q in t && p < q
    ensures p in t && t[p].Dir?
    decreases |q|
  {
    if p != Parent(q) {
      assert p < Parent(q);
      AncestorsAreDirectories(t, p, Parent(q));
    }
  }

  lemma RemovalKeepsWellFormed(t: Tree, p: Path)
    requires WellFormed(t) && Empty(t, p)
    ensures WellFormed(t - {p})
  {}

  /** `after` has, besides everything in `before`, directories for the first `length` prefixes of `p`. */
  ghost predicate Grown(before: Tree, after: Tree, p: Path, length: nat) {
    && (forall q :: q in after <==> q in before || (q <= p && |q| < length))
    && (forall q :: q in after ==> after[q] == if q in before then before[q] else Dir)
  }

  lemma GrownStep(before: Tree, middle: Tree, after: Tree, p: Path, length: nat)
    requires length <= |p| && Grown(before, middle, p, length)
    requires after == if p[..length] in middle then middle else middle[p[..length] := Dir]
    ensures Grown(before, after, p, length + 1)
  {
    assert forall r :: r <= p && |r| == length ==> r == p[..length];
  }

  lemma DirectoryKeepsWellFormed(t: Tree, q: Path)
    requires WellFormed(t) && q !in t && (q != [] ==> Parent(q) in t && t[Parent(q)].Dir?)
    ensures WellFormed(t[q := Dir])
  {}

  lemma GrownFromNothing(t: Tree, p: Path)
    ensures Grown(t, t, p, 0)
  {}

  /** Nothing that was there changes, and what is no directory was there. */
  lemma GrownKeeps(before: Tree, after: Tree, p: Path, length: nat)
    requires Grown(before, after, p, length)
    ensures forall q :: q in before ==> q in after && after[q] == before[q]
    ensures forall q :: q in after && !after[q].Dir? ==> q in before
  {}

  /** The disk under one root.  `quiet` says that nobody else changes it meanwhile, `reliable` that
      a removal the system allows does succeed.  `removed` records what AGX removed. */
  class Disk {
    var tree: Tree
    ghost var removed: seq<(Path, Node)>
    const quiet: bool
    const reliable: bool

    constructor (tree: Tree, quiet: bool, reliable: bool)
      ensures this.tree == tree && this.quiet == quiet && this.reliable == reliable && removed == []
    {
      this.tree, this.quiet, this.reliable := tree, quiet, reliable;
      removed := [];
    }

    /** Whatever other programs may have done. */
    method Disturb()
      requires WellFormed(tree)
      modifies this`tree
      ensures WellFormed(tree)
      ensures quiet ==> tree == old(tree)
    {
      var other: Tree := *;
      if !quiet && WellFormed(other) {
        tree := other;
      }
    }

    /** Removes a file, or a directory that is empty. */
    method Remove(p: Path) returns (ok: bool)
      requires WellFormed(tree)
      modifies this`tree, this`removed
      ensures WellFormed(tree)
      ensures ok ==>
        && p in old(tree) && Empty(old(tree), p) && tree == old(tree) - {p}
        && removed == old(removed) + [(p, old(tree)[p])]
      ensures !ok ==> tree == old(tree) && removed == old(removed)
      ensures reliable && p in old(tree) && Empty(old(tree), p) ==> ok
    {
      var works: bool := *;
      if p !in tree || (exists q :: q in tree && p < q) || !(works || reliable) {
        return false;
      }
      RemovalKeepsWellFormed(tree, p);
      removed := removed + [(p, tree[p])];
      tree := tree - {p};
      ok := true;
    }

    /** Creates a directory and its missing ancestors. */
    method MkdirAll(p: Path) returns (ok: bool)
      requires WellFormed(tree)
      modifies this`tree
      ensures WellFormed(tree)
      ensures ok ==> Grown(old(tree), tree, p, |p| + 1) && p in tree && tree[p].Dir?
      ensures forall q :: q in old(tree) ==> q in tree && tree[q] == old(tree)[q]
      ensures (forall q :: q in old(tree) && q <= p ==> old(tree)[q].Dir?) ==> ok
    {
      hide Grown, WellFormed;
      GrownFromNothing(tree, p);
      for length := 0 to |p| + 1
        invariant WellFormed(tree)
        invariant Grown(old(tree), tree, p, length)
        invariant length > 0 ==> p[..length - 1] in tree && tree[p[..length - 1]].Dir?
      {
        var q := p[..length];
        ghost var before := tree;
        if q in tree {
          if !tree[q].Dir? {
            GrownKeeps(old(tree), tree, p, length);
            return false;
          }
        } else {
          if length > 0 {
            assert Parent(q) == p[..length - 1];
          }
          DirectoryKeepsWellFormed(tree, q);
          tree := tree[q := Dir];
        }
        GrownStep(old(tree), before, tree, p, length);
      }
      assert p[..|p|] == p;
      GrownKeeps(old(tree), tree, p, |p| + 1);
      ok := true;
    }

    /** Creates a file that must not exist, in a directory that must. */
    method CreateFile(p: Path, content: Bytes) returns (ok: bool)
      requires WellFormed(tree) && p != []
      modifies this`tree
      ensures WellFormed(tree)
      ensures ok ==> p !in old(tree) && tree == old(tree)[p := File(content)]
      ensures !ok ==> tree == old(tree)
      ensures p !in old(tree) && Parent(p) in old(tree) && old(tree)[Parent(p)].Dir? ==> ok
    {
      if p in tree || Parent(p) !in tree || !tree[Parent(p)].Dir? {
        return false;
      }
      tree := tree[p := File(content)];
      ok := true;
    }
  }
}
