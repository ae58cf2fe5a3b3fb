/**
 The chain of revisions around one revision: what it supersedes, and what supersedes it, on data that
 may be cyclic or point at revisions that are not there.
 */
module Supersedes {
  import opened Wrappers

  type Id = string

  datatype Revision = Revision(id: Id, supersedes: Option<Id>)

  datatype Chain = Chain(
    revisionId: Id, predecessors: seq<Id>, successors: seq<Id>,
    danglingPredecessor: Option<Id>, danglingSuccessor: Option<Id>)

  // ---------------------------------------------------------------- the two indexes

  /** Every revision under its id; a later one replaces an earlier one. */
  function ById(revisions: seq<Revision>): map<Id, Revision> {
    if revisions == [] then map[]
    else
      var last := revisions[|revisions| - 1];
      ById(revisions[..|revisions| - 1])[last.id := last]
  }

  /** What each id is superseded by; a later revision replaces an earlier one. */
  function SuccessorOf(revisions: seq<Revision>): map<Id, Id> {
    if revisions == [] then map[]
    else
      var last := revisions[|revisions| - 1];
      var rest := SuccessorOf(revisions[..|revisions| - 1]);
      if last.supersedes.Some? then rest[last.supersedes.value := last.id] else rest
  }

  /** What each id supersedes. */
  function PredecessorOf(byId: map<Id, Revision>): map<Id, Id> {
    map id | id in byId && byId[id].supersedes.Some? :: byId[id].supersedes.value
  }

  // ---------------------------------------------------------------- walking

  datatype Trail = Trail(ids: seq<Id>, missing: Option<Id>)

  /** Follows `next` from `at`, never to a visited id and never beyond a missing one. */
  function Walk(next: map<Id, Id>, known: set<Id>, visited: set<Id>, at: Id): Trail
    decreases known - visited
  {
    if at !in next || next[at] in visited then Trail([], None)
    else
      var n := next[at];
      if n !in known then Trail([], Some(n))
      else
        var rest := Walk(next, known, visited + {n}, n);
        Trail([n] + rest.ids, rest.missing)
  }

  function Reverse(ids: seq<Id>): seq<Id> {
    if ids == [] then [] else Reverse(ids[1..]) + [ids[0]]
  }

  function Backward(revisions: seq<Revision>, id: Id): Trail {
    Walk(PredecessorOf(ById(revisions)), ById(revisions).Keys, {id}, id)
  }

  function Forward(revisions: seq<Revision>, id: Id): Trail {
    Walk(SuccessorOf(revisions), ById(revisions).Keys, {id}, id)
  }

  function ChainOf(revisions: seq<Revision>, id: Id): Chain {
    Chain(id, Reverse(Backward(revisions, id).ids), Forward(revisions, id).ids, Backward(revisions, id).missing, None)
  }

  method BuildSupersedesChain(revisions: seq<Revision>, revisionId: Id) returns (chain: Chain)
    ensures chain == ChainOf(revisions, revisionId)
  {
    var byId, successorOf := BuildIndexes(revisions);
    ValuesAreKnown(revisions);
    var predecessors, danglingPredecessor := WalkBack(byId, revisionId);
    var successors, danglingSuccessor := WalkOn(byId, successorOf, revisionId);
    NeverMissing(successorOf, byId.Keys, {revisionId}, revisionId);
    chain := Chain(revisionId, predecessors, successors, danglingPredecessor, danglingSuccessor);
  }

  method BuildIndexes(revisions: seq<Revision>) returns (byId: map<Id, Revision>, successorOf: map<Id, Id>)
    ensures byId == ById(revisions) && successorOf == SuccessorOf(revisions)
  {
    byId, successorOf := map[], map[];
    for i := 0 to |revisions|
      invariant byId == ById(revisions[..i]) && successorOf == SuccessorOf(revisions[..i])
    {
      var revision := revisions[i];
      assert revisions[..i + 1][..i] == revisions[..i];
      byId := byId[revision.id := revision];
      if revision.supersedes.Some? {
        successorOf := successorOf[revision.supersedes.value := revision.id];
      }
    }
    assert revisions[..|revisions|] == revisions;
  }

  method WalkBack(byId: map<Id, Revision>, revisionId: Id) returns (predecessors: seq<Id>, dangling: Option<Id>)
    ensures var trail := Walk(PredecessorOf(byId), byId.Keys, {revisionId}, revisionId);
            predecessors == Reverse(trail.ids) && dangling == trail.missing
  {
    ghost var next := PredecessorOf(byId);
    ghost var trail := Walk(next, byId.Keys, {revisionId}, revisionId);
    predecessors, dangling := [], None;
    var visited := {revisionId};
    var currentId := revisionId;
    while currentId in byId && byId[currentId].supersedes.Some?
      invariant dangling.None?
      invariant Reverse(Walk(next, byId.Keys, visited, currentId).ids) + predecessors == Reverse(trail.ids)
      invariant Walk(next, byId.Keys, visited, currentId).missing == trail.missing
      decreases byId.Keys - visited
    {
      var nextId := byId[currentId].supersedes.value;
      if nextId in visited {
        break;
      }
      if nextId !in byId {
        dangling := Some(nextId);
        break;
      }
      assert forall ids: seq<Id> :: ([nextId] + ids)[1..] == ids;
      predecessors := [nextId] + predecessors;
      visited := visited + {nextId};
      currentId := nextId;
    }
  }

  method WalkOn(byId: map<Id, Revision>, successorOf: map<Id, Id>, revisionId: Id)
    returns (successors: seq<Id>, dangling: Option<Id>)
    ensures Trail(successors, dangling) == Walk(successorOf, byId.Keys, {revisionId}, revisionId)
  {
    ghost var trail := Walk(successorOf, byId.Keys, {revisionId}, revisionId);
    successors, dangling := [], None;
    var visited := {revisionId};
    var currentId := revisionId;
    while currentId in successorOf
      invariant dangling.None?
      invariant successors + Walk(successorOf, byId.Keys, visited, currentId).ids == trail.ids
      invariant Walk(successorOf, byId.Keys, visited, currentId).missing == trail.missing
      decreases byId.Keys - visited
    {
      var nextId := successorOf[currentId];
      if nextId in visited {
        break;
      }
      if nextId !in byId {
        dangling := Some(nextId);
        break;
      }
      successors := successors + [nextId];
      visited := visited + {nextId};
      currentId := nextId;
    }
  }

  // ---------------------------------------------------------------- what is in the indexes

  lemma {:induction false} IndexedRevisions(revisions: seq<Revision>)
    ensures forall id :: id in ById(revisions) ==> ById(revisions)[id] in revisions && ById(revisions)[id].id == id
    ensures forall r :: r in revisions ==> r.id in ById(revisions)
    ensures forall id :: id in SuccessorOf(revisions) ==> Revision(SuccessorOf(revisions)[id], Some(id)) in revisions
    ensures forall r :: r in revisions && r.supersedes.Some? ==> r.supersedes.value in SuccessorOf(revisions)
    decreases |revisions|
  {
    if revisions != [] {
      var rest := revisions[..|revisions| - 1];
      IndexedRevisions(rest);
      assert revisions == rest + [revisions[|revisions| - 1]];
    }
  }

  lemma ValuesAreKnown(revisions: seq<Revision>)
    ensures forall id :: id in SuccessorOf(revisions) ==> SuccessorOf(revisions)[id] in ById(revisions)
  {}

  /** A successor is always found: nothing is ever missing on the way forward. */
  lemma {:induction false} NeverMissing(next: map<Id, Id>, known: set<Id>, visited: set<Id>, at: Id)
    requires forall id :: id in next ==> next[id] in known
    ensures Walk(next, known, visited, at).missing.None?
    decreases known - visited
  {
    if at in next && next[at] !in visited {
      NeverMissing(next, known, visited + {next[at]}, next[at]);
    }
  }

  /** Ids are unique, and so is the revision that supersedes a given one. */
  predicate Healthy(revisions: seq<Revision>) {
    forall i, j :: 0 <= i < j < |revisions| ==>
      && revisions[i].id != revisions[j].id
      && (revisions[i].supersedes.Some? ==> revisions[i].supersedes != revisions[j].supersedes)
  }

  /** On healthy data the two indexes are each other's inverse. */
  lemma Inverse(revisions: seq<Revision>, x: Id, y: Id)
    requires Healthy(revisions)
    ensures x in SuccessorOf(revisions) && SuccessorOf(revisions)[x] == y
       <==> y in PredecessorOf(ById(revisions)) && PredecessorOf(ById(revisions))[y] == x
  {
    IndexedRevisions(revisions);
    var r := Revision(y, Some(x));
    if x in SuccessorOf(revisions) && SuccessorOf(revisions)[x] == y {
      assert r in revisions && y in ById(revisions);
      var i :| 0 <= i < |revisions| && revisions[i] == r;
      var j :| 0 <= j < |revisions| && revisions[j] == ById(revisions)[y];
    }
    if y in PredecessorOf(ById(revisions)) && PredecessorOf(ById(revisions))[y] == x {
      assert ById(revisions)[y] == r;
      var s := Revision(SuccessorOf(revisions)[x], Some(x));
      var i :| 0 <= i < |revisions| && revisions[i] == r;
      var j :| 0 <= j < |revisions| && revisions[j] == s;
    }
  }
}
