/**
 What the chains mean: they follow the links, they mirror each other, and on data without cycles every
 revision of a chain has the same one.
 */
module SupersedesChains {
  import opened Wrappers
  import opened Supersedes

  // ---------------------------------------------------------------- one walk

  ghost predicate NoRepeats(ids: seq<Id>) {
    forall i, j :: 0 <= i < j < |ids| ==> ids[i] != ids[j]
  }

  /** Where the walk stands before its `i`th step. */
  function Before(at: Id, ids: seq<Id>, i: nat): Id
    requires i <= |ids|
  {
    if i == 0 then at else ids[i - 1]
  }

  predicate Link(next: map<Id, Id>, at: Id, ids: seq<Id>, i: nat) {
    i < |ids| && Before(at, ids, i) in next && next[Before(at, ids, i)] == ids[i]
  }

  ghost predicate Linked(next: map<Id, Id>, at: Id, ids: seq<Id>) {
    forall i :: 0 <= i < |ids| ==> Link(next, at, ids, i)
  }

  /** A walk takes `next` at every step, never repeats an id and never leaves the known ones. */
  lemma {:induction false} WalkFollows(next: map<Id, Id>, known: set<Id>, visited: set<Id>, at: Id)
    ensures var ids := Walk(next, known, visited, at).ids;
            && NoRepeats(ids)
            && (forall i :: 0 <= i < |ids| ==> ids[i] in known && ids[i] !in visited)
            && Linked(next, at, ids)
    decreases known - visited
  {
    if at in next && next[at] !in visited && next[at] in known {
      var n := next[at];
      var rest := Walk(next, known, visited + {n}, n).ids;
      WalkFollows(next, known, visited + {n}, n);
      var ids := [n] + rest;
      assert forall i :: 0 < i < |ids| ==> ids[i] == rest[i - 1];
      forall i | 0 <= i < |ids| ensures Link(next, at, ids, i) {
        if i > 0 { assert Link(next, n, rest, i - 1); }
      }
    }
  }

  /** A walk ends only where there is no next id, where it would come back, or where the next id is
      missing; and it says which id is missing. */
  lemma {:induction false} WalkEnds(next: map<Id, Id>, known: set<Id>, visited: set<Id>, at: Id)
    ensures var trail := Walk(next, known, visited, at);
            var last := Before(at, trail.ids, |trail.ids|);
            && (trail.missing.None? ==> last !in next || next[last] in visited || next[last] in trail.ids)
            && (trail.missing.Some? ==> last in next && next[last] == trail.missing.value && next[last] !in known)
    decreases known - visited
  {
    if at in next && next[at] !in visited && next[at] in known {
      WalkEnds(next, known, visited + {next[at]}, next[at]);
    }
  }

  // ---------------------------------------------------------------- steps

  /** `k` steps from `x`, if there are that many. */
  function Steps(next: map<Id, Id>, x: Id, k: nat): Option<Id> {
    if k == 0 then Some(x)
    else
      var before := Steps(next, x, k - 1);
      if before.Some? && before.value in next then Some(next[before.value]) else None
  }

  lemma {:induction false} StepsAdd(next: map<Id, Id>, x: Id, y: Id, j: nat, k: nat)
    requires Steps(next, x, j) == Some(y)
    ensures Steps(next, x, j + k) == Steps(next, y, k)
    decreases k
  {
    if k > 0 {
      StepsAdd(next, x, y, j, k - 1);
    }
  }

  lemma {:induction false} WalkedInSteps(next: map<Id, Id>, known: set<Id>, x: Id, i: nat)
    requires i < |Walk(next, known, {x}, x).ids|
    ensures Steps(next, x, i + 1) == Some(Walk(next, known, {x}, x).ids[i])
    decreases i
  {
    hide Walk, NoRepeats;
    WalkFollows(next, known, {x}, x);
    var ids := Walk(next, known, {x}, x).ids;
    assert Link(next, x, ids, i);
    if i > 0 {
      WalkedInSteps(next, known, x, i - 1);
    }
  }

  /** Only known ids lead on. */
  ghost predicate Grounded(next: map<Id, Id>, known: set<Id>) {
    forall id :: id in next ==> next[id] in known || next[id] !in next
  }

  /** `prev` takes back what `next` does. */
  ghost predicate TakesBack(next: map<Id, Id>, prev: map<Id, Id>) {
    forall id :: id in next ==> next[id] in prev && prev[next[id]] == id
  }

  /** A walk visits every known id that any number of steps leads to. */
  lemma {:induction false} StepsAreWalked(next: map<Id, Id>, known: set<Id>, x: Id, y: Id, k: nat)
    requires Steps(next, x, k) == Some(y) && y in known && y != x
    requires Grounded(next, known)
    ensures y in Walk(next, known, {x}, x).ids
    decreases k
  {
    hide Walk, NoRepeats;
    var trail := Walk(next, known, {x}, x);
    var z := Steps(next, x, k - 1).value;
    WalkFollows(next, known, {x}, x);
    WalkEnds(next, known, {x}, x);
    if z == x {
      assert trail.ids != [] ==> Link(next, x, trail.ids, 0);
    } else {
      assert z in known by {
        assert k > 1 ==> Steps(next, x, k - 2).Some?;
      }
      StepsAreWalked(next, known, x, z, k - 1);
      var i :| 0 <= i < |trail.ids| && trail.ids[i] == z;
      assert i + 1 < |trail.ids| ==> Link(next, x, trail.ids, i + 1);
    }
  }

  // ---------------------------------------------------------------- the two directions

  lemma {:induction false} StepsReverse(next: map<Id, Id>, prev: map<Id, Id>, x: Id, y: Id, k: nat)
    requires TakesBack(next, prev)
    requires Steps(next, x, k) == Some(y)
    ensures Steps(prev, y, k) == Some(x)
    decreases k
  {
    if k > 0 {
      var z := Steps(next, x, k - 1).value;
      assert z in next && next[z] == y;
      StepsReverse(next, prev, x, z, k - 1);
      assert Steps(prev, y, 1) == Some(z) by { assert Steps(prev, y, 0) == Some(y); }
      StepsAdd(prev, y, z, 1, k - 1);
    }
  }

  lemma Inverses(revisions: seq<Revision>)
    requires Healthy(revisions)
    ensures var back := PredecessorOf(ById(revisions)); var on := SuccessorOf(revisions);
            var known := ById(revisions).Keys;
            && TakesBack(back, on) && TakesBack(on, back) && Grounded(back, known) && Grounded(on, known)
            && (forall id :: id in back ==> id in known) && (forall id :: id in on ==> on[id] in known)
  {
    var back, on := PredecessorOf(ById(revisions)), SuccessorOf(revisions);
    ValuesAreKnown(revisions);
    forall id | id in back ensures back[id] in on && on[back[id]] == id { Inverse(revisions, back[id], id); }
    forall id | id in on ensures on[id] in back && back[on[id]] == id { Inverse(revisions, id, on[id]); }
  }

  /** What one walk reaches, the walk the other way reaches from there. */
  lemma WalkedBack(next: map<Id, Id>, prev: map<Id, Id>, known: set<Id>, x: Id, y: Id)
    requires TakesBack(next, prev) && Grounded(prev, known)
    requires y in Walk(next, known, {x}, x).ids && x in known
    ensures x in Walk(prev, known, {y}, y).ids
  {
    hide TakesBack, Grounded, Walk, NoRepeats;
    var ids := Walk(next, known, {x}, x).ids;
    var i :| 0 <= i < |ids| && ids[i] == y;
    WalkFollows(next, known, {x}, x);
    WalkedInSteps(next, known, x, i);
    StepsReverse(next, prev, x, y, i + 1);
    StepsAreWalked(prev, known, y, x, i + 1);
  }

  predicate Known(revisions: seq<Revision>, id: Id) {
    id in ById(revisions)
  }

  /** One revision is a predecessor of another exactly if the other is its successor and it exists: a
      missing revision has successors, but is nobody's predecessor. */
  lemma DirectionsMirror(revisions: seq<Revision>, x: Id, y: Id)
    requires Healthy(revisions)
    ensures x in Backward(revisions, y).ids <==> y in Forward(revisions, x).ids && Known(revisions, x)
  {
    var back, on, known := PredecessorOf(ById(revisions)), SuccessorOf(revisions), ById(revisions).Keys;
    Inverses(revisions);
    if x in Backward(revisions, y).ids {
      WalkFollows(back, known, {y}, y);
      assert Link(back, y, Backward(revisions, y).ids, 0);
      WalkedBack(back, on, known, y, x);
    }
    if y in Forward(revisions, x).ids && Known(revisions, x) {
      WalkedBack(on, back, known, x, y);
    }
  }

  lemma {:induction false} ReverseAt(ids: seq<Id>)
    ensures |Reverse(ids)| == |ids|
    ensures forall i :: 0 <= i < |ids| ==> Reverse(ids)[i] == ids[|ids| - 1 - i]
    decreases |ids|
  {
    if ids != [] {
      var rest := Reverse(ids[1..]);
      ReverseAt(ids[1..]);
      forall i | 0 <= i < |ids| ensures Reverse(ids)[i] == ids[|ids| - 1 - i] {
        assert i < |rest| ==> rest[i] == ids[1..][|ids| - 2 - i];
      }
    }
  }

  lemma {:induction false} ReverseIsAll(ids: seq<Id>)
    ensures multiset(Reverse(ids)) == multiset(ids) && |Reverse(ids)| == |ids|
    ensures forall i :: 0 <= i < |ids| ==> Reverse(ids)[i] == ids[|ids| - 1 - i]
    decreases |ids|
  {
    ReverseAt(ids);
    if ids != [] {
      ReverseIsAll(ids[1..]);
      assert multiset(ids) == multiset([ids[0]] + ids[1..]) by { assert ids == [ids[0]] + ids[1..]; }
    }
  }

  lemma ReverseKeeps(ids: seq<Id>, id: Id)
    ensures id in Reverse(ids) <==> id in ids
  {
    ReverseIsAll(ids);
    assert id in ids <==> id in multiset(ids);
    assert id in Reverse(ids) <==> id in multiset(Reverse(ids));
  }

  /** The same, of the chains the program returns. */
  lemma ChainsMirror(revisions: seq<Revision>, x: Id, y: Id)
    requires Healthy(revisions)
    ensures x in ChainOf(revisions, y).predecessors <==> y in ChainOf(revisions, x).successors && Known(revisions, x)
  {
    DirectionsMirror(revisions, x, y);
    ReverseKeeps(Backward(revisions, y).ids, x);
  }

  /** The part about known ids cannot be left out: a revision that supersedes one that is not there. */
  lemma UnknownHasNoMirror(a: Id, b: Id)
    requires a != b
    ensures var revisions := [Revision(b, Some(a))];
            && Healthy(revisions)
            && ChainOf(revisions, a).successors == [b] && ChainOf(revisions, b).predecessors == []
  {
    var revisions := [Revision(b, Some(a))];
    var none := revisions[..|revisions| - 1];
    assert none == [] && ById(none) == map[] && SuccessorOf(none) == map[];
    assert ById(revisions) == map[b := revisions[0]] && SuccessorOf(revisions) == map[a := b];
    var known, next, back := ById(revisions).Keys, SuccessorOf(revisions), PredecessorOf(ById(revisions));
    assert known == {b} && next == map[a := b] && back == map[b := a];
    assert Walk(next, known, {a, b}, b) == Trail([], None);
    assert Walk(next, known, {a}, a) == Trail([b], None) by { assert {a} + {b} == {a, b}; }
    assert Walk(back, known, {b}, b) == Trail([], Some(a));
  }

  // ---------------------------------------------------------------- whole chains

  /** Oldest to newest. */
  function FullChain(revisions: seq<Revision>, id: Id): seq<Id> {
    ChainOf(revisions, id).predecessors + [id] + ChainOf(revisions, id).successors
  }

  /** Each revision of a chain supersedes the one before it. */
  lemma ChainIsLinked(revisions: seq<Revision>, x: Id, i: nat)
    requires i + 1 < |FullChain(revisions, x)|
    ensures Revision(FullChain(revisions, x)[i + 1], Some(FullChain(revisions, x)[i])) in revisions
  {
    hide Walk, NoRepeats, ById, SuccessorOf, Reverse;
    var back, on, known := PredecessorOf(ById(revisions)), SuccessorOf(revisions), ById(revisions).Keys;
    var b, f := Backward(revisions, x).ids, Forward(revisions, x).ids;
    IndexedRevisions(revisions);
    ReverseIsAll(b);
    WalkFollows(back, known, {x}, x);
    WalkFollows(on, known, {x}, x);
    if i < |b| {
      var j := |b| - 1 - i;
      assert Link(back, x, b, j);
      assert ById(revisions)[Before(x, b, j)] in revisions;
    } else {
      var j := i - |b|;
      assert Link(on, x, f, j);
    }
  }

  /** Having visited an id that the walk would not reach makes no difference to it. */
  lemma {:induction false} UnreachedIsIrrelevant(next: map<Id, Id>, known: set<Id>, visited: set<Id>, extra: Id, at: Id)
    requires extra in known && extra !in Walk(next, known, visited, at).ids
    ensures Walk(next, known, visited + {extra}, at) == Walk(next, known, visited, at)
    decreases known - visited
  {
    if at in next && next[at] !in visited && next[at] in known {
      var n := next[at];
      var trail := Walk(next, known, visited, at);
      assert trail.ids[0] == n && trail.ids[1..] == Walk(next, known, visited + {n}, n).ids;
      assert extra != n;
      assert forall id :: id in trail.ids[1..] ==> id in trail.ids;
      UnreachedIsIrrelevant(next, known, visited + {n}, extra, n);
      assert visited + {extra} + {n} == visited + {n} + {extra};
    }
  }

  ghost predicate Disjoint(revisions: seq<Revision>, x: Id) {
    forall y :: y in Backward(revisions, x).ids ==> y !in Forward(revisions, x).ids
  }

  /** A walk's first step, and the walk from there if it does not come back. */
  lemma FirstStep(next: map<Id, Id>, known: set<Id>, x: Id, y: Id)
    requires x in next && next[x] == y && y != x && x in known && y in known
    requires x !in Walk(next, known, {y}, y).ids
    ensures Walk(next, known, {x}, x).ids == [y] + Walk(next, known, {y}, y).ids
  {
    UnreachedIsIrrelevant(next, known, {y}, x, y);
    assert {x} + {y} == {y} + {x};
  }

  lemma HeadIsWalked(next: map<Id, Id>, known: set<Id>, x: Id, y: Id)
    requires x in next && next[x] == y && y != x && y in known
    ensures y in Walk(next, known, {x}, x).ids
  {}

  /** The walks of neighbours, unless the chain comes back to them. */
  lemma NeighbourWalks(revisions: seq<Revision>, x: Id, y: Id)
    requires Healthy(revisions) && Known(revisions, x) && Known(revisions, y) && x != y
    requires x in PredecessorOf(ById(revisions)) && PredecessorOf(ById(revisions))[x] == y
    requires Disjoint(revisions, x) || Disjoint(revisions, y)
    ensures Backward(revisions, x).ids == [y] + Backward(revisions, y).ids
    ensures Forward(revisions, y).ids == [x] + Forward(revisions, x).ids
  {
    hide Walk, ById, SuccessorOf;
    var back, on, known := PredecessorOf(ById(revisions)), SuccessorOf(revisions), ById(revisions).Keys;
    Inverse(revisions, y, x);
    HeadIsWalked(back, known, x, y);
    HeadIsWalked(on, known, y, x);
    DirectionsMirror(revisions, x, y);
    DirectionsMirror(revisions, y, x);
    FirstStep(back, known, x, y);
    FirstStep(on, known, y, x);
  }

  /** Neighbours have the same chain, unless it comes back to them. */
  lemma NeighboursAgree(revisions: seq<Revision>, x: Id, y: Id)
    requires Healthy(revisions) && Known(revisions, x) && Known(revisions, y) && x != y
    requires x in PredecessorOf(ById(revisions)) && PredecessorOf(ById(revisions))[x] == y
    requires Disjoint(revisions, x) || Disjoint(revisions, y)
    ensures Backward(revisions, x).ids == [y] + Backward(revisions, y).ids
    ensures Forward(revisions, y).ids == [x] + Forward(revisions, x).ids
    ensures Disjoint(revisions, x) && Disjoint(revisions, y)
    ensures FullChain(revisions, x) == FullChain(revisions, y)
  {
    hide Walk, ById, SuccessorOf, Backward, Forward, Healthy;
    NeighbourWalks(revisions, x, y);
    var backX, onY := Backward(revisions, x).ids, Forward(revisions, y).ids;
    WalksAreSimple(revisions, x);
    WalksAreSimple(revisions, y);
    assert backX[0] == y && forall id :: id in backX <==> id == y || id in Backward(revisions, y).ids;
    assert onY[0] == x && forall id :: id in onY <==> id == x || id in Forward(revisions, x).ids;
    assert backX[1..] == Backward(revisions, y).ids;
  }

  lemma WalksAreSimple(revisions: seq<Revision>, x: Id)
    ensures NoRepeats(Backward(revisions, x).ids) && x !in Backward(revisions, x).ids
    ensures NoRepeats(Forward(revisions, x).ids) && x !in Forward(revisions, x).ids
  {
    WalkFollows(PredecessorOf(ById(revisions)), ById(revisions).Keys, {x}, x);
    WalkFollows(SuccessorOf(revisions), ById(revisions).Keys, {x}, x);
  }

  /** Every predecessor of `x`, and every successor, has the chain of `x`. */
  lemma {:induction false} PredecessorsAgree(revisions: seq<Revision>, x: Id, i: nat)
    requires Healthy(revisions) && Known(revisions, x) && Disjoint(revisions, x) && i < |Backward(revisions, x).ids|
    ensures FullChain(revisions, Backward(revisions, x).ids[i]) == FullChain(revisions, x)
    decreases i
  {
    hide FullChain, Disjoint;
    var back, known := PredecessorOf(ById(revisions)), ById(revisions).Keys;
    var ids := Backward(revisions, x).ids;
    WalkFollows(back, known, {x}, x);
    assert Link(back, x, ids, 0);
    NeighboursAgree(revisions, x, ids[0]);
    if i > 0 {
      PredecessorsAgree(revisions, ids[0], i - 1);
    }
  }

  lemma {:induction false} SuccessorsAgree(revisions: seq<Revision>, x: Id, i: nat)
    requires Healthy(revisions) && Known(revisions, x) && Disjoint(revisions, x) && i < |Forward(revisions, x).ids|
    ensures FullChain(revisions, Forward(revisions, x).ids[i]) == FullChain(revisions, x)
    decreases i
  {
    hide FullChain, Disjoint;
    var on, known := SuccessorOf(revisions), ById(revisions).Keys;
    var ids := Forward(revisions, x).ids;
    WalkFollows(on, known, {x}, x);
    assert Link(on, x, ids, 0);
    Inverse(revisions, x, ids[0]);
    NeighboursAgree(revisions, ids[0], x);
    if i > 0 {
      SuccessorsAgree(revisions, ids[0], i - 1);
    }
  }

  /** How often an id is in the chain of another, and of its own. */
  lemma Occurrences(revisions: seq<Revision>, x: Id)
    ensures multiset(FullChain(revisions, x))
         == multiset(Backward(revisions, x).ids) + multiset{x} + multiset(Forward(revisions, x).ids)
    ensures multiset(FullChain(revisions, x))[x] == 1
  {
    ReverseIsAll(Backward(revisions, x).ids);
    WalkFollows(PredecessorOf(ById(revisions)), ById(revisions).Keys, {x}, x);
    WalkFollows(SuccessorOf(revisions), ById(revisions).Keys, {x}, x);
    assert x !in multiset(Backward(revisions, x).ids) && x !in multiset(Forward(revisions, x).ids);
  }

  /** All the revisions of a chain have the same chain, exactly if no revision is on both sides of it. */
  lemma SameChainExactly(revisions: seq<Revision>, x: Id)
    requires Healthy(revisions) && Known(revisions, x)
    ensures Disjoint(revisions, x) <==>
      forall y :: y in FullChain(revisions, x) ==> FullChain(revisions, y) == FullChain(revisions, x)
  {
    hide FullChain;
    var back, on := Backward(revisions, x).ids, Forward(revisions, x).ids;
    var chain := FullChain(revisions, x);
    Occurrences(revisions, x);
    assert forall y :: y in chain <==> y in multiset(chain);
    if Disjoint(revisions, x) {
      forall y | y in chain ensures FullChain(revisions, y) == chain {
        if y in multiset(back) {
          var i :| 0 <= i < |back| && back[i] == y;
          PredecessorsAgree(revisions, x, i);
        } else if y in multiset(on) {
          var i :| 0 <= i < |on| && on[i] == y;
          SuccessorsAgree(revisions, x, i);
        }
      }
    } else {
      var y :| y in back && y in on;
      Occurrences(revisions, y);
      assert multiset(chain)[y] >= multiset(back)[y] + multiset(on)[y] >= 2;
      assert y in chain && FullChain(revisions, y) != chain;
    }
  }

  ghost predicate Acyclic(revisions: seq<Revision>) {
    forall id: Id, k: nat :: k > 0 ==> Steps(PredecessorOf(ById(revisions)), id, k) != Some(id)
  }

  /** Only on a cycle is anything on both sides. */
  lemma BothSidesIsACycle(revisions: seq<Revision>, x: Id, y: Id) returns (k: nat)
    requires Healthy(revisions) && y in Backward(revisions, x).ids && y in Forward(revisions, x).ids
    ensures k > 0 && Steps(PredecessorOf(ById(revisions)), x, k) == Some(x)
  {
    hide Walk;
    var back, on, known := PredecessorOf(ById(revisions)), SuccessorOf(revisions), ById(revisions).Keys;
    Inverses(revisions);
    var i :| 0 <= i < |Backward(revisions, x).ids| && Backward(revisions, x).ids[i] == y;
    var j :| 0 <= j < |Forward(revisions, x).ids| && Forward(revisions, x).ids[j] == y;
    WalkedInSteps(back, known, x, i);
    WalkedInSteps(on, known, x, j);
    StepsReverse(on, back, x, y, j + 1);
    StepsAdd(back, x, y, i + 1, j + 1);
    k := i + 1 + (j + 1);
  }

  lemma AcyclicAgree(revisions: seq<Revision>, x: Id, y: Id)
    requires Healthy(revisions) && Acyclic(revisions) && Known(revisions, x)
    requires y in FullChain(revisions, x)
    ensures FullChain(revisions, y) == FullChain(revisions, x)
  {
    hide FullChain;
    forall z | z in Backward(revisions, x).ids ensures z !in Forward(revisions, x).ids {
      if z in Forward(revisions, x).ids {
        var k := BothSidesIsACycle(revisions, x, z);
        assert false;
      }
    }
    SameChainExactly(revisions, x);
  }

  /** The chain ends where it must: at a revision that supersedes nothing, at one whose predecessor is
      missing and reported, or at a cycle; and a missing successor is never reported. */
  lemma ChainEnds(revisions: seq<Revision>, x: Id)
    requires Known(revisions, x)
    ensures var chain := ChainOf(revisions, x);
            var oldest := if chain.predecessors == [] then x else chain.predecessors[0];
            && Known(revisions, oldest) && chain.danglingSuccessor.None?
            && (chain.danglingPredecessor.Some? ==>
                  && ById(revisions)[oldest].supersedes == chain.danglingPredecessor
                  && !Known(revisions, chain.danglingPredecessor.value))
            && (chain.danglingPredecessor.None? && ById(revisions)[oldest].supersedes.Some? ==>
                  ById(revisions)[oldest].supersedes.value in [x] + chain.predecessors)
  {
    hide Walk, NoRepeats;
    var ids := Backward(revisions, x).ids;
    WalkFollows(PredecessorOf(ById(revisions)), ById(revisions).Keys, {x}, x);
    WalkEnds(PredecessorOf(ById(revisions)), ById(revisions).Keys, {x}, x);
    ReverseAt(ids);
    var last := Before(x, ids, |ids|);
    if last in PredecessorOf(ById(revisions)) {
      ReverseKeeps(ids, PredecessorOf(ById(revisions))[last]);
    }
  }
}
