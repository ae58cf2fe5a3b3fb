/**
 The evaluator itself: it sorts, indexes, and then visits maps whose iteration order is arbitrary.
 Each pass is proved to compute what `EvidenceRules` says of the set of observations, so no choice
 of order can be seen in the receipt.
 */
module EvidenceEvaluator {
  import opened Wrappers
  import opened EvidenceTypes
  import opened EvidenceRules
  import opened EvidenceTheorems
  import EvidenceOrder

  type Key = (Source, Kind, Ref)

  /** The part of a receipt that evaluation decides; the header is copied from the input. */
  datatype EvidenceReceipt = EvidenceReceipt(
    phase: Phase, satisfied: seq<Requirement>, missing: seq<Requirement>,
    diagnostics: seq<Diagnostic>, evidence: seq<Observation>)

  // ---------------------------------------------------------------- diagnostics

  ghost function AsSet(values: seq<Diagnostic>): set<Diagnostic> {
    set d | d in values
  }

  /** In the order of their codes, one of each. */
  ghost predicate Sorted(values: seq<Diagnostic>) {
    forall i, j :: 0 <= i < j < |values| ==> Rank(values[i].code) < Rank(values[j].code)
  }

  ghost predicate Known(values: seq<Diagnostic>) {
    forall d :: d in values ==> !d.code.Foreign?
  }

  ghost predicate DistinctCodes(values: seq<Diagnostic>) {
    forall i, j :: 0 <= i < j < |values| ==> values[i].code != values[j].code
  }

  /** A sorted list is determined by what is in it. */
  lemma {:induction false} SortedUnique(a: seq<Diagnostic>, b: seq<Diagnostic>)
    requires Sorted(a) && Sorted(b) && AsSet(a) == AsSet(b)
    ensures a == b
  {
    assert a != [] ==> a[0] in AsSet(a);
    assert b != [] ==> b[0] in AsSet(b);
    if a != [] && b != [] {
      assert a[0] in AsSet(b) && b[0] in AsSet(a);
      var i :| 0 <= i < |b| && b[i] == a[0];
      var j :| 0 <= j < |a| && a[j] == b[0];
      assert a[0] == b[0];
      forall d ensures d in a[1..] <==> d in b[1..] {
        assert d in a <==> d in AsSet(a);
        assert d in b <==> d in AsSet(b);
      }
      assert AsSet(a[1..]) == AsSet(b[1..]);
      SortedUnique(a[1..], b[1..]);
    }
  }

  lemma FirstsOfDistinct(values: seq<Diagnostic>)
    requires DistinctCodes(values)
    ensures Firsts(values) == AsSet(values)
  {}

  method AddDiagnostic(values: seq<Diagnostic>, d: Diagnostic) returns (r: seq<Diagnostic>)
    requires DistinctCodes(values)
    ensures DistinctCodes(r)
    ensures AsSet(r) == Merge(AsSet(values), {d})
  {
    for i := 0 to |values|
      invariant forall j :: 0 <= j < i ==> values[j].code != d.code
    {
      if values[i].code == d.code {
        assert values[i] in AsSet(values);
        return values;
      }
    }
    r := values + [d];
  }

  lemma InsertionSet(sorted: seq<Diagnostic>, i: nat, d: Diagnostic)
    requires i <= |sorted|
    ensures AsSet(sorted[..i] + [d] + sorted[i..]) == AsSet(sorted) + {d}
  {
    var after := sorted[..i] + [d] + sorted[i..];
    assert sorted == sorted[..i] + sorted[i..];
    forall e ensures e in AsSet(after) <==> e in AsSet(sorted) + {d} {
      assert e in after <==> e in sorted[..i] || e == d || e in sorted[i..];
      assert e in sorted <==> e in sorted[..i] || e in sorted[i..];
    }
  }

  lemma InsertionSorted(sorted: seq<Diagnostic>, i: nat, d: Diagnostic)
    requires i <= |sorted| && Sorted(sorted)
    requires i > 0 ==> Rank(sorted[i - 1].code) < Rank(d.code)
    requires i < |sorted| ==> Rank(d.code) < Rank(sorted[i].code)
    ensures Sorted(sorted[..i] + [d] + sorted[i..])
  {
    hide Rank;
    var after := sorted[..i] + [d] + sorted[i..];
    forall j, k | 0 <= j < k < |after| ensures Rank(after[j].code) < Rank(after[k].code) {
      var before := if k < i then k else k - 1;
      assert k != i ==> after[k] == sorted[before];
      assert j < i ==> after[j] == sorted[j];
      assert j > i ==> after[j] == sorted[j - 1];
    }
  }

  method InsertByRank(sorted: seq<Diagnostic>, d: Diagnostic) returns (r: seq<Diagnostic>)
    requires Sorted(sorted)
    requires forall e :: e in sorted ==> Rank(e.code) != Rank(d.code)
    ensures Sorted(r)
    ensures AsSet(r) == AsSet(sorted) + {d}
  {
    hide Rank, Sorted, AsSet;
    var i := |sorted|;
    while i > 0 && Rank(sorted[i - 1].code) > Rank(d.code)
      invariant 0 <= i <= |sorted|
      invariant i < |sorted| ==> Rank(sorted[i].code) > Rank(d.code)
    {
      i := i - 1;
    }
    if i > 0 {
      assert sorted[i - 1] in sorted;
    }
    r := sorted[..i] + [d] + sorted[i..];
    InsertionSet(sorted, i, d);
    InsertionSorted(sorted, i, d);
  }

  /** Keeps the first diagnostic of each code, and sorts. */
  method DedupeDiagnostics(values: seq<Diagnostic>) returns (r: seq<Diagnostic>)
    requires Known(values)
    ensures Sorted(r)
    ensures AsSet(r) == Firsts(values)
  {
    r := [];
    var seen: set<Code> := {};
    for i := 0 to |values|
      invariant Sorted(r)
      invariant AsSet(r) == Firsts(values[..i])
      invariant forall c :: c in seen <==> exists j :: 0 <= j < i && values[j].code == c
    {
      FirstsSnoc(values[..i], values[i]);
      assert values[..i + 1] == values[..i] + [values[i]];
      if values[i].code !in seen {
        seen := seen + {values[i].code};
        forall e | e in r ensures Rank(e.code) != Rank(values[i].code) {
          assert e in AsSet(r);
          var j :| 0 <= j < i && values[..i][j] == e;
          assert e in values;
          RankInjective(e.code, values[i].code);
        }
        r := InsertByRank(r, values[i]);
      }
    }
    assert values[..|values|] == values;
  }

  lemma RankInjective(a: Code, b: Code)
    requires a != b && !a.Foreign? && !b.Foreign?
    ensures Rank(a) != Rank(b)
  {}

  lemma FirstsSnoc(values: seq<Diagnostic>, d: Diagnostic)
    ensures Firsts(values + [d])
         == if exists j :: 0 <= j < |values| && values[j].code == d.code then Firsts(values) else Firsts(values) + {d}
  {
    EvidenceOrder.FirstsConcat(values, [d]);
    assert First([d], 0);
    assert Firsts([d]) == {d};
    if j :| 0 <= j < |values| && values[j].code == d.code {
      EvidenceOrder.CodeHasFirst(values, j);
    } else {
      EvidenceOrder.FirstsAreMembers(values);
    }
  }

  // ---------------------------------------------------------------- preflight

  lemma HeaderIsKnown(input: Input)
    ensures Known(HeaderProblems(input))
  {
    assert Known(FormatProblems(input));
    assert Known(ScopeProblems(input));
  }

  lemma ObservationProblemsAreKnown(o: Observation)
    ensures Known(ObservationProblems(o))
  {
    EvidenceOrder.CommonPartCodes(o);
    assert Known(CommonPart(o));
    assert Known(InvalidPart(o));
  }

  lemma FlattenSnoc(lists: seq<seq<Diagnostic>>, i: nat)
    requires i < |lists|
    ensures Flatten(lists[..i + 1]) == Flatten(lists[..i]) + lists[i]
  {
    assert lists[..i + 1][..i] == lists[..i];
  }

  method ValidateEvaluationEnvelope(input: Input) returns (r: seq<Diagnostic>)
    ensures Sorted(r) && Known(r)
    ensures AsSet(r) == Firsts(HeaderProblems(input) + AllObservationProblems(input.observations))
  {
    var header := HeaderProblems(input);
    HeaderIsKnown(input);
    ghost var lists := ProblemLists(input.observations);
    var rest: seq<Diagnostic> := [];
    for i := 0 to |input.observations|
      invariant Known(rest) && rest == Flatten(lists[..i])
    {
      FlattenSnoc(lists, i);
      ObservationProblemsAreKnown(input.observations[i]);
      rest := rest + ObservationProblems(input.observations[i]);
    }
    assert lists[..|lists|] == lists;
    r := DedupeDiagnostics(header + rest);
    KnownFirsts(header + rest, r);
  }

  lemma KnownFirsts(values: seq<Diagnostic>, r: seq<Diagnostic>)
    requires Known(values) && AsSet(r) == Firsts(values)
    ensures Known(r)
  {
    EvidenceOrder.FirstsAreMembers(values);
    forall d | d in r ensures !d.code.Foreign? {
      assert d in AsSet(r);
    }
  }

  method NormalizeInputDiagnostics(input: Input) returns (r: seq<Diagnostic>)
    ensures Sorted(r) && Known(r)
    ensures AsSet(r) == Firsts(InputProblems(input.diagnostics))
  {
    var result: seq<Diagnostic> := [];
    for i := 0 to |input.diagnostics|
      invariant |result| == i && Known(result)
      invariant forall j :: 0 <= j < i ==> result[j] == RegisteredProblem(input.diagnostics[j])
    {
      var d := RegisteredProblem(input.diagnostics[i]);
      assert !d.code.Foreign?;
      result := result + [d];
    }
    assert result == InputProblems(input.diagnostics);
    r := DedupeDiagnostics(result);
    KnownFirsts(result, r);
  }

  method CheckPreflight(input: Input) returns (r: seq<Diagnostic>)
    ensures Sorted(r)
    ensures AsSet(r) == Firsts(PreflightProblems(input))
  {
    var envelope := ValidateEvaluationEnvelope(input);
    var normalized := NormalizeInputDiagnostics(input);
    r := DedupeDiagnostics(envelope + normalized);
    EvidenceOrder.FirstsConcat(envelope, normalized);
    FirstsOfDistinct(envelope);
    FirstsOfDistinct(normalized);
    EvidenceOrder.FirstsConcat(HeaderProblems(input) + AllObservationProblems(input.observations),
                               InputProblems(input.diagnostics));
  }

  // ---------------------------------------------------------------- identities

  ghost predicate Ordered(s: seq<Observation>, key: Observation -> int) {
    forall i, j :: 0 <= i < j < |s| ==> key(s[i]) <= key(s[j])
  }

  lemma InsertedOrder(sorted: seq<Observation>, i: nat, o: Observation, key: Observation -> int)
    requires Ordered(sorted, key) && i <= |sorted|
    requires i > 0 ==> key(sorted[i - 1]) <= key(o)
    requires forall j :: i <= j < |sorted| ==> key(sorted[j]) > key(o)
    ensures Ordered(sorted[..i] + [o] + sorted[i..], key)
  {}

  method InsertObservation(sorted: seq<Observation>, o: Observation, key: Observation -> int)
    returns (r: seq<Observation>)
    requires Ordered(sorted, key)
    ensures Ordered(r, key)
    ensures multiset(r) == multiset(sorted) + multiset{o}
  {
    var i := |sorted|;
    while i > 0 && key(sorted[i - 1]) > key(o)
      invariant 0 <= i <= |sorted|
      invariant forall j :: i <= j < |sorted| ==> key(sorted[j]) > key(o)
    {
      i := i - 1;
    }
    InsertedOrder(sorted, i, o, key);
    r := sorted[..i] + [o] + sorted[i..];
    assert multiset(r) == multiset(sorted[..i]) + multiset{o} + multiset(sorted[i..]);
    assert sorted == sorted[..i] + sorted[i..];
  }

  /** A stable order by an encoding that tells observations apart. */
  method SortObservations(observations: seq<Observation>, key: Observation -> int) returns (sorted: seq<Observation>)
    ensures Ordered(sorted, key)
    ensures multiset(sorted) == multiset(observations)
  {
    sorted := [];
    for n := 0 to |observations|
      invariant Ordered(sorted, key)
      invariant multiset(sorted) == multiset(observations[..n])
    {
      sorted := InsertObservation(sorted, observations[n], key);
      assert observations[..n + 1] == observations[..n] + [observations[n]];
    }
    assert observations[..|observations|] == observations;
  }

  /** The index after the observations in `done`: the one kept for each identity, and the identities
      for which another one turned up. */
  ghost predicate Indexed(done: set<Observation>, identity: map<Key, Observation>, ambiguous: set<Key>) {
    && (forall k :: k in identity ==> identity[k] in done && Sourced(identity[k]) && Identity(identity[k]) == k)
    && (forall o :: o in done && Sourced(o) ==> Identity(o) in identity)
    && (forall k :: k in ambiguous
          <==> k in identity && exists o :: o in done && Sourced(o) && Identity(o) == k && o != identity[k])
  }

  lemma AmbiguousIsConflict(done: set<Observation>, identity: map<Key, Observation>, ambiguous: set<Key>)
    requires Indexed(done, identity, ambiguous)
    ensures AnyConflict(done) <==> ambiguous != {}
  {}

  datatype Index = Index(
    identity: map<Key, Observation>, ambiguous: set<Key>, diagnostics: seq<Diagnostic>, outcomeBlocked: bool)

  ghost predicate IndexOf(done: set<Observation>, index: Index) {
    && Indexed(done, index.identity, index.ambiguous)
    && DistinctCodes(index.diagnostics) && AsSet(index.diagnostics) == IdentityDiagnostics(done)
    && (index.outcomeBlocked <==> AnyConflict(done))
  }

  lemma IndexStep(done: set<Observation>, o: Observation, identity: map<Key, Observation>, ambiguous: set<Key>)
    requires Indexed(done, identity, ambiguous)
    ensures AnyMissourced(done + {o}) <==> AnyMissourced(done) || !Sourced(o)
    ensures !Sourced(o) ==> Indexed(done + {o}, identity, ambiguous)
    ensures Sourced(o) && Identity(o) !in identity ==> Indexed(done + {o}, identity[Identity(o) := o], ambiguous)
    ensures Sourced(o) && Identity(o) in identity ==>
      Indexed(done + {o}, identity, if identity[Identity(o)] == o then ambiguous else ambiguous + {Identity(o)})
  {
    if AnyMissourced(done) {
      var p :| p in done && !Sourced(p);
      assert p in done + {o};
    }
    assert o in done + {o};
    IndexStepAmbiguous(done, o, identity, ambiguous);
  }

  lemma IndexStepAmbiguous(done: set<Observation>, o: Observation, identity: map<Key, Observation>, ambiguous: set<Key>)
    requires Indexed(done, identity, ambiguous)
    ensures Sourced(o) && Identity(o) in identity ==>
      Indexed(done + {o}, identity, if identity[Identity(o)] == o then ambiguous else ambiguous + {Identity(o)})
  {
    if Sourced(o) && Identity(o) in identity {
      var after := if identity[Identity(o)] == o then ambiguous else ambiguous + {Identity(o)};
      forall k ensures k in after <==>
        k in identity && exists p :: p in done + {o} && Sourced(p) && Identity(p) == k && p != identity[k]
      {
        if k in ambiguous {
          var p :| p in done && Sourced(p) && Identity(p) == k && p != identity[k];
          assert p in done + {o};
        }
        if k == Identity(o) && o != identity[k] {
          assert o in done + {o};
        }
      }
    }
  }

  lemma DiagnosticsStep(missourced: bool, conflict: bool)
    ensures Merge(IndexingDiagnostics(missourced, conflict), {MISSOURCED}) == IndexingDiagnostics(true, conflict)
    ensures Merge(IndexingDiagnostics(missourced, conflict), {CONFLICT}) == IndexingDiagnostics(missourced, true)
  {}

  method IndexOne(before: Index, o: Observation, key: Observation -> int, ghost done: set<Observation>)
    returns (after: Index)
    requires forall a, b :: key(a) == key(b) ==> a == b
    requires IndexOf(done, before)
    ensures IndexOf(done + {o}, after)
  {
    IndexStep(done, o, before.identity, before.ambiguous);
    AmbiguousIsConflict(done, before.identity, before.ambiguous);
    DiagnosticsStep(AnyMissourced(done), AnyConflict(done));
    if o.source != SourceForKind(o.kind) {
      var diagnostics := AddDiagnostic(before.diagnostics, MISSOURCED);
      after := before.(diagnostics := diagnostics);
    } else if Identity(o) !in before.identity {
      after := before.(identity := before.identity[Identity(o) := o]);
    } else if key(before.identity[Identity(o)]) != key(o) {
      var diagnostics := AddDiagnostic(before.diagnostics, CONFLICT);
      after := before.(ambiguous := before.ambiguous + {Identity(o)}, diagnostics := diagnostics,
                       outcomeBlocked := true);
    } else {
      after := before;
    }
    AmbiguousIsConflict(done + {o}, after.identity, after.ambiguous);
  }

  lemma NothingIndexed()
    ensures IndexOf({}, Index(map[], {}, [], false))
  {}

  method IndexIdentities(observations: seq<Observation>, key: Observation -> int) returns (index: Index)
    requires forall a, b :: key(a) == key(b) ==> a == b
    ensures IndexOf((set o | o in observations), index)
  {
    hide IndexOf;
    NothingIndexed();
    index := Index(map[], {}, [], false);
    ghost var done: set<Observation> := {};
    for i := 0 to |observations|
      invariant done == set o | o in observations[..i]
      invariant IndexOf(done, index)
    {
      assert observations[..i + 1] == observations[..i] + [observations[i]];
      index := IndexOne(index, observations[i], key, done);
      done := done + {observations[i]};
    }
    assert observations[..|observations|] == observations;
  }

  // ---------------------------------------------------------------- blockers

  datatype Checked = Checked(
    validByKind: map<Kind, seq<Observation>>, diagnostics: seq<Diagnostic>, outcomeBlocked: bool,
    freshnessBlocked: bool)

  ghost predicate DistinctItems(s: seq<Observation>) {
    forall i, j :: 0 <= i < j < |s| ==> s[i] != s[j]
  }

  /** The observations of `s`, each once, by kind. */
  ghost predicate Grouped(groups: map<Kind, seq<Observation>>, s: set<Observation>) {
    && (forall kind :: kind in groups ==> groups[kind] != [] && DistinctItems(groups[kind]))
    && (forall kind, o :: kind in groups ==> (o in groups[kind] <==> o in s && o.kind == kind))
    && (forall o :: o in s ==> o.kind in groups)
  }

  ghost predicate BlockedBy(input: Input, seen: set<Observation>, c: Category) {
    exists d :: d in Blockers(input, seen) && d.category == c
  }

  ghost predicate CheckedFor(input: Input, start: set<Diagnostic>, conflict: bool, seen: set<Observation>, c: Checked) {
    && DistinctCodes(c.diagnostics) && AsSet(c.diagnostics) == Merge(start, Blockers(input, seen))
    && (c.outcomeBlocked <==> conflict || BlockedBy(input, seen, OutcomeCategory))
    && (c.freshnessBlocked <==> BlockedBy(input, seen, Freshness))
    && Grouped(c.validByKind, Unblocked(input, seen))
  }

  lemma BlockerStep(input: Input, seen: set<Observation>, o: Observation)
    ensures Blocker(input, o).Some? ==> Blockers(input, seen + {o}) == Blockers(input, seen) + {Blocker(input, o).value}
    ensures Blocker(input, o).Some? ==> Unblocked(input, seen + {o}) == Unblocked(input, seen)
    ensures Blocker(input, o).None? ==> Blockers(input, seen + {o}) == Blockers(input, seen)
    ensures Blocker(input, o).None? ==> Unblocked(input, seen + {o}) == Unblocked(input, seen) + {o}
  {}

  /** The code of a blocker says everything about it. */
  lemma BlockersAgree(input: Input, seen: set<Observation>, d: Diagnostic, o: Observation)
    requires d in Blockers(input, seen) && Blocker(input, o).Some? && Blocker(input, o).value.code == d.code
    ensures Blocker(input, o).value == d
  {}

  lemma MergeStep(start: set<Diagnostic>, more: set<Diagnostic>, d: Diagnostic)
    requires forall e :: e in more && e.code == d.code ==> e == d
    ensures Merge(Merge(start, more), {d}) == Merge(start, more + {d})
  {}

  lemma CategoryStep(input: Input, seen: set<Observation>, o: Observation, c: Category)
    ensures BlockedBy(input, seen + {o}, c) <==>
      BlockedBy(input, seen, c) || (Blocker(input, o).Some? && Blocker(input, o).value.category == c)
  {}

  lemma GroupStep(groups: map<Kind, seq<Observation>>, s: set<Observation>, o: Observation)
    requires Grouped(groups, s) && o !in s
    ensures Grouped(groups[o.kind := (if o.kind in groups then groups[o.kind] else []) + [o]], s + {o})
  {}

  method CheckOne(input: Input, o: Observation, before: Checked, ghost start: set<Diagnostic>, ghost conflict: bool,
                  ghost seen: set<Observation>)
    returns (after: Checked)
    requires CheckedFor(input, start, conflict, seen, before) && o !in seen
    ensures CheckedFor(input, start, conflict, seen + {o}, after)
  {
    BlockerStep(input, seen, o);
    CategoryStep(input, seen, o, OutcomeCategory);
    CategoryStep(input, seen, o, Freshness);
    var blocker := Blocker(input, o);
    if blocker.Some? {
      forall e | e in Blockers(input, seen) && e.code == blocker.value.code ensures e == blocker.value {
        BlockersAgree(input, seen, e, o);
      }
      MergeStep(start, Blockers(input, seen), blocker.value);
      var diagnostics := AddDiagnostic(before.diagnostics, blocker.value);
      after := before.(diagnostics := diagnostics,
                       outcomeBlocked := before.outcomeBlocked || blocker.value.category.OutcomeCategory?,
                       freshnessBlocked := before.freshnessBlocked || blocker.value.category.Freshness?);
    } else {
      GroupStep(before.validByKind, Unblocked(input, seen), o);
      var group := if o.kind in before.validByKind then before.validByKind[o.kind] else [];
      after := before.(validByKind := before.validByKind[o.kind := group + [o]]);
    }
  }

  lemma CandidatesAreKept(input: Input, obs: set<Observation>, identity: map<Key, Observation>, ambiguous: set<Key>)
    requires Indexed(obs, identity, ambiguous)
    ensures forall o :: o in Candidates(input, obs) ==> Identity(o) in identity && identity[Identity(o)] == o
    ensures forall k :: k in identity ==>
      (identity[k] in Candidates(input, obs) <==> k !in ambiguous && KindRelevant(input.profile, identity[k].kind))
  {}

  /** Visits the identities in an arbitrary order. */
  method CheckCandidates(input: Input, index: Index, ghost obs: set<Observation>) returns (c: Checked)
    requires IndexOf(obs, index)
    ensures CheckedFor(input, IdentityDiagnostics(obs), AnyConflict(obs), Candidates(input, obs), c)
  {
    ghost var candidates := Candidates(input, obs);
    CandidatesAreKept(input, obs, index.identity, index.ambiguous);
    c := Checked(map[], index.diagnostics, index.outcomeBlocked, false);
    var remaining := index.identity.Keys;
    ghost var seen: set<Observation> := {};
    while remaining != {}
      invariant remaining <= index.identity.Keys
      invariant forall o :: o in seen <==> o in candidates && Identity(o) !in remaining
      invariant CheckedFor(input, IdentityDiagnostics(obs), AnyConflict(obs), seen, c)
      decreases |remaining|
    {
      var k :| k in remaining;
      remaining := remaining - {k};
      var o := index.identity[k];
      if k !in index.ambiguous && KindRelevant(input.profile, o.kind) {
        c := CheckOne(input, o, c, IdentityDiagnostics(obs), AnyConflict(obs), seen);
        seen := seen + {o};
      }
    }
    assert seen == candidates;
  }

  // ---------------------------------------------------------------- one observation per kind

  lemma CrowdedExactly(groups: map<Kind, seq<Observation>>, valid: set<Observation>, kind: Kind)
    requires Grouped(groups, valid) && kind in groups
    ensures Crowded(valid, kind) <==> |groups[kind]| > 1
  {
    var group := groups[kind];
    if |group| > 1 {
      assert group[0] in group && group[1] in group;
    } else {
      forall a, b | a in valid && b in valid && a.kind == kind && b.kind == kind ensures a == b {
        assert a in group && b in group;
      }
    }
  }

  ghost predicate Single(groups: map<Kind, seq<Observation>>) {
    forall kind :: kind in groups ==> |groups[kind]| == 1
  }

  /** Drops the kinds with more than one observation. */
  method KeepSingles(groups: map<Kind, seq<Observation>>, diagnostics: seq<Diagnostic>, ghost valid: set<Observation>)
    returns (kept: map<Kind, seq<Observation>>, updated: seq<Diagnostic>, crowded: bool)
    requires Grouped(groups, valid) && DistinctCodes(diagnostics)
    ensures Grouped(kept, Singles(valid)) && Single(kept)
    ensures crowded <==> AnyCrowded(valid)
    ensures DistinctCodes(updated) && AsSet(updated) == Merge(AsSet(diagnostics), if crowded then {CROWDED} else {})
  {
    kept, updated, crowded := groups, diagnostics, false;
    var remaining := groups.Keys;
    assert Merge(AsSet(diagnostics), {}) == AsSet(diagnostics);
    while remaining != {}
      invariant remaining <= groups.Keys
      invariant forall kind :: kind in kept <==> kind in groups && (kind in remaining || |groups[kind]| == 1)
      invariant forall kind :: kind in kept ==> kept[kind] == groups[kind]
      invariant crowded <==> exists kind :: kind in groups && kind !in remaining && |groups[kind]| > 1
      invariant DistinctCodes(updated) && AsSet(updated) == Merge(AsSet(diagnostics), if crowded then {CROWDED} else {})
      decreases |remaining|
    {
      var kind :| kind in remaining;
      remaining := remaining - {kind};
      if |groups[kind]| > 1 {
        updated := AddDiagnostic(updated, CROWDED);
        crowded := true;
        kept := kept - {kind};
      }
    }
    CrowdedSomewhere(groups, valid, crowded);
    KeptAreSingles(groups, kept, valid);
  }

  lemma KeptAreSingles(groups: map<Kind, seq<Observation>>, kept: map<Kind, seq<Observation>>, valid: set<Observation>)
    requires Grouped(groups, valid)
    requires forall kind :: kind in kept <==> kind in groups && |groups[kind]| == 1
    requires forall kind :: kind in kept ==> kept[kind] == groups[kind]
    ensures Grouped(kept, Singles(valid)) && Single(kept)
  {
    forall o ensures o in Singles(valid) <==> o in valid && |groups[o.kind]| == 1 {
      if o in valid {
        CrowdedExactly(groups, valid, o.kind);
        assert o in groups[o.kind];
      }
    }
  }

  lemma CrowdedSomewhere(groups: map<Kind, seq<Observation>>, valid: set<Observation>, crowded: bool)
    requires Grouped(groups, valid)
    requires crowded <==> exists kind :: kind in groups && |groups[kind]| > 1
    ensures crowded <==> AnyCrowded(valid)
  {
    if crowded {
      var kind :| kind in groups && |groups[kind]| > 1;
      CrowdedExactly(groups, valid, kind);
      assert groups[kind][0] in groups[kind];
    }
    if AnyCrowded(valid) {
      var o :| o in valid && Crowded(valid, o.kind);
      CrowdedExactly(groups, valid, o.kind);
    }
  }

  // ---------------------------------------------------------------- one revision

  ghost predicate Carries(groups: map<Kind, seq<Observation>>, kinds: set<Kind>, revision: string) {
    exists kind :: kind in kinds && kind in groups && RequiresRevision(kind) && groups[kind] != []
      && groups[kind][0].ref.revision == revision
  }

  /** Compares the revisions, in an arbitrary order, with the first one it meets. */
  method CompareRevisions(groups: map<Kind, seq<Observation>>, ghost singles: set<Observation>) returns (mismatch: bool)
    requires Grouped(groups, singles) && Single(groups)
    requires forall o :: o in singles && RequiresRevision(o.kind) ==> o.ref.revision != ""
    ensures mismatch <==> RevisionsDiffer(singles)
  {
    hide RequiresRevision;
    mismatch := false;
    var revision := "";
    var remaining := groups.Keys;
    ghost var seen: set<Kind> := {};
    ghost var other := "";
    while remaining != {}
      invariant seen == groups.Keys - remaining && remaining <= groups.Keys
      invariant revision != "" ==> Carries(groups, seen, revision)
      invariant revision == "" ==> !mismatch && forall r :: !Carries(groups, seen, r)
      invariant !mismatch ==> forall r :: Carries(groups, seen, r) ==> r == revision
      invariant mismatch ==> other != revision && Carries(groups, seen, other)
      decreases |remaining|
    {
      var kind :| kind in remaining;
      remaining := remaining - {kind};
      CarriesStep(groups, seen, kind);
      seen := seen + {kind};
      assert groups[kind][0] in groups[kind];
      if RequiresRevision(kind) {
        if revision == "" {
          revision := groups[kind][0].ref.revision;
        } else if revision != groups[kind][0].ref.revision {
          mismatch, other := true, groups[kind][0].ref.revision;
        }
      }
    }
    RevisionsOfGroups(groups, singles, seen);
  }

  lemma CarriesStep(groups: map<Kind, seq<Observation>>, seen: set<Kind>, kind: Kind)
    requires kind in groups && groups[kind] != []
    ensures forall r :: Carries(groups, seen + {kind}, r) <==>
      Carries(groups, seen, r) || (RequiresRevision(kind) && groups[kind][0].ref.revision == r)
  {}

  lemma CarriedBy(groups: map<Kind, seq<Observation>>, singles: set<Observation>, seen: set<Kind>, r: string)
    requires Grouped(groups, singles) && Single(groups) && seen == groups.Keys
    ensures Carries(groups, seen, r) <==> exists o :: o in singles && RequiresRevision(o.kind) && o.ref.revision == r
  {}

  lemma RevisionsOfGroups(groups: map<Kind, seq<Observation>>, singles: set<Observation>, seen: set<Kind>)
    requires Grouped(groups, singles) && Single(groups) && seen == groups.Keys
    ensures RevisionsDiffer(singles) <==> exists r, q :: r != q && Carries(groups, seen, r) && Carries(groups, seen, q)
  {
    if RevisionsDiffer(singles) {
      var a, b :| a in singles && b in singles && RequiresRevision(a.kind) && RequiresRevision(b.kind)
               && a.ref.revision != b.ref.revision;
      CarriedBy(groups, singles, seen, a.ref.revision);
      CarriedBy(groups, singles, seen, b.ref.revision);
    }
    if r, q :| r != q && Carries(groups, seen, r) && Carries(groups, seen, q) {
      CarriedBy(groups, singles, seen, r);
      CarriedBy(groups, singles, seen, q);
    }
  }

  // ---------------------------------------------------------------- requirements

  lemma OffersExactly(groups: map<Kind, seq<Observation>>, singles: set<Observation>, kind: Kind, mismatch: bool)
    requires Grouped(groups, singles) && Single(groups)
    ensures Offers(singles, kind, mismatch) <==> kind in groups && (!mismatch || !RequiresRevision(kind))
    ensures kind in groups ==> forall o :: o in singles && o.kind == kind ==> o == groups[kind][0]
  {
    if kind in groups {
      assert groups[kind][0] in groups[kind];
      forall o | o in singles && o.kind == kind ensures o == groups[kind][0] {
        assert o in groups[kind];
      }
    }
  }

  method SelectFor(groups: map<Kind, seq<Observation>>, kinds: seq<Kind>, mismatch: bool,
                   ghost singles: set<Observation>)
    returns (selected: Option<Observation>)
    requires Grouped(groups, singles) && Single(groups)
    ensures selected == Select(singles, kinds, mismatch)
  {
    for i := 0 to |kinds|
      invariant Select(singles, kinds, mismatch) == Select(singles, kinds[i..], mismatch)
    {
      OffersExactly(groups, singles, kinds[i], mismatch);
      assert kinds[i..][0] == kinds[i] && kinds[i..][1..] == kinds[i + 1..];
      if kinds[i] in groups && (!mismatch || !RequiresRevision(kinds[i])) {
        return Some(groups[kinds[i]][0]);
      }
    }
    selected := None;
  }

  method SelectEvidence(requirements: seq<Requirement>, groups: map<Kind, seq<Observation>>, mismatch: bool,
                        ghost singles: set<Observation>)
    returns (satisfied: seq<Requirement>, missing: seq<Requirement>, evidence: seq<Observation>)
    requires Grouped(groups, singles) && Single(groups)
    ensures satisfied == SatisfiedOf(requirements, singles, mismatch)
    ensures missing == MissingOf(requirements, singles, mismatch)
    ensures evidence == EvidenceOf(requirements, singles, mismatch)
  {
    satisfied, missing, evidence := [], [], [];
    for i := 0 to |requirements|
      invariant satisfied == SatisfiedOf(requirements[..i], singles, mismatch)
      invariant missing == MissingOf(requirements[..i], singles, mismatch)
      invariant evidence == EvidenceOf(requirements[..i], singles, mismatch)
    {
      assert requirements[..i + 1][..i] == requirements[..i];
      var selected := SelectFor(groups, requirements[i].kinds, mismatch, singles);
      if selected.None? {
        missing := missing + [requirements[i]];
      } else {
        satisfied := satisfied + [requirements[i]];
        evidence := evidence + [selected.value];
      }
    }
    assert requirements[..|requirements|] == requirements;
  }

  // ---------------------------------------------------------------- the evaluator

  /** A receipt shows exactly an assessment. */
  ghost predicate Renders(receipt: EvidenceReceipt, a: Assessment) {
    && receipt.phase == a.phase && receipt.satisfied == a.satisfied && receipt.missing == a.missing
    && receipt.evidence == a.evidence
    && Sorted(receipt.diagnostics) && AsSet(receipt.diagnostics) == a.diagnostics
  }

  /** So the assessment determines the receipt, diagnostics and their order included. */
  lemma RendersUnique(r: EvidenceReceipt, q: EvidenceReceipt, a: Assessment)
    requires Renders(r, a) && Renders(q, a)
    ensures r == q
  {
    SortedUnique(r.diagnostics, q.diagnostics);
  }

  ghost predicate NoneForeign(diagnostics: set<Diagnostic>) {
    forall d :: d in diagnostics ==> !d.code.Foreign?
  }

  lemma BlockersAreKnown(input: Input, candidates: set<Observation>)
    ensures NoneForeign(Blockers(input, candidates))
  {}

  lemma MergeKnown(a: set<Diagnostic>, b: set<Diagnostic>)
    requires NoneForeign(a) && NoneForeign(b)
    ensures NoneForeign(Merge(a, b))
  {}

  lemma OutcomeDiagnosticsAreKnown(input: Input, obs: set<Observation>, candidates: set<Observation>, crowded: bool,
                                   mismatch: bool)
    ensures NoneForeign(OutcomeDiagnostics(obs, Blockers(input, candidates), crowded, mismatch))
  {
    BlockersAreKnown(input, candidates);
    MergeKnown(IdentityDiagnostics(obs), Blockers(input, candidates));
    var first := Merge(IdentityDiagnostics(obs), Blockers(input, candidates));
    MergeKnown(first, if crowded then {CROWDED} else {});
    MergeKnown(Merge(first, if crowded then {CROWDED} else {}), if mismatch then {REVISIONS} else {});
  }

  lemma RevisionsPresent(input: Input, valid: set<Observation>)
    requires WellFormed(input) && valid <= ObservationSet(input)
    ensures forall o :: o in Singles(valid) && RequiresRevision(o.kind) ==> o.ref.revision != ""
  {}

  lemma FinalPhaseExactly(input: Input, obs: set<Observation>, diagnostics: seq<Diagnostic>)
    requires !AnyMissourced(obs)
    requires AsSet(diagnostics) == AssessObservations(input, obs).diagnostics
    ensures var a := AssessObservations(input, obs);
            var candidates := Candidates(input, obs);
            var valid := Unblocked(input, candidates);
            var mismatch := RevisionsDiffer(Singles(valid));
            var outcomeBlocked := AnyConflict(obs) || BlockedBy(input, candidates, OutcomeCategory) || AnyCrowded(valid)
              || mismatch;
            a.phase ==
              if outcomeBlocked then BlockedOutcome
              else if BlockedBy(input, candidates, Freshness) then BlockedFreshness
              else if a.missing == [] && diagnostics == [] then Verified
              else if mismatch || diagnostics != [] then BlockedOutcome
              else AwaitingVerification
  {
    OutcomeSplit(input, obs);
    assert diagnostics != [] ==> diagnostics[0] in AsSet(diagnostics);
    var candidates := Candidates(input, obs);
    var valid := Unblocked(input, candidates);
    OutcomeDiagnosticsEmpty(obs, Blockers(input, candidates), AnyCrowded(valid), RevisionsDiffer(Singles(valid)));
    EveryBlockerBlocks(input, candidates);
    if Blockers(input, candidates) != {} {
      var d :| d in Blockers(input, candidates);
    }
  }

  /** The phase of the assessment, worked out from the flags of the run. */
  method FinalPhase(outcomeBlocked: bool, freshnessBlocked: bool, mismatch: bool, missing: seq<Requirement>,
                    diagnostics: seq<Diagnostic>, ghost input: Input, ghost obs: set<Observation>)
    returns (phase: Phase)
    requires !AnyMissourced(obs) && AsSet(diagnostics) == AssessObservations(input, obs).diagnostics
    requires missing == AssessObservations(input, obs).missing
    requires mismatch == RevisionsDiffer(Singles(Unblocked(input, Candidates(input, obs))))
    requires outcomeBlocked <==>
      || AnyConflict(obs) || BlockedBy(input, Candidates(input, obs), OutcomeCategory)
      || AnyCrowded(Unblocked(input, Candidates(input, obs))) || mismatch
    requires freshnessBlocked == BlockedBy(input, Candidates(input, obs), Freshness)
    ensures phase == AssessObservations(input, obs).phase
  {
    hide AssessObservations, RevisionsDiffer, AnyCrowded, AnyConflict, BlockedBy, Candidates, Unblocked, Singles;
    FinalPhaseExactly(input, obs, diagnostics);
    if outcomeBlocked {
      phase := BlockedOutcome;
    } else if freshnessBlocked {
      phase := BlockedFreshness;
    } else if missing == [] && diagnostics == [] {
      phase := Verified;
    } else if mismatch || diagnostics != [] {
      phase := BlockedOutcome;
    } else {
      phase := AwaitingVerification;
    }
  }

  lemma MergeNothing(present: set<Diagnostic>)
    ensures Merge(present, {}) == present
  {}

  /** Closes the diagnostics of a run: the revision mismatch, then order. */
  method CloseDiagnostics(input: Input, diagnostics: seq<Diagnostic>, mismatch: bool,
                          ghost obs: set<Observation>, ghost candidates: set<Observation>, ghost crowded: bool)
    returns (closed: seq<Diagnostic>)
    requires DistinctCodes(diagnostics)
    requires AsSet(diagnostics)
          == Merge(Merge(IdentityDiagnostics(obs), Blockers(input, candidates)), if crowded then {CROWDED} else {})
    ensures Sorted(closed)
    ensures AsSet(closed) == OutcomeDiagnostics(obs, Blockers(input, candidates), crowded, mismatch)
  {
    closed := diagnostics;
    MergeNothing(AsSet(diagnostics));
    if mismatch {
      closed := AddDiagnostic(closed, REVISIONS);
    }
    OutcomeDiagnosticsAreKnown(input, obs, candidates, crowded, mismatch);
    forall d | d in closed ensures !d.code.Foreign? {
      assert d in AsSet(closed);
    }
    FirstsOfDistinct(closed);
    closed := DedupeDiagnostics(closed);
  }

  method EvaluateIndexed(input: Input, index: Index, ghost obs: set<Observation>) returns (receipt: EvidenceReceipt)
    requires WellFormed(input) && obs == ObservationSet(input)
    requires IndexOf(obs, index) && !AnyMissourced(obs)
    ensures Renders(receipt, AssessObservations(input, obs))
  {
    ghost var candidates := Candidates(input, obs);
    var c := CheckCandidates(input, index, obs);
    ghost var valid := Unblocked(input, candidates);
    var kept, diagnostics, crowded := KeepSingles(c.validByKind, c.diagnostics, valid);
    RevisionsPresent(input, valid);
    var mismatch := CompareRevisions(kept, Singles(valid));
    var satisfied, missing, evidence := SelectEvidence(RequirementsOf(input.profile), kept, mismatch, Singles(valid));
    diagnostics := CloseDiagnostics(input, diagnostics, mismatch, obs, candidates, crowded);
    var phase := FinalPhase(c.outcomeBlocked || crowded || mismatch, c.freshnessBlocked, mismatch, missing,
                            diagnostics, input, obs);
    receipt := EvidenceReceipt(phase, satisfied, missing, diagnostics, evidence);
  }

  /** The codes that end an evaluation before any observation counts. */
  predicate IsPreflightCode(code: Code) {
    code in {SchemaUnsupported, EvaluatorUnsupported, ProfileRequired, ProfileUnsupported, InstallationInvalid,
             SubjectIncomplete, ObservationLimit, KindUnsupported, ObservationInvalid, SourceMismatch}
  }

  predicate HasPreflightCode(diagnostics: seq<Diagnostic>) {
    exists d :: d in diagnostics && IsPreflightCode(d.code)
  }

  lemma PreflightCodeExactly(obs: set<Observation>, diagnostics: seq<Diagnostic>)
    requires AsSet(diagnostics) == IdentityDiagnostics(obs)
    ensures HasPreflightCode(diagnostics) <==> AnyMissourced(obs)
    ensures Known(diagnostics)
  {
    forall d | d in diagnostics ensures d == MISSOURCED || d == CONFLICT {
      assert d in AsSet(diagnostics);
    }
    if AnyMissourced(obs) {
      assert MISSOURCED in AsSet(diagnostics);
      assert MISSOURCED in diagnostics && IsPreflightCode(MISSOURCED.code);
    } else {
      assert forall d :: d in diagnostics ==> d in AsSet(diagnostics) && d == CONFLICT;
    }
  }

  /** Evaluation computes the assessment, whatever order its maps are visited in. */
  method EvaluateEvidence(input: Input, key: Observation -> int) returns (receipt: EvidenceReceipt)
    requires forall a, b :: key(a) == key(b) ==> a == b
    ensures Renders(receipt, Assess(input))
  {
    var preflight := CheckPreflight(input);
    if preflight != [] {
      assert preflight[0] in AsSet(preflight);
      return EvidenceReceipt(BlockedPreflight, [], RequirementsOf(input.profile), preflight, []);
    }
    PreflightExactly(input);
    var sorted := SortObservations(input.observations, key);
    ghost var obs := ObservationSet(input);
    SortingKeepsSet(input.observations, sorted);
    var index := IndexIdentities(sorted, key);
    PreflightCodeExactly(obs, index.diagnostics);
    if HasPreflightCode(index.diagnostics) {
      FirstsOfDistinct(index.diagnostics);
      var diagnostics := DedupeDiagnostics(index.diagnostics);
      return EvidenceReceipt(BlockedPreflight, [], RequirementsOf(input.profile), diagnostics, []);
    }
    receipt := EvaluateIndexed(input, index, obs);
  }

  lemma SortingKeepsSet(observations: seq<Observation>, sorted: seq<Observation>)
    requires multiset(sorted) == multiset(observations)
    ensures (set o | o in sorted) == (set o | o in observations)
  {
    forall o ensures o in sorted <==> o in observations {
      assert o in multiset(sorted) <==> o in multiset(observations);
    }
  }
}
