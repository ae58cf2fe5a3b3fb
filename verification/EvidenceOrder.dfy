/**
 Which orders of observations an evaluation can tell apart.

 The observations that pass the preflight checks are only ever looked at as a set.  The preflight
 checks themselves run in input order and keep the first message of each code, and one code has
 several messages; that is the only trace of order.
 */
module EvidenceOrder {
  import opened Wrappers
  import opened EvidenceTypes
  import opened EvidenceRules

  /** The message under which an observation is reported invalid, if it is. */
  function FirstInvalid(o: Observation): Option<Message> {
    if o.kind.UnknownKind? || InvalidMessages(o) == [] then None else Some(InvalidMessages(o)[0])
  }

  /** All invalid observations give the same first message. */
  ghost predicate UniformInvalidMessages(observations: seq<Observation>) {
    forall o, p :: o in observations && p in observations && FirstInvalid(o).Some? && FirstInvalid(p).Some?
      ==> FirstInvalid(o) == FirstInvalid(p)
  }

  /** The same input with its observations in another order. */
  ghost predicate Reordered(a: Input, b: Input) {
    b == a.(observations := b.observations) && multiset(b.observations) == multiset(a.observations)
  }

  /** The same input with the same observations, in any order and any number of times, as long as
      both or neither are over the limit. */
  ghost predicate SameObservations(a: Input, b: Input) {
    && b == a.(observations := b.observations)
    && ObservationSet(a) == ObservationSet(b)
    && (|a.observations| > MAX_OBSERVATIONS <==> |b.observations| > MAX_OBSERVATIONS)
  }

  // ---------------------------------------------------------------- first diagnostics

  lemma FirstsConcat(a: seq<Diagnostic>, b: seq<Diagnostic>)
    ensures Firsts(a + b) == Merge(Firsts(a), Firsts(b))
  {
    forall d ensures d in Firsts(a + b) <==> d in Merge(Firsts(a), Firsts(b)) {
      if d in Firsts(a + b) {
        var i :| 0 <= i < |a + b| && First(a + b, i) && (a + b)[i] == d;
        FirstOfConcat(a, b, i);
      }
      if d in Firsts(a) {
        var i :| 0 <= i < |a| && First(a, i) && a[i] == d;
        assert (a + b)[i] == d && First(a + b, i);
      } else if d in Merge(Firsts(a), Firsts(b)) {
        var i :| 0 <= i < |b| && First(b, i) && b[i] == d;
        FirstInSecond(a, b, i);
      }
    }
  }

  lemma FirstOfConcat(a: seq<Diagnostic>, b: seq<Diagnostic>, i: nat)
    requires i < |a + b| && First(a + b, i)
    ensures (a + b)[i] in Merge(Firsts(a), Firsts(b))
  {
    if i < |a| {
      assert a[i] == (a + b)[i];
      assert forall j :: 0 <= j < i ==> a[j] == (a + b)[j];
      assert First(a, i);
    } else {
      var k := i - |a|;
      assert b[k] == (a + b)[i];
      forall j | 0 <= j < k ensures b[j].code != b[k].code {
        assert b[j] == (a + b)[|a| + j];
      }
      assert First(b, k) && b[k] in Firsts(b);
      forall e | e in Firsts(a) ensures e.code != b[k].code {
        var j :| 0 <= j < |a| && First(a, j) && a[j] == e;
        assert (a + b)[j] == e;
      }
    }
  }

  lemma FirstInSecond(a: seq<Diagnostic>, b: seq<Diagnostic>, i: nat)
    requires i < |b| && First(b, i)
    requires forall e :: e in Firsts(a) ==> e.code != b[i].code
    ensures b[i] in Firsts(a + b)
  {
    forall j | 0 <= j < |a| + i ensures (a + b)[j].code != b[i].code {
      if j < |a| {
        CodeHasFirst(a, j);
      } else {
        assert (a + b)[j] == b[j - |a|];
      }
    }
    assert (a + b)[|a| + i] == b[i] && First(a + b, |a| + i);
  }

  lemma {:induction false} CodeHasFirst(values: seq<Diagnostic>, i: nat)
    requires i < |values|
    ensures exists d :: d in Firsts(values) && d.code == values[i].code
    decreases i
  {
    if First(values, i) {
      assert values[i] in Firsts(values);
    } else {
      var j :| 0 <= j < i && values[j].code == values[i].code;
      CodeHasFirst(values, j);
    }
  }

  lemma FirstsDistinctCodes(values: seq<Diagnostic>, d: Diagnostic, e: Diagnostic)
    requires d in Firsts(values) && e in Firsts(values) && d.code == e.code
    ensures d == e
  {}

  // ---------------------------------------------------------------- one observation

  /** What an observation contributes to the preflight, code by code. */
  ghost function Contribution(o: Observation): set<Diagnostic> {
    Firsts(ObservationProblems(o))
  }

  lemma CommonPartCodes(o: Observation)
    ensures forall d :: d in CommonPart(o) ==>
      || d == PreflightProblem(SchemaUnsupported, UnsupportedObservationSchema)
      || d == PreflightProblem(EvaluatorUnsupported, UnsupportedObservationEvaluator)
      || d == PreflightProblem(KindUnsupported, UnsupportedKind)
      || d == PreflightProblem(InstallationInvalid, InvalidObservationInstallation)
  {}

  lemma FirstOfInvalidProblems(messages: seq<Message>)
    ensures Firsts(InvalidProblems(messages)) ==
      if messages == [] then {} else {PreflightProblem(ObservationInvalid, messages[0])}
  {
    var problems := InvalidProblems(messages);
    if messages != [] {
      assert First(problems, 0);
      forall i | 0 < i < |problems| ensures !First(problems, i) {
        assert problems[0].code == problems[i].code;
      }
    }
  }

  lemma FirstsAreMembers(values: seq<Diagnostic>)
    ensures forall d :: d in Firsts(values) ==> d in values
  {}

  /** An observation contributes at most one diagnostic of each code, with a message of its own only
      under `ObservationInvalid`. */
  lemma ContributionExactly(o: Observation)
    ensures forall d :: d in Contribution(o) ==>
      || d in CommonPart(o)
      || (FirstInvalid(o).Some? && d == PreflightProblem(ObservationInvalid, FirstInvalid(o).value))
    ensures FirstInvalid(o).Some? ==> PreflightProblem(ObservationInvalid, FirstInvalid(o).value) in Contribution(o)
  {
    FirstsConcat(CommonPart(o), InvalidPart(o));
    FirstsAreMembers(CommonPart(o));
    FirstOfInvalidProblems(InvalidMessages(o));
    CommonPartCodes(o);
    assert o.kind.UnknownKind? ==> Firsts(InvalidPart(o)) == {};
  }

  lemma ContributionsAgree(observations: seq<Observation>, o: Observation, p: Observation, d: Diagnostic, e: Diagnostic)
    requires UniformInvalidMessages(observations) && o in observations && p in observations
    requires d in Contribution(o) && e in Contribution(p) && d.code == e.code
    ensures d == e
  {
    ContributionExactly(o);
    ContributionExactly(p);
    CommonPartCodes(o);
    CommonPartCodes(p);
  }

  // ---------------------------------------------------------------- all of them

  /** Sets that agree on every code they share. */
  ghost predicate Agree(a: set<Diagnostic>, b: set<Diagnostic>) {
    forall d, e :: d in a && e in b && d.code == e.code ==> d == e
  }

  ghost predicate Agreeing(lists: seq<seq<Diagnostic>>) {
    forall i, j :: 0 <= i < |lists| && 0 <= j < |lists| ==> Agree(Firsts(lists[i]), Firsts(lists[j]))
  }

  lemma MergeAgreeing(a: set<Diagnostic>, b: set<Diagnostic>)
    requires Agree(a, b)
    ensures Merge(a, b) == a + b
  {}

  ghost predicate InSome(d: Diagnostic, lists: seq<seq<Diagnostic>>) {
    exists i :: 0 <= i < |lists| && d in Firsts(lists[i])
  }

  lemma {:induction false} FirstsOfFlatten(lists: seq<seq<Diagnostic>>)
    requires Agreeing(lists)
    ensures forall d :: d in Firsts(Flatten(lists)) <==> InSome(d, lists)
  {
    if lists != [] {
      var init, last := lists[..|lists| - 1], lists[|lists| - 1];
      assert forall i :: 0 <= i < |init| ==> init[i] == lists[i];
      assert Agreeing(init);
      FirstsOfFlatten(init);
      FirstsConcat(Flatten(init), last);
      forall d, e | d in Firsts(Flatten(init)) && e in Firsts(last) && d.code == e.code ensures d == e {
        assert InSome(d, init);
        var i :| 0 <= i < |init| && d in Firsts(init[i]);
        assert Agree(Firsts(lists[i]), Firsts(lists[|lists| - 1]));
      }
      MergeAgreeing(Firsts(Flatten(init)), Firsts(last));
      forall d ensures InSome(d, lists) <==> InSome(d, init) || d in Firsts(last) {
        InSomeSplit(d, lists);
      }
    }
  }

  lemma InSomeSplit(d: Diagnostic, lists: seq<seq<Diagnostic>>)
    requires lists != []
    ensures InSome(d, lists) <==> InSome(d, lists[..|lists| - 1]) || d in Firsts(lists[|lists| - 1])
  {}

  lemma ContributionsUnited(observations: seq<Observation>)
    requires UniformInvalidMessages(observations)
    ensures forall d :: d in Firsts(AllObservationProblems(observations)) <==> Contributed(d, observations)
  {
    var lists := ProblemLists(observations);
    forall i, j | 0 <= i < |lists| && 0 <= j < |lists| ensures Agree(Firsts(lists[i]), Firsts(lists[j])) {
      forall d, e | d in Firsts(lists[i]) && e in Firsts(lists[j]) && d.code == e.code ensures d == e {
        ContributionsAgree(observations, observations[i], observations[j], d, e);
      }
    }
    FirstsOfFlatten(lists);
    forall d ensures InSome(d, lists) <==> Contributed(d, observations) {
      if Contributed(d, observations) {
        var o :| o in observations && d in Contribution(o);
        var i :| 0 <= i < |observations| && observations[i] == o;
        assert d in Firsts(lists[i]);
      }
      if i :| 0 <= i < |lists| && d in Firsts(lists[i]) {
        assert observations[i] in observations && d in Contribution(observations[i]);
      }
    }
  }

  ghost predicate Contributed(d: Diagnostic, observations: seq<Observation>) {
    exists o :: o in observations && d in Contribution(o)
  }

  lemma PreflightInParts(input: Input)
    ensures Firsts(PreflightProblems(input))
         == Merge(Merge(Firsts(HeaderProblems(input)), Firsts(AllObservationProblems(input.observations))),
                  Firsts(InputProblems(input.diagnostics)))
  {
    FirstsConcat(HeaderProblems(input), AllObservationProblems(input.observations));
    FirstsConcat(HeaderProblems(input) + AllObservationProblems(input.observations), InputProblems(input.diagnostics));
  }

  /** Under uniform messages an evaluation is a function of the set of observations: order and
      repetition make no difference. */
  lemma SameObservationsSameAssessment(a: Input, b: Input)
    requires SameObservations(a, b)
    requires UniformInvalidMessages(a.observations)
    ensures Assess(a) == Assess(b)
  {
    assert forall o :: o in a.observations <==> o in ObservationSet(a);
    assert forall o :: o in b.observations <==> o in ObservationSet(b);
    SameContributions(a.observations, b.observations);
    PreflightInParts(a);
    PreflightInParts(b);
    assert HeaderProblems(a) == HeaderProblems(b);
    AssessByParts(a, b);
  }

  lemma SameContributions(a: seq<Observation>, b: seq<Observation>)
    requires forall o :: o in a <==> o in b
    requires UniformInvalidMessages(a)
    ensures Firsts(AllObservationProblems(a)) == Firsts(AllObservationProblems(b))
  {
    ContributionsUnited(a);
    ContributionsUnited(b);
    forall d ensures Contributed(d, a) <==> Contributed(d, b) {}
    assert forall d :: d in Firsts(AllObservationProblems(a)) <==> d in Firsts(AllObservationProblems(b));
  }

  lemma AssessByParts(a: Input, b: Input)
    requires b == a.(observations := b.observations)
    requires ObservationSet(a) == ObservationSet(b)
    requires Firsts(PreflightProblems(a)) == Firsts(PreflightProblems(b))
    ensures Assess(a) == Assess(b)
  {
    if Firsts(PreflightProblems(a)) == {} {
      CandidatesByParts(a, b, ObservationSet(a));
    }
  }

  lemma CandidatesByParts(a: Input, b: Input, obs: set<Observation>)
    requires b == a.(observations := b.observations)
    ensures AssessObservations(a, obs) == AssessObservations(b, obs)
  {
    assert Candidates(a, obs) == Candidates(b, obs);
    var candidates := Candidates(a, obs);
    assert forall o :: Blocker(a, o) == Blocker(b, o);
    assert Blockers(a, candidates) == Blockers(b, candidates);
    assert Unblocked(a, candidates) == Unblocked(b, candidates);
  }

  // ---------------------------------------------------------------- where order shows

  lemma {:induction false} FlattenFront(list: seq<Diagnostic>, rest: seq<seq<Diagnostic>>)
    ensures Flatten([list] + rest) == list + Flatten(rest)
  {
    if rest == [] {
      assert [list] + rest == [list] && [list][..0] == [];
    } else {
      var init, last := rest[..|rest| - 1], rest[|rest| - 1];
      var all := [list] + rest;
      assert all[..|all| - 1] == [list] + init && all[|all| - 1] == last;
      FlattenFront(list, init);
      assert list + (Flatten(init) + last) == (list + Flatten(init)) + last;
    }
  }

  lemma ProblemsOfFront(o: Observation, rest: seq<Observation>)
    ensures AllObservationProblems([o] + rest) == ObservationProblems(o) + AllObservationProblems(rest)
  {
    FlattenFront(ObservationProblems(o), ProblemLists(rest));
    assert ProblemLists([o] + rest) == [ObservationProblems(o)] + ProblemLists(rest);
  }

  lemma FormatHasOtherCodes(input: Input)
    ensures forall d :: d in FormatProblems(input) ==> d.code != ObservationInvalid
  {}

  lemma ScopeHasOtherCodes(input: Input)
    ensures forall d :: d in ScopeProblems(input) ==> d.code != ObservationInvalid
  {}

  lemma HeaderHasOtherCodes(input: Input)
    ensures forall d :: d in Firsts(HeaderProblems(input)) ==> d.code != ObservationInvalid
  {
    hide Firsts, FormatProblems, ScopeProblems;
    FirstsAreMembers(HeaderProblems(input));
    FormatHasOtherCodes(input);
    ScopeHasOtherCodes(input);
  }

  /** Put first, an invalid observation's message is the one reported. */
  lemma FrontMessageIsReported(input: Input, o: Observation, rest: seq<Observation>)
    requires input.observations == [o] + rest && FirstInvalid(o).Some?
    ensures PreflightProblem(ObservationInvalid, FirstInvalid(o).value) in Assess(input).diagnostics
  {
    hide FormatProblems, ScopeProblems, FirstInvalid;
    var d := PreflightProblem(ObservationInvalid, FirstInvalid(o).value);
    ContributionExactly(o);
    ProblemsOfFront(o, rest);
    FirstsConcat(ObservationProblems(o), AllObservationProblems(rest));
    assert d in Firsts(AllObservationProblems(input.observations));
    HeaderHasOtherCodes(input);
    PreflightInParts(input);
    assert d in Firsts(PreflightProblems(input));
  }

  /** The input with its `i`-th observation moved to the front. */
  function Fronted(input: Input, i: nat): Input
    requires i < |input.observations|
  {
    input.(observations := [input.observations[i]] + (input.observations[..i] + input.observations[i + 1..]))
  }

  lemma FrontedIsReordered(input: Input, i: nat)
    requires i < |input.observations|
    ensures Reordered(input, Fronted(input, i))
  {
    var s := input.observations;
    assert s == s[..i] + [s[i]] + s[i + 1..];
  }

  /** No reordering changes the assessment exactly when all invalid observations give one message. */
  lemma OrderIndependentExactly(input: Input)
    ensures (forall other :: Reordered(input, other) ==> Assess(other) == Assess(input))
       <==> UniformInvalidMessages(input.observations)
  {
    if UniformInvalidMessages(input.observations) {
      forall other | Reordered(input, other) ensures Assess(other) == Assess(input) {
        ReorderedHasSameObservations(input, other);
        SameObservationsSameAssessment(input, other);
      }
    } else {
      var o, p :| o in input.observations && p in input.observations && FirstInvalid(o).Some? && FirstInvalid(p).Some?
               && FirstInvalid(o) != FirstInvalid(p);
      var i :| 0 <= i < |input.observations| && input.observations[i] == o;
      var j :| 0 <= j < |input.observations| && input.observations[j] == p;
      FrontsDiffer(input, i, j);
      FrontedIsReordered(input, i);
      FrontedIsReordered(input, j);
    }
  }

  lemma ReorderedHasSameObservations(a: Input, b: Input)
    requires Reordered(a, b)
    ensures SameObservations(a, b)
  {
    forall o ensures o in a.observations <==> o in b.observations {
      assert o in multiset(a.observations) <==> o in a.observations;
      assert o in multiset(b.observations) <==> o in b.observations;
    }
    assert |a.observations| == |multiset(a.observations)| == |b.observations|;
  }

  lemma FrontsDiffer(input: Input, i: nat, j: nat)
    requires i < |input.observations| && j < |input.observations|
    requires FirstInvalid(input.observations[i]).Some? && FirstInvalid(input.observations[j]).Some?
    requires FirstInvalid(input.observations[i]) != FirstInvalid(input.observations[j])
    ensures Assess(Fronted(input, i)) != Assess(Fronted(input, j))
  {
    var o, p := input.observations[i], input.observations[j];
    var d := PreflightProblem(ObservationInvalid, FirstInvalid(o).value);
    var e := PreflightProblem(ObservationInvalid, FirstInvalid(p).value);
    FrontMessageIsReported(Fronted(input, i), o, input.observations[..i] + input.observations[i + 1..]);
    FrontMessageIsReported(Fronted(input, j), p, input.observations[..j] + input.observations[j + 1..]);
    if Assess(Fronted(input, i)) == Assess(Fronted(input, j)) {
      AtMostOneInvalid(Fronted(input, i), d, e);
    }
  }

  lemma AtMostOneInvalid(input: Input, d: Diagnostic, e: Diagnostic)
    requires d in Assess(input).diagnostics && e in Assess(input).diagnostics
    requires d.code == e.code == ObservationInvalid
    ensures d == e
  {
    if Firsts(PreflightProblems(input)) != {} {
      FirstsDistinctCodes(PreflightProblems(input), d, e);
    } else {
      NoInvalidAfterPreflight(input, ObservationSet(input), d);
    }
  }

  ghost predicate NoneInvalid(diagnostics: set<Diagnostic>) {
    forall d :: d in diagnostics ==> d.code != ObservationInvalid
  }

  lemma BlockersAreNotInvalid(input: Input, candidates: set<Observation>)
    ensures NoneInvalid(Blockers(input, candidates))
  {}

  lemma MergeNotInvalid(a: set<Diagnostic>, b: set<Diagnostic>)
    requires NoneInvalid(a) && NoneInvalid(b)
    ensures NoneInvalid(Merge(a, b))
  {}

  lemma NotInvalidInOutcome(input: Input, obs: set<Observation>, candidates: set<Observation>, crowded: bool,
                            mismatch: bool)
    ensures NoneInvalid(OutcomeDiagnostics(obs, Blockers(input, candidates), crowded, mismatch))
  {
    BlockersAreNotInvalid(input, candidates);
    MergeNotInvalid(IdentityDiagnostics(obs), Blockers(input, candidates));
    var first := Merge(IdentityDiagnostics(obs), Blockers(input, candidates));
    MergeNotInvalid(first, if crowded then {CROWDED} else {});
    MergeNotInvalid(Merge(first, if crowded then {CROWDED} else {}), if mismatch then {REVISIONS} else {});
  }

  lemma NoInvalidAfterPreflight(input: Input, obs: set<Observation>, d: Diagnostic)
    requires d in AssessObservations(input, obs).diagnostics
    ensures d.code != ObservationInvalid
  {
    if !AnyMissourced(obs) {
      var candidates := Candidates(input, obs);
      var valid := Unblocked(input, candidates);
      NotInvalidInOutcome(input, obs, candidates, AnyCrowded(valid), RevisionsDiffer(Singles(valid)));
    }
  }

  /** Order does show on some inputs: an observation without digests and one without a time. */
  lemma OrderCanShow() returns (a: Input, b: Input)
    ensures Reordered(a, b) && Assess(a) != Assess(b)
  {
    var digest := seq(64, i => '0');
    var ref := Ref(RepositoryResource, digest, "", 0, "");
    var undigested := Observation(OBSERVATION_SCHEMA, EVALUATOR, FromGitHub, ControlRepository,
                                  "", "", digest, ref, digest, Matched, Time(1, 0));
    var undated := undigested.(deploymentDigest := digest, observedAt := Time(ZERO_INSTANT, 0));
    assert FirstInvalid(undigested) == Some(InvalidObservationDigest);
    assert FirstInvalid(undated) == Some(ObservationTimeInvalid);
    var input := Input(INPUT_SCHEMA, EVALUATOR, "", digest, digest, GitHubDelivery, Time(1, 0), [undigested, undated],
                       []);
    FrontsDiffer(input, 0, 1);
    FrontedIsReordered(input, 0);
    FrontedIsReordered(input, 1);
    a, b := Fronted(input, 0), Fronted(input, 1);
  }
}
