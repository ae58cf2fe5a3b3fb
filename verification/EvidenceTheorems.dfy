/** What an evaluation promises: exactly when it verifies, for how long, and in which orders. */
module EvidenceTheorems {
  import opened Wrappers
  import opened EvidenceTypes
  import opened EvidenceRules

  // ---------------------------------------------------------------- verified, exactly

  ghost predicate WellFormedObservation(o: Observation) {
    && o.schemaVersion == OBSERVATION_SCHEMA && o.evaluatorVersion == EVALUATOR
    && !o.kind.UnknownKind?
    && InstallationFormat(o.installationId)
    && Hex(o.deploymentDigest, 64) && Hex(o.subjectDigest, 64) && Hex(o.fingerprint, 64)
    && ValidTime(o.observedAt) && !o.outcome.OtherOutcome?
    && RefProblem(o.kind, o.ref).None?
  }

  /** Header, input diagnostics and each observation on its own raise nothing. */
  ghost predicate WellFormed(input: Input) {
    && input.schemaVersion == INPUT_SCHEMA && input.evaluatorVersion == EVALUATOR
    && (input.profile.GitHubDelivery? || input.profile.MulticaExecution?)
    && InstallationFormat(input.installationId)
    && Hex(input.deploymentDigest, 64) && Hex(input.subjectDigest, 64)
    && ValidTime(input.evaluatedAt)
    && |input.observations| <= MAX_OBSERVATIONS
    && input.diagnostics == []
    && forall o :: o in input.observations ==> WellFormedObservation(o)
  }

  ghost predicate BoundAndMatched(input: Input, o: Observation) {
    && o.installationId == input.installationId
    && o.deploymentDigest == input.deploymentDigest
    && o.subjectDigest == input.subjectDigest
    && o.outcome.Matched?
  }

  ghost predicate Fresh(o: Observation, at: Time) {
    o.observedAt.instant <= at.instant < o.observedAt.instant + EVIDENCE_MAX_AGE
  }

  ghost predicate Relevant(input: Input, o: Observation) {
    o in input.observations && KindRelevant(input.profile, o.kind)
  }

  /** Everything `verified` stands for except the age of the observations. */
  ghost predicate Verifiable(input: Input) {
    && (forall o :: o in input.observations ==> o.source == SourceForKind(o.kind))
    && (forall o, p :: o in input.observations && p in input.observations && Identity(o) == Identity(p) ==> o == p)
    && (forall o :: Relevant(input, o) ==> BoundAndMatched(input, o))
    && (forall o, p :: Relevant(input, o) && Relevant(input, p) && o.kind == p.kind ==> o == p)
    && (forall o, p :: Relevant(input, o) && Relevant(input, p) && RequiresRevision(o.kind) && RequiresRevision(p.kind)
          ==> o.ref.revision == p.ref.revision)
    && AllRequirementsMet(input)
  }

  lemma FirstsEmpty(values: seq<Diagnostic>)
    ensures Firsts(values) == {} <==> values == []
  {
    if values != [] {
      assert First(values, 0);
      assert values[0] in Firsts(values);
    }
  }

  lemma {:induction false} FlattenEmpty(lists: seq<seq<Diagnostic>>)
    ensures Flatten(lists) == [] <==> forall i :: 0 <= i < |lists| ==> lists[i] == []
  {
    if lists != [] {
      var front := lists[..|lists| - 1];
      FlattenEmpty(front);
      assert forall i :: 0 <= i < |front| ==> front[i] == lists[i];
    }
  }

  lemma ObservationProblemsEmpty(observations: seq<Observation>)
    ensures AllObservationProblems(observations) == [] <==> forall o :: o in observations ==> WellFormedObservation(o)
  {
    FlattenEmpty(ProblemLists(observations));
    forall i | 0 <= i < |observations|
      ensures ProblemLists(observations)[i] == [] <==> WellFormedObservation(observations[i])
    {
      WellFormedObservationExactly(observations[i]);
    }
  }

  lemma WellFormedObservationExactly(o: Observation)
    ensures ObservationProblems(o) == [] <==> WellFormedObservation(o)
  {}

  /** The preflight phase raises nothing exactly on well-formed inputs. */
  lemma PreflightExactly(input: Input)
    ensures Firsts(PreflightProblems(input)) == {} <==> WellFormed(input)
  {
    FirstsEmpty(PreflightProblems(input));
    ObservationProblemsEmpty(input.observations);
    assert InputProblems(input.diagnostics) == [] <==> input.diagnostics == [];
    HeaderExactly(input);
  }

  lemma HeaderExactly(input: Input)
    ensures HeaderProblems(input) == [] <==>
      && input.schemaVersion == INPUT_SCHEMA && input.evaluatorVersion == EVALUATOR
      && (input.profile.GitHubDelivery? || input.profile.MulticaExecution?)
      && InstallationFormat(input.installationId)
      && Hex(input.deploymentDigest, 64) && Hex(input.subjectDigest, 64)
      && ValidTime(input.evaluatedAt)
      && |input.observations| <= MAX_OBSERVATIONS
  {}

  lemma {:induction false} SelectExactly(singles: set<Observation>, kinds: seq<Kind>, mismatch: bool)
    ensures Select(singles, kinds, mismatch).Some? <==> exists k :: k in kinds && Offers(singles, k, mismatch)
    ensures Select(singles, kinds, mismatch).Some? ==>
      var o := Select(singles, kinds, mismatch).value;
      o in singles && o.kind in kinds && Offers(singles, o.kind, mismatch)
  {
    if kinds != [] {
      SelectExactly(singles, kinds[1..], mismatch);
      assert forall k :: k in kinds <==> k == kinds[0] || k in kinds[1..];
    }
  }

  lemma {:induction false} NothingMissing(requirements: seq<Requirement>, singles: set<Observation>, mismatch: bool)
    ensures MissingOf(requirements, singles, mismatch) == []
       <==> forall r :: r in requirements ==> Select(singles, r.kinds, mismatch).Some?
  {
    if requirements != [] {
      var last := requirements[|requirements| - 1];
      NothingMissing(requirements[..|requirements| - 1], singles, mismatch);
      assert requirements == requirements[..|requirements| - 1] + [last];
    }
  }

  /** Nothing blocks and nothing crowds exactly when all relevant observations are bound, matched,
      fresh, alone in their kind and of one revision. */
  lemma UnblockedExactly(input: Input)
    requires !AnyMissourced(ObservationSet(input)) && !AnyConflict(ObservationSet(input))
    ensures var candidates := Candidates(input, ObservationSet(input));
            && (forall o :: o in candidates <==> Relevant(input, o))
            && (Blockers(input, candidates) == {} <==>
                  forall o :: Relevant(input, o) ==> BoundAndMatched(input, o) && Fresh(o, input.evaluatedAt))
            && (Blockers(input, candidates) == {} ==> Unblocked(input, candidates) == candidates)
  {
    var candidates := Candidates(input, ObservationSet(input));
    forall o | o in candidates
      ensures Blocker(input, o).None? <==> BoundAndMatched(input, o) && Fresh(o, input.evaluatedAt)
    {}
    forall o | o in candidates && Blocker(input, o).Some?
      ensures Blocker(input, o).value in Blockers(input, candidates) {}
    if Blockers(input, candidates) == {} {
      assert Unblocked(input, candidates) == candidates;
    }
  }

  lemma SinglesExactly(valid: set<Observation>)
    ensures AnyCrowded(valid) <==> exists a, b :: a in valid && b in valid && a != b && a.kind == b.kind
    ensures !AnyCrowded(valid) ==> Singles(valid) == valid
  {}

  lemma ConflictExactly(input: Input)
    requires !AnyMissourced(ObservationSet(input))
    ensures !AnyConflict(ObservationSet(input)) <==>
      forall o, p :: o in input.observations && p in input.observations && Identity(o) == Identity(p) ==> o == p
  {
    var obs := ObservationSet(input);
    if o, p :| o in obs && p in obs && Identity(o) == Identity(p) && o != p {
      assert Sourced(o) && Sourced(p);
      assert Conflicted(obs, o);
    }
  }

  /** No phase but the first two fails to look at its blockers: a blocker of either category blocks. */
  lemma EveryBlockerBlocks(input: Input, candidates: set<Observation>)
    ensures forall d :: d in Blockers(input, candidates) ==> d.category.OutcomeCategory? || d.category.Freshness?
  {}

  lemma NotMissourcedPhase(input: Input)
    requires WellFormed(input)
    ensures Assess(input) == AssessObservations(input, ObservationSet(input))
  {
    PreflightExactly(input);
  }

  /** The characterisation of `verified`. */
  lemma VerifiedExactly(input: Input)
    ensures Assess(input).phase.Verified? <==>
      && WellFormed(input) && Verifiable(input)
      && forall o :: Relevant(input, o) ==> Fresh(o, input.evaluatedAt)
  {
    PreflightExactly(input);
    var obs := ObservationSet(input);
    if WellFormed(input) && !AnyMissourced(obs) {
      ConflictExactly(input);
      if !AnyConflict(obs) {
        VerifiedWithoutConflict(input);
      }
    } else if WellFormed(input) {
      var o :| o in obs && !Sourced(o);
      assert o in input.observations;
    }
  }

  ghost predicate AllRequirementsMet(input: Input) {
    forall r :: r in RequirementsOf(input.profile) ==> exists o :: Relevant(input, o) && o.kind in r.kinds
  }

  lemma PassingPhase(input: Input, obs: set<Observation>)
    requires !AnyMissourced(obs) && !AnyConflict(obs)
    ensures var candidates := Candidates(input, obs);
            var valid := Unblocked(input, candidates);
            var singles := Singles(valid);
            AssessObservations(input, obs).phase.Verified? <==>
              && Blockers(input, candidates) == {} && !AnyCrowded(valid) && !RevisionsDiffer(singles)
              && MissingOf(RequirementsOf(input.profile), singles, RevisionsDiffer(singles)) == []
  {}

  lemma RequirementsMetExactly(input: Input, singles: set<Observation>)
    requires forall o :: o in singles <==> Relevant(input, o)
    ensures MissingOf(RequirementsOf(input.profile), singles, false) == [] <==> AllRequirementsMet(input)
  {
    var requirements := RequirementsOf(input.profile);
    NothingMissing(requirements, singles, false);
    forall r | r in requirements
      ensures Select(singles, r.kinds, false).Some? <==> exists o :: Relevant(input, o) && o.kind in r.kinds
    {
      SelectExactly(singles, r.kinds, false);
      if o :| Relevant(input, o) && o.kind in r.kinds {
        assert Offers(singles, o.kind, false);
      }
    }
  }

  lemma VerifiableExactly(input: Input, candidates: set<Observation>)
    requires forall o :: o in candidates <==> Relevant(input, o)
    requires forall o :: o in input.observations ==> o.source == SourceForKind(o.kind)
    requires forall o, p :: o in input.observations && p in input.observations && Identity(o) == Identity(p) ==> o == p
    ensures Verifiable(input) <==>
      && (forall o :: Relevant(input, o) ==> BoundAndMatched(input, o))
      && !AnyCrowded(candidates) && !RevisionsDiffer(candidates) && AllRequirementsMet(input)
  {}

  lemma VerifiedWithoutConflict(input: Input)
    requires WellFormed(input)
    requires !AnyMissourced(ObservationSet(input)) && !AnyConflict(ObservationSet(input))
    ensures Assess(input).phase.Verified? <==>
      Verifiable(input) && forall o :: Relevant(input, o) ==> Fresh(o, input.evaluatedAt)
  {
    var candidates := Candidates(input, ObservationSet(input));
    NotMissourcedPhase(input);
    PassingPhase(input, ObservationSet(input));
    UnblockedExactly(input);
    assert forall o :: o in input.observations ==> Sourced(o);
    ConflictExactly(input);
    VerifiableExactly(input, candidates);
    SinglesExactly(candidates);
    if !AnyCrowded(candidates) && !RevisionsDiffer(candidates) {
      RequirementsMetExactly(input, candidates);
    }
  }

  // ---------------------------------------------------------------- time

  lemma VerifiableIgnoresTime(input: Input, at: Time)
    requires WellFormed(input) && Verifiable(input)
    ensures Verifiable(input.(evaluatedAt := at))
    ensures WellFormed(input.(evaluatedAt := at)) <==> ValidTime(at)
    ensures forall o :: Relevant(input.(evaluatedAt := at), o) <==> Relevant(input, o)
  {
    var other := input.(evaluatedAt := at);
    assert forall o :: Relevant(other, o) <==> Relevant(input, o);
    assert forall o :: BoundAndMatched(other, o) <==> BoundAndMatched(input, o);
  }

  lemma SomethingIsRequired(input: Input) returns (some: Observation)
    requires WellFormed(input) && AllRequirementsMet(input)
    ensures Relevant(input, some)
  {
    var requirements := RequirementsOf(input.profile);
    assert requirements[0] in requirements;
    some :| Relevant(input, some) && some.kind in requirements[0].kinds;
  }

  lemma VerifiedAtExactly(input: Input, at: Time)
    requires Assess(input).phase.Verified? && ValidTime(at)
    ensures Assess(input.(evaluatedAt := at)).phase.Verified? <==> forall o :: Relevant(input, o) ==> Fresh(o, at)
  {
    VerifiedExactly(input);
    VerifiableIgnoresTime(input, at);
    VerifiedExactly(input.(evaluatedAt := at));
  }

  ghost predicate Bracket(input: Input, latest: Observation, earliest: Observation) {
    && Relevant(input, latest) && Relevant(input, earliest)
    && forall o :: Relevant(input, o) ==>
      earliest.observedAt.instant <= o.observedAt.instant <= latest.observedAt.instant
  }

  lemma FreshInBracket(input: Input, latest: Observation, earliest: Observation, at: Time)
    requires Bracket(input, latest, earliest)
    ensures (forall o :: Relevant(input, o) ==> Fresh(o, at)) <==>
      latest.observedAt.instant <= at.instant < earliest.observedAt.instant + EVIDENCE_MAX_AGE
  {}

  /** An input that is verified at some time is verified exactly during the half-open interval from
      its latest relevant observation to fifteen minutes after its earliest one. */
  lemma FreshnessInterval(input: Input) returns (latest: Observation, earliest: Observation)
    ensures Assess(input).phase.Verified? ==> Bracket(input, latest, earliest)
    ensures Assess(input).phase.Verified? ==> forall at: Time :: ValidTime(at) ==>
      (Assess(input.(evaluatedAt := at)).phase.Verified? <==>
         latest.observedAt.instant <= at.instant < earliest.observedAt.instant + EVIDENCE_MAX_AGE)
  {
    if Assess(input).phase.Verified? {
      latest, earliest := BracketOfVerified(input);
      forall at: Time | ValidTime(at)
        ensures Assess(input.(evaluatedAt := at)).phase.Verified? <==>
          latest.observedAt.instant <= at.instant < earliest.observedAt.instant + EVIDENCE_MAX_AGE
      {
        VerifiedAtExactly(input, at);
        FreshInBracket(input, latest, earliest, at);
      }
    } else {
      latest, earliest := *, *;
    }
  }

  lemma BracketOfVerified(input: Input) returns (latest: Observation, earliest: Observation)
    requires Assess(input).phase.Verified?
    ensures Bracket(input, latest, earliest)
  {
    VerifiedExactly(input);
    var some := SomethingIsRequired(input);
    latest, earliest := Extremes(input, |input.observations|, some);
  }

  lemma {:induction false} Extremes(input: Input, count: nat, some: Observation)
    returns (latest: Observation, earliest: Observation)
    requires count <= |input.observations| && Relevant(input, some)
    ensures Relevant(input, latest) && Relevant(input, earliest)
    ensures forall i :: 0 <= i < count && Relevant(input, input.observations[i]) ==>
      earliest.observedAt.instant <= input.observations[i].observedAt.instant <= latest.observedAt.instant
    ensures count == |input.observations| ==> forall o :: Relevant(input, o) ==>
      earliest.observedAt.instant <= o.observedAt.instant <= latest.observedAt.instant
  {
    if count == 0 {
      latest, earliest := some, some;
    } else {
      latest, earliest := Extremes(input, count - 1, some);
      var o := input.observations[count - 1];
      if Relevant(input, o) {
        if o.observedAt.instant > latest.observedAt.instant { latest := o; }
        if o.observedAt.instant < earliest.observedAt.instant { earliest := o; }
      }
    }
  }

  // ---------------------------------------------------------------- phases

  lemma OutcomeDiagnosticsEmpty(obs: set<Observation>, blockers: set<Diagnostic>, crowded: bool, mismatch: bool)
    ensures OutcomeDiagnostics(obs, blockers, crowded, mismatch) == {}
       <==> !AnyMissourced(obs) && !AnyConflict(obs) && blockers == {} && !crowded && !mismatch
  {}

  lemma OutcomeSplit(input: Input, obs: set<Observation>)
    requires !AnyMissourced(obs)
    ensures var a := AssessObservations(input, obs);
            && (a.phase.Verified? <==> a.diagnostics == {} && a.missing == [])
            && (a.phase.AwaitingVerification? <==> a.diagnostics == {} && a.missing != [])
  {
    var candidates := Candidates(input, obs);
    var blockers := Blockers(input, candidates);
    var valid := Unblocked(input, candidates);
    EveryBlockerBlocks(input, candidates);
    OutcomeDiagnosticsEmpty(obs, blockers, AnyCrowded(valid), RevisionsDiffer(Singles(valid)));
    if blockers != {} {
      var d :| d in blockers;
    }
  }

  /** Diagnostics and missing requirements alone decide whether evaluation passes or waits; the
      phase for leftover diagnostics is never needed. */
  lemma PhaseSplit(input: Input)
    ensures var a := Assess(input);
            && (a.phase.Verified? <==> a.diagnostics == {} && a.missing == [])
            && (a.phase.AwaitingVerification? <==> a.diagnostics == {} && a.missing != [])
  {
    var obs := ObservationSet(input);
    if Firsts(PreflightProblems(input)) == {} {
      if AnyMissourced(obs) {
        assert MISSOURCED in IdentityDiagnostics(obs);
      } else {
        OutcomeSplit(input, obs);
      }
    }
  }

  /** The members of `s` whose flag is `keep`, in order. */
  function Filter<T>(s: seq<T>, flags: seq<bool>, keep: bool): seq<T>
    requires |flags| == |s|
  {
    if s == [] then []
    else Filter(s[..|s| - 1], flags[..|s| - 1], keep) + if flags[|s| - 1] == keep then [s[|s| - 1]] else []
  }

  /** `flags` says which requirements have a kind on offer. */
  ghost predicate FlagsOffers(flags: seq<bool>, requirements: seq<Requirement>, singles: set<Observation>,
                              mismatch: bool)
  {
    && |flags| == |requirements|
    && forall i :: 0 <= i < |requirements| ==> (flags[i] <==> Offered(requirements[i], singles, mismatch))
  }

  /** One of its kinds is on offer. */
  ghost predicate Offered(r: Requirement, singles: set<Observation>, mismatch: bool) {
    exists k :: k in r.kinds && Offers(singles, k, mismatch)
  }

  lemma {:induction false} SplitRequirements(requirements: seq<Requirement>, singles: set<Observation>, mismatch: bool)
    returns (flags: seq<bool>)
    ensures FlagsOffers(flags, requirements, singles, mismatch)
    ensures SatisfiedOf(requirements, singles, mismatch) == Filter(requirements, flags, true)
    ensures MissingOf(requirements, singles, mismatch) == Filter(requirements, flags, false)
  {
    hide Select, Offers;
    if requirements == [] {
      flags := [];
    } else {
      var last := requirements[|requirements| - 1];
      var rest := SplitRequirements(requirements[..|requirements| - 1], singles, mismatch);
      SelectExactly(singles, last.kinds, mismatch);
      flags := rest + [Select(singles, last.kinds, mismatch).Some?];
      assert flags[..|requirements| - 1] == rest;
    }
  }

  /** Each piece of evidence is of a kind that its requirement names. */
  lemma {:induction false} EvidenceFits(requirements: seq<Requirement>, singles: set<Observation>, mismatch: bool)
    ensures var evidence := EvidenceOf(requirements, singles, mismatch);
            var satisfied := SatisfiedOf(requirements, singles, mismatch);
            && |evidence| == |satisfied|
            && forall j :: 0 <= j < |evidence| ==> evidence[j] in singles && evidence[j].kind in satisfied[j].kinds
  {
    hide Select, Offers;
    if requirements != [] {
      EvidenceFits(requirements[..|requirements| - 1], singles, mismatch);
      SelectExactly(singles, requirements[|requirements| - 1].kinds, mismatch);
    }
  }

  lemma {:induction false} FilterNone<T>(s: seq<T>, flags: seq<bool>)
    requires |flags| == |s| && forall i :: 0 <= i < |s| ==> !flags[i]
    ensures Filter(s, flags, true) == [] && Filter(s, flags, false) == s
  {
    if s != [] {
      FilterNone(s[..|s| - 1], flags[..|s| - 1]);
      assert s == s[..|s| - 1] + [s[|s| - 1]];
    }
  }

  /** The observations that nothing blocks and that are the only ones of their kind. */
  ghost function Usable(input: Input): set<Observation> {
    Singles(Unblocked(input, Candidates(input, ObservationSet(input))))
  }

  /** Satisfied and missing requirements split the profile's table between them, both in its order.
      Past the preflight phase the satisfied ones are those with a kind on offer, each shown by an
      observation of such a kind. */
  lemma RequirementsArePartitioned(input: Input) returns (flags: seq<bool>)
    ensures |flags| == |RequirementsOf(input.profile)|
    ensures Assess(input).satisfied == Filter(RequirementsOf(input.profile), flags, true)
    ensures Assess(input).missing == Filter(RequirementsOf(input.profile), flags, false)
    ensures |Assess(input).evidence| == |Assess(input).satisfied|
    ensures Assess(input).phase.BlockedPreflight? ==> forall i :: 0 <= i < |flags| ==> !flags[i]
    ensures !Assess(input).phase.BlockedPreflight? ==>
      FlagsOffers(flags, RequirementsOf(input.profile), Usable(input), RevisionsDiffer(Usable(input)))
    ensures forall j :: 0 <= j < |Assess(input).evidence| ==>
      Assess(input).evidence[j] in Usable(input) && Assess(input).evidence[j].kind in Assess(input).satisfied[j].kinds
  {
    var requirements := RequirementsOf(input.profile);
    var obs := ObservationSet(input);
    hide SatisfiedOf, MissingOf, EvidenceOf, Filter, RequirementsOf, Offers, RevisionsDiffer, Singles, Firsts;
    hide Candidates;
    if Firsts(PreflightProblems(input)) != {} || AnyMissourced(obs) {
      flags := seq(|requirements|, i => false);
      FilterNone(requirements, flags);
    } else {
      var singles := Usable(input);
      flags := SplitRequirements(requirements, singles, RevisionsDiffer(singles));
      EvidenceFits(requirements, singles, RevisionsDiffer(singles));
    }
  }

  // ---------------------------------------------------------------- an input that is verified

  const SAMPLE_KINDS: seq<Kind> :=
    [ControlRepository, ContractsRepository, Project, ProjectItem, ContractIssue, AgentFirstWrite, DeliveryPROpen,
     ChecksPassed]

  function Digits(n: nat): string {
    seq(n, i => '0')
  }

  function SampleRef(kind: Kind): Ref {
    var numbered := kind.ContractIssue? || kind.DeliveryPROpen?;
    Ref(ResourceTypeForKind(kind), if numbered then "" else Digits(64), "", if numbered then 1 else 0,
        if RequiresRevision(kind) then Digits(40) else "")
  }

  function Sample(kind: Kind): Observation {
    Observation(OBSERVATION_SCHEMA, EVALUATOR, FromGitHub, kind, "install-" + Digits(16), Digits(64), Digits(64),
                SampleRef(kind), Digits(64), Matched, Time(1, 0))
  }

  function SampleInput(): Input {
    Input(INPUT_SCHEMA, EVALUATOR, "install-" + Digits(16), Digits(64), Digits(64), GitHubDelivery, Time(1, 0),
          seq(|SAMPLE_KINDS|, i requires 0 <= i < |SAMPLE_KINDS| => Sample(SAMPLE_KINDS[i])), [])
  }

  lemma DigitsAreHex(n: nat)
    ensures Hex(Digits(n), n)
  {}

  lemma SampleInstallation()
    ensures InstallationFormat("install-" + Digits(16))
  {
    hide Digits;
    DigitsAreHex(16);
    assert ("install-" + Digits(16))[..8] == "install-" && ("install-" + Digits(16))[8..] == Digits(16);
  }

  lemma NonEmptyDigits(n: nat)
    requires n > 0
    ensures Digits(n) != ""
  {}

  lemma SampleRefIsAccepted(kind: Kind)
    requires kind in SAMPLE_KINDS
    ensures RefProblem(kind, SampleRef(kind)).None? && SourceForKind(kind) == FromGitHub && !kind.UnknownKind?
  {
    hide Digits, Hex;
    DigitsAreHex(64);
    DigitsAreHex(40);
    NonEmptyDigits(40);
    NonEmptyDigits(64);
  }

  lemma SampleIsWellFormed(kind: Kind)
    requires kind in SAMPLE_KINDS
    ensures WellFormedObservation(Sample(kind)) && SourceForKind(kind) == FromGitHub
  {
    hide Digits, InstallationFormat, Hex, SAMPLE_KINDS, SampleRef, RefProblem, SourceForKind;
    SampleInstallation();
    SampleRefIsAccepted(kind);
    DigitsAreHex(64);
  }

  lemma SampleObservations()
    ensures forall o :: o in SampleInput().observations ==> o.kind in SAMPLE_KINDS && o == Sample(o.kind)
    ensures forall kind :: kind in SAMPLE_KINDS ==>
      Sample(kind) in SampleInput().observations && Sample(kind).kind == kind
    ensures |SampleInput().observations| == 8
  {
    hide Digits, SampleRef;
    forall kind | kind in SAMPLE_KINDS ensures Sample(kind) in SampleInput().observations {
      var i :| 0 <= i < |SAMPLE_KINDS| && SAMPLE_KINDS[i] == kind;
      assert SampleInput().observations[i] == Sample(kind);
    }
  }

  lemma SampleIsRelevant(kind: Kind)
    requires kind in SAMPLE_KINDS
    ensures Relevant(SampleInput(), Sample(kind)) && Sample(kind).kind == kind
  {
    hide Digits, SampleRef, WellFormedObservation;
    SampleObservations();
    SampleIsWellFormed(kind);
  }

  lemma RequirementIsSampled(i: nat)
    requires i < |GITHUB_REQUIREMENTS|
    ensures exists kind :: kind in SAMPLE_KINDS && kind in GITHUB_REQUIREMENTS[i].kinds
  {
    assert i < |SAMPLE_KINDS| && SAMPLE_KINDS[i] in GITHUB_REQUIREMENTS[i].kinds;
  }

  lemma SampleMeetsRequirements()
    ensures AllRequirementsMet(SampleInput())
  {
    hide Sample, Relevant, GITHUB_REQUIREMENTS, SAMPLE_KINDS;
    forall r | r in GITHUB_REQUIREMENTS ensures exists o :: Relevant(SampleInput(), o) && o.kind in r.kinds {
      var i :| 0 <= i < |GITHUB_REQUIREMENTS| && GITHUB_REQUIREMENTS[i] == r;
      RequirementIsSampled(i);
      var kind :| kind in SAMPLE_KINDS && kind in r.kinds;
      SampleIsRelevant(kind);
    }
  }

  lemma SampleIsBound(kind: Kind)
    requires kind in SAMPLE_KINDS
    ensures Sourced(Sample(kind)) && BoundAndMatched(SampleInput(), Sample(kind))
    ensures Fresh(Sample(kind), SampleInput().evaluatedAt)
    ensures RequiresRevision(kind) ==> Sample(kind).ref.revision == Digits(40)
  {
    hide Digits, WellFormedObservation;
    SampleIsWellFormed(kind);
  }

  /** The conditions can be met: eight fresh observations of one delivery are verified. */
  lemma VerifiedHappens()
    ensures Assess(SampleInput()).phase.Verified?
  {
    hide Digits, Sample, AllRequirementsMet, BoundAndMatched, Fresh, WellFormedObservation;
    hide SAMPLE_KINDS, GITHUB_REQUIREMENTS, RequirementsOf, Assess;
    var input := SampleInput();
    SampleObservations();
    SampleMeetsRequirements();
    SampleInstallation();
    DigitsAreHex(64);
    forall o | o in input.observations
      ensures WellFormedObservation(o) && Sourced(o) && BoundAndMatched(input, o) && Fresh(o, input.evaluatedAt)
      ensures RequiresRevision(o.kind) ==> o.ref.revision == Digits(40)
    {
      SampleIsWellFormed(o.kind);
      SampleIsBound(o.kind);
    }
    VerifiedExactly(input);
  }
}
