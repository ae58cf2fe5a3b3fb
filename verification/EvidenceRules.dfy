/**
 What an evaluation means: a function of the set of observations, without any order of visiting
 them, and what follows from it about `verified`, about time and about order.
 */
module EvidenceRules {
  import opened Wrappers
  import opened EvidenceTypes

  // ---------------------------------------------------------------- one observation on its own

  function PreflightProblem(code: Code, message: Message): Diagnostic {
    Diagnostic(code, Preflight, message)
  }

  /** The diagnostic, under a condition. */
  function When(condition: bool, d: Diagnostic): seq<Diagnostic> {
    if condition then [d] else []
  }

  function RefProblem(kind: Kind, ref: Ref): Option<Message> {
    if ref.resourceType != ResourceTypeForKind(kind) then Some(ResourceTypeMismatch)
    else if ref.identitySHA256 != "" && !Hex(ref.identitySHA256, 64) then Some(InvalidHashedIdentity)
    else if ref.uuid != "" && !UuidFormat(ref.uuid) then Some(InvalidUuid)
    else if ref.revision != "" && !Hex(ref.revision, 40) then Some(InvalidRevision)
    else if RequiresRevision(kind) && ref.revision == "" then Some(RevisionRequired)
    else if !RequiresRevision(kind) && ref.revision != "" then Some(RevisionNotAllowed)
    else match kind
      case ContractIssue | DeliveryPROpen | DeliveryResult =>
        if ref.number == 0 then Some(NumberRequired)
        else if ref.uuid != "" || ref.identitySHA256 != "" then Some(OnlyNumberAllowed)
        else None
      case Workspace | RuntimeOnline | Agent =>
        if ref.uuid == "" || ref.identitySHA256 != "" || ref.number != 0 then Some(StrictUuidRequired)
        else None
      case TaskCompleted | RunCompleted =>
        if ref.number != 0 then Some(NumberNotAllowed)
        else if ref.uuid == "" && ref.identitySHA256 == "" then Some(TaskIdentityRequired)
        else if ref.uuid != "" && ref.identitySHA256 != "" then Some(OneTaskIdentityOnly)
        else None
      case _ =>
        if ref.identitySHA256 == "" then Some(HashedIdentityRequired)
        else if ref.uuid != "" || ref.number != 0 then Some(UnexpectedIdentityField)
        else None
  }

  /** The messages an observation gives under the one code that has more than one. */
  function InvalidMessages(o: Observation): seq<Message> {
    (if Hex(o.deploymentDigest, 64) && Hex(o.subjectDigest, 64) && Hex(o.fingerprint, 64) then []
     else [InvalidObservationDigest])
    + (if !ValidTime(o.observedAt) then [ObservationTimeInvalid] else [])
    + (if o.outcome.OtherOutcome? then [InvalidObservationOutcome] else [])
    + (match RefProblem(o.kind, o.ref) case Some(message) => [message] case None => [])
  }

  function InvalidProblems(messages: seq<Message>): seq<Diagnostic> {
    seq(|messages|, i requires 0 <= i < |messages| => PreflightProblem(ObservationInvalid, messages[i]))
  }

  function InvalidPart(o: Observation): seq<Diagnostic> {
    if o.kind.UnknownKind? then [] else InvalidProblems(InvalidMessages(o))
  }

  /** The checks with one message each; an unknown kind ends the check of an observation. */
  function CommonPart(o: Observation): seq<Diagnostic> {
    When(o.schemaVersion != OBSERVATION_SCHEMA, PreflightProblem(SchemaUnsupported, UnsupportedObservationSchema))
    + When(o.evaluatorVersion != EVALUATOR, PreflightProblem(EvaluatorUnsupported, UnsupportedObservationEvaluator))
    + When(o.kind.UnknownKind?, PreflightProblem(KindUnsupported, UnsupportedKind))
    + When(!o.kind.UnknownKind? && !InstallationFormat(o.installationId),
           PreflightProblem(InstallationInvalid, InvalidObservationInstallation))
  }

  function ObservationProblems(o: Observation): seq<Diagnostic> {
    CommonPart(o) + InvalidPart(o)
  }

  function ProblemLists(observations: seq<Observation>): (lists: seq<seq<Diagnostic>>)
    ensures |lists| == |observations|
    ensures forall i :: 0 <= i < |lists| ==> lists[i] == ObservationProblems(observations[i])
  {
    seq(|observations|, i requires 0 <= i < |observations| => ObservationProblems(observations[i]))
  }

  function Flatten(lists: seq<seq<Diagnostic>>): seq<Diagnostic> {
    if lists == [] then [] else Flatten(lists[..|lists| - 1]) + lists[|lists| - 1]
  }

  function AllObservationProblems(observations: seq<Observation>): seq<Diagnostic> {
    Flatten(ProblemLists(observations))
  }

  /** Schema, evaluator and profile. */
  function FormatProblems(input: Input): seq<Diagnostic> {
    When(input.schemaVersion != INPUT_SCHEMA, PreflightProblem(SchemaUnsupported, UnsupportedInputSchema))
    + When(input.evaluatorVersion != EVALUATOR, PreflightProblem(EvaluatorUnsupported, UnsupportedEvaluator))
    + When(input.profile.NoProfile?, PreflightProblem(ProfileRequired, ExplicitProfileRequired))
    + When(!input.profile.NoProfile? && ProfileRequirements(input.profile).None?,
           PreflightProblem(ProfileUnsupported, UnsupportedProfile))
  }

  /** Identities, time and size. */
  function ScopeProblems(input: Input): seq<Diagnostic> {
    When(!InstallationFormat(input.installationId), PreflightProblem(InstallationInvalid, InvalidInstallation))
    + When(!Hex(input.deploymentDigest, 64) || !Hex(input.subjectDigest, 64),
           PreflightProblem(SubjectIncomplete, DigestsRequired))
    + When(!ValidTime(input.evaluatedAt), PreflightProblem(EvaluatedAtInvalid, EvaluationTimeInvalid))
    + When(|input.observations| > MAX_OBSERVATIONS, PreflightProblem(ObservationLimit, TooManyObservations))
  }

  /** The checks of the input itself, before any observation is looked at. */
  function HeaderProblems(input: Input): seq<Diagnostic> {
    FormatProblems(input) + ScopeProblems(input)
  }

  function RegisteredProblem(code: Code): Diagnostic {
    match code
    case ProfileLegacyReceipt => PreflightProblem(code, LegacyReceiptOverride)
    case ProfileMissing => PreflightProblem(code, PersistedProfileMissing)
    case ProfileMismatch => PreflightProblem(code, ProfileConflict)
    case SubjectIncomplete => PreflightProblem(code, SelectorsIncomplete)
    case SubjectMismatch => PreflightProblem(code, SelectorsConflict)
    case GitHubCollectorFailed => PreflightProblem(code, GitHubCollection)
    case MulticaCollectorFailed => PreflightProblem(code, MulticaCollection)
    case CollectorSourceInvalid => PreflightProblem(code, UnsupportedCollector)
    case _ => PreflightProblem(DiagnosticUnsupported, UnsupportedDiagnosticCode)
  }

  function InputProblems(codes: seq<Code>): (problems: seq<Diagnostic>)
    ensures |problems| == |codes|
  {
    seq(|codes|, i requires 0 <= i < |codes| => RegisteredProblem(codes[i]))
  }

  function PreflightProblems(input: Input): seq<Diagnostic> {
    HeaderProblems(input) + AllObservationProblems(input.observations) + InputProblems(input.diagnostics)
  }

  /** The first diagnostic of each code. */
  ghost function Firsts(values: seq<Diagnostic>): set<Diagnostic> {
    set i | 0 <= i < |values| && First(values, i) :: values[i]
  }

  ghost predicate First(values: seq<Diagnostic>, i: nat)
    requires i < |values|
  {
    forall j :: 0 <= j < i ==> values[j].code != values[i].code
  }

  // ---------------------------------------------------------------- the observations together

  ghost predicate Sourced(o: Observation) {
    o.source == SourceForKind(o.kind)
  }

  function Identity(o: Observation): (Source, Kind, Ref) {
    (o.source, o.kind, o.ref)
  }

  /** Another observation claims the same identity. */
  ghost predicate Conflicted(obs: set<Observation>, o: Observation) {
    exists p :: p in obs && Sourced(p) && Identity(p) == Identity(o) && p != o
  }

  ghost function Candidates(input: Input, obs: set<Observation>): set<Observation> {
    set o | o in obs && Sourced(o) && !Conflicted(obs, o) && KindRelevant(input.profile, o.kind)
  }

  function OutcomeCode(outcome: ObservationOutcome): Code {
    match outcome
    case Absent => ObservationAbsent
    case Ambiguous => ObservationAmbiguous
    case Drifted => ObservationDrifted
    case _ => ObservationRejected
  }

  /** What blocks one observation: binding, then outcome, then age. */
  function Blocker(input: Input, o: Observation): Option<Diagnostic> {
    if o.installationId != input.installationId then
      Some(Diagnostic(InstallationMismatch, OutcomeCategory, OtherInstallation))
    else if o.deploymentDigest != input.deploymentDigest then
      Some(Diagnostic(DeploymentMismatch, OutcomeCategory, OtherDeployment))
    else if o.subjectDigest != input.subjectDigest then
      Some(Diagnostic(SubjectMismatch, OutcomeCategory, OtherSubject))
    else if !o.outcome.Matched? then
      Some(Diagnostic(OutcomeCode(o.outcome), OutcomeCategory, DidNotMatch))
    else if o.observedAt.instant > input.evaluatedAt.instant then
      Some(Diagnostic(ObservationFuture, Freshness, InTheFuture))
    else if input.evaluatedAt.instant >= o.observedAt.instant + EVIDENCE_MAX_AGE then
      Some(Diagnostic(ObservationExpired, Freshness, Stale))
    else None
  }

  ghost function Blockers(input: Input, candidates: set<Observation>): set<Diagnostic> {
    set o | o in candidates && Blocker(input, o).Some? :: Blocker(input, o).value
  }

  ghost function Unblocked(input: Input, candidates: set<Observation>): set<Observation> {
    set o | o in candidates && Blocker(input, o).None?
  }

  ghost predicate Crowded(valid: set<Observation>, kind: Kind) {
    exists a, b :: a in valid && b in valid && a != b && a.kind == kind && b.kind == kind
  }

  ghost predicate AnyCrowded(valid: set<Observation>) {
    exists o :: o in valid && Crowded(valid, o.kind)
  }

  /** The observations that are alone in their kind. */
  ghost function Singles(valid: set<Observation>): set<Observation> {
    set o | o in valid && !Crowded(valid, o.kind)
  }

  ghost predicate RevisionsDiffer(singles: set<Observation>) {
    exists a, b :: a in singles && b in singles && RequiresRevision(a.kind) && RequiresRevision(b.kind)
                && a.ref.revision != b.ref.revision
  }

  ghost predicate Offers(singles: set<Observation>, kind: Kind, mismatch: bool) {
    (exists o :: o in singles && o.kind == kind) && !(mismatch && RequiresRevision(kind))
  }

  /** The first of `kinds` that some observation offers. */
  ghost function Select(singles: set<Observation>, kinds: seq<Kind>, mismatch: bool): Option<Observation> {
    if kinds == [] then None
    else if Offers(singles, kinds[0], mismatch) then
      var o :| o in singles && o.kind == kinds[0]; Some(o)
    else Select(singles, kinds[1..], mismatch)
  }

  const CONFLICT := Diagnostic(ObservationAmbiguous, OutcomeCategory, ConflictingObservations)
  const CROWDED := Diagnostic(ObservationAmbiguous, OutcomeCategory, MultipleOfOneKind)
  const REVISIONS := Diagnostic(RevisionMismatch, OutcomeCategory, RevisionsDoNotMatch)
  const MISSOURCED := Diagnostic(SourceMismatch, Preflight, SourceDiffersFromKind)

  /** A diagnostic is added only if its code is not there yet. */
  ghost function Merge(present: set<Diagnostic>, more: set<Diagnostic>): set<Diagnostic> {
    present + set d | d in more && (forall e :: e in present ==> e.code != d.code)
  }

  datatype Phase = BlockedPreflight | BlockedOutcome | BlockedFreshness | AwaitingVerification | Verified

  datatype Assessment = Assessment(
    phase: Phase, satisfied: seq<Requirement>, missing: seq<Requirement>,
    diagnostics: set<Diagnostic>, evidence: seq<Observation>)

  ghost function SatisfiedOf(requirements: seq<Requirement>, singles: set<Observation>,
                             mismatch: bool): seq<Requirement> {
    if requirements == [] then []
    else
      var last := requirements[|requirements| - 1];
      SatisfiedOf(requirements[..|requirements| - 1], singles, mismatch)
      + if Select(singles, last.kinds, mismatch).Some? then [last] else []
  }

  ghost function MissingOf(requirements: seq<Requirement>, singles: set<Observation>,
                           mismatch: bool): seq<Requirement> {
    if requirements == [] then []
    else
      var last := requirements[|requirements| - 1];
      MissingOf(requirements[..|requirements| - 1], singles, mismatch)
      + if Select(singles, last.kinds, mismatch).Some? then [] else [last]
  }

  ghost function EvidenceOf(requirements: seq<Requirement>, singles: set<Observation>,
                            mismatch: bool): seq<Observation> {
    if requirements == [] then []
    else
      var selected := Select(singles, requirements[|requirements| - 1].kinds, mismatch);
      EvidenceOf(requirements[..|requirements| - 1], singles, mismatch)
      + if selected.Some? then [selected.value] else []
  }

  ghost function ObservationSet(input: Input): set<Observation> {
    set o | o in input.observations
  }

  ghost predicate AnyConflict(obs: set<Observation>) {
    exists o :: o in obs && Sourced(o) && Conflicted(obs, o)
  }

  ghost predicate AnyMissourced(obs: set<Observation>) {
    exists o :: o in obs && !Sourced(o)
  }

  ghost function IdentityDiagnostics(obs: set<Observation>): set<Diagnostic> {
    IndexingDiagnostics(AnyMissourced(obs), AnyConflict(obs))
  }

  function IndexingDiagnostics(missourced: bool, conflict: bool): set<Diagnostic> {
    (if missourced then {MISSOURCED} else {}) + (if conflict then {CONFLICT} else {})
  }

  ghost function OutcomePhase(conflict: bool, blockers: set<Diagnostic>, crowded: bool, mismatch: bool,
                              missing: seq<Requirement>): Phase {
    if conflict || crowded || mismatch || (exists d :: d in blockers && d.category.OutcomeCategory?) then BlockedOutcome
    else if exists d :: d in blockers && d.category.Freshness? then BlockedFreshness
    else if missing == [] then Verified
    else AwaitingVerification
  }

  ghost function AssessObservations(input: Input, obs: set<Observation>): Assessment {
    var requirements := RequirementsOf(input.profile);
    if AnyMissourced(obs) then
      Assessment(BlockedPreflight, [], requirements, IdentityDiagnostics(obs), [])
    else
      var candidates := Candidates(input, obs);
      var blockers := Blockers(input, candidates);
      var valid := Unblocked(input, candidates);
      var singles := Singles(valid);
      var mismatch := RevisionsDiffer(singles);
      var missing := MissingOf(requirements, singles, mismatch);
      Assessment(
        OutcomePhase(AnyConflict(obs), blockers, AnyCrowded(valid), mismatch, missing),
        SatisfiedOf(requirements, singles, mismatch), missing,
        OutcomeDiagnostics(obs, blockers, AnyCrowded(valid), mismatch),
        EvidenceOf(requirements, singles, mismatch))
  }

  ghost function OutcomeDiagnostics(obs: set<Observation>, blockers: set<Diagnostic>, crowded: bool,
                                    mismatch: bool): set<Diagnostic> {
    Merge(Merge(Merge(IdentityDiagnostics(obs), blockers), if crowded then {CROWDED} else {}),
          if mismatch then {REVISIONS} else {})
  }

  /** The meaning of an evaluation. */
  ghost function Assess(input: Input): Assessment {
    var preflight := Firsts(PreflightProblems(input));
    if preflight != {} then Assessment(BlockedPreflight, [], RequirementsOf(input.profile), preflight, [])
    else AssessObservations(input, ObservationSet(input))
  }
}
