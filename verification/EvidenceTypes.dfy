/** Evidence observations, the profiles that require them, and the checks each one must pass alone. */
module EvidenceTypes {
  import opened Wrappers

  // ---------------------------------------------------------------- vocabulary

  datatype Source = FromGitHub | FromMultica | OtherSource(text: string)

  datatype Kind =
    | ControlRepository | ContractsRepository | Project | ProjectItem | ContractIssue
    | AgentFirstWrite | CurrentWork | DeliveryPROpen | DeliveryResult | ChecksPassed | IndependentVerifier
    | Workspace | RuntimeOnline | Agent | TaskCompleted | RunCompleted
    | UnknownKind(text: string)

  datatype ObservationOutcome = Matched | Absent | Ambiguous | Drifted | RejectedOutcome | OtherOutcome(text: string)

  datatype ResourceType =
    | RepositoryResource | ProjectResource | ProjectItemResource | IssueResource | CommitResource
    | PullRequestResource | CheckResource | WorkspaceResource | RuntimeResource | AgentResource
    | TaskResource | RunResource | OtherResource(text: string)

  datatype Ref = Ref(resourceType: ResourceType, identitySHA256: string, uuid: string, number: nat, revision: string)

  /** An instant in nanoseconds, with the offset of the zone it was given in. */
  datatype Time = Time(instant: int, offset: int)

  const ZERO_INSTANT := 0
  const NANOSECONDS_PER_MINUTE := 60_000_000_000
  const EVIDENCE_MAX_AGE := 15 * NANOSECONDS_PER_MINUTE
  const MAX_OBSERVATIONS := 128

  const INPUT_SCHEMA := "agx/evidence-input/v1"
  const OBSERVATION_SCHEMA := "agx/evidence-observation/v1"
  const EVALUATOR := "agx/evidence-evaluator/v1"

  datatype Observation = Observation(
    schemaVersion: string, evaluatorVersion: string, source: Source, kind: Kind,
    installationId: string, deploymentDigest: string, subjectDigest: string,
    ref: Ref, fingerprint: string, outcome: ObservationOutcome, observedAt: Time)

  datatype ProfileId = GitHubDelivery | MulticaExecution | NoProfile | OtherProfile(text: string)

  datatype Input = Input(
    schemaVersion: string, evaluatorVersion: string, installationId: string, deploymentDigest: string,
    subjectDigest: string, profile: ProfileId, evaluatedAt: Time,
    observations: seq<Observation>, diagnostics: seq<Code>)

  datatype Category = Preflight | OutcomeCategory | Freshness

  /** Diagnostic codes, in the alphabetical order of their texts.  `Foreign` is any other text. */
  datatype Code =
    | CollectorSourceInvalid | DeploymentMismatch | DiagnosticUnsupported | EvaluatedAtInvalid
    | EvaluatorUnsupported | GitHubCollectorFailed | InstallationInvalid | InstallationMismatch
    | KindUnsupported | MulticaCollectorFailed | ObservationAbsent | ObservationAmbiguous
    | ObservationDrifted | ObservationExpired | ObservationFuture | ObservationInvalid
    | ObservationLimit | ObservationRejected | ProfileLegacyReceipt | ProfileMismatch
    | ProfileMissing | ProfileRequired | ProfileUnsupported | RevisionMismatch
    | SchemaUnsupported | SourceMismatch | SubjectIncomplete | SubjectMismatch
    | Foreign(text: string)

  function Rank(code: Code): int {
    match code
    case CollectorSourceInvalid => 0
    case DeploymentMismatch => 1
    case DiagnosticUnsupported => 2
    case EvaluatedAtInvalid => 3
    case EvaluatorUnsupported => 4
    case GitHubCollectorFailed => 5
    case InstallationInvalid => 6
    case InstallationMismatch => 7
    case KindUnsupported => 8
    case MulticaCollectorFailed => 9
    case ObservationAbsent => 10
    case ObservationAmbiguous => 11
    case ObservationDrifted => 12
    case ObservationExpired => 13
    case ObservationFuture => 14
    case ObservationInvalid => 15
    case ObservationLimit => 16
    case ObservationRejected => 17
    case ProfileLegacyReceipt => 18
    case ProfileMismatch => 19
    case ProfileMissing => 20
    case ProfileRequired => 21
    case ProfileUnsupported => 22
    case RevisionMismatch => 23
    case SchemaUnsupported => 24
    case SourceMismatch => 25
    case SubjectIncomplete => 26
    case SubjectMismatch => 27
    case Foreign(_) => 28
  }

  /** The texts a diagnostic can carry.  Only which one it is matters here. */
  datatype Message =
    | UnsupportedInputSchema | UnsupportedEvaluator | ExplicitProfileRequired | UnsupportedProfile
    | InvalidInstallation | DigestsRequired | EvaluationTimeInvalid | TooManyObservations
    | UnsupportedObservationSchema | UnsupportedObservationEvaluator | UnsupportedKind | InvalidObservationInstallation
    | InvalidObservationDigest | ObservationTimeInvalid | InvalidObservationOutcome | ResourceTypeMismatch
    | InvalidHashedIdentity | InvalidUuid | InvalidRevision | RevisionRequired
    | RevisionNotAllowed | NumberRequired | OnlyNumberAllowed | StrictUuidRequired
    | NumberNotAllowed | TaskIdentityRequired | OneTaskIdentityOnly | HashedIdentityRequired
    | UnexpectedIdentityField | LegacyReceiptOverride | PersistedProfileMissing | ProfileConflict
    | SelectorsIncomplete | SelectorsConflict | GitHubCollection | MulticaCollection
    | UnsupportedCollector | UnsupportedDiagnosticCode | SourceDiffersFromKind | ConflictingObservations
    | OtherInstallation | OtherDeployment | OtherSubject | DidNotMatch
    | InTheFuture | Stale | MultipleOfOneKind | RevisionsDoNotMatch

  datatype Diagnostic = Diagnostic(code: Code, category: Category, message: Message)

  // ---------------------------------------------------------------- requirement tables

  datatype RequirementId =
    | NeedControlRepository | NeedContractsRepository | NeedProject | NeedProjectItem
    | NeedContractIssue | NeedFirstWrite | NeedDelivery | NeedVerifier
    | NeedWorkspace | NeedRuntime | NeedAgent | NeedExecution

  /** A requirement is met by any one of its kinds, earlier kinds first.  Its code and its next step
      are functions of its id in the source's table and are left out. */
  datatype Requirement = Requirement(id: RequirementId, kinds: seq<Kind>)

  const GITHUB_REQUIREMENTS: seq<Requirement> := [
    Requirement(NeedControlRepository, [ControlRepository]),
    Requirement(NeedContractsRepository, [ContractsRepository]),
    Requirement(NeedProject, [Project]),
    Requirement(NeedProjectItem, [ProjectItem]),
    Requirement(NeedContractIssue, [ContractIssue]),
    Requirement(NeedFirstWrite, [AgentFirstWrite, CurrentWork]),
    Requirement(NeedDelivery, [DeliveryPROpen, DeliveryResult]),
    Requirement(NeedVerifier, [ChecksPassed, IndependentVerifier])]

  const MULTICA_REQUIREMENTS: seq<Requirement> := [
    Requirement(NeedWorkspace, [Workspace]),
    Requirement(NeedRuntime, [RuntimeOnline]),
    Requirement(NeedAgent, [Agent]),
    Requirement(NeedExecution, [TaskCompleted, RunCompleted])]

  function ProfileRequirements(profile: ProfileId): Option<seq<Requirement>> {
    match profile
    case GitHubDelivery => Some(GITHUB_REQUIREMENTS)
    case MulticaExecution => Some(GITHUB_REQUIREMENTS + MULTICA_REQUIREMENTS)
    case _ => None
  }

  /** What a receipt lists when the profile is unknown: nothing. */
  function RequirementsOf(profile: ProfileId): seq<Requirement> {
    match ProfileRequirements(profile)
    case Some(requirements) => requirements
    case None => []
  }

  function SourceForKind(kind: Kind): Source {
    match kind
    case Workspace | RuntimeOnline | Agent | TaskCompleted | RunCompleted => FromMultica
    case UnknownKind(text) => if "multica." <= text then FromMultica else FromGitHub
    case _ => FromGitHub
  }

  predicate KindRelevant(profile: ProfileId, kind: Kind) {
    profile.MulticaExecution? || SourceForKind(kind) == FromGitHub
  }

  predicate RequiresRevision(kind: Kind) {
    kind.AgentFirstWrite? || kind.CurrentWork? || kind.DeliveryPROpen? || kind.DeliveryResult? ||
    kind.ChecksPassed? || kind.IndependentVerifier?
  }

  function ResourceTypeForKind(kind: Kind): ResourceType {
    match kind
    case ControlRepository | ContractsRepository => RepositoryResource
    case Project => ProjectResource
    case ProjectItem => ProjectItemResource
    case ContractIssue => IssueResource
    case AgentFirstWrite | CurrentWork => CommitResource
    case DeliveryPROpen | DeliveryResult => PullRequestResource
    case ChecksPassed | IndependentVerifier => CheckResource
    case Workspace => WorkspaceResource
    case RuntimeOnline => RuntimeResource
    case Agent => AgentResource
    case TaskCompleted => TaskResource
    case RunCompleted => RunResource
    case UnknownKind(_) => OtherResource("")
  }

  // ---------------------------------------------------------------- formats

  predicate IsLowerHex(c: char) {
    '0' <= c <= '9' || 'a' <= c <= 'f'
  }

  predicate Hex(s: string, length: nat) {
    |s| == length && forall c :: c in s ==> IsLowerHex(c)
  }

  predicate InstallationFormat(s: string) {
    |s| == 24 && s[..8] == "install-" && Hex(s[8..], 16)
  }

  predicate UuidFormat(s: string) {
    && |s| == 36
    && s[8] == '-' && s[13] == '-' && s[18] == '-' && s[23] == '-'
    && (forall i :: 0 <= i < 36 && i != 8 && i != 13 && i != 18 && i != 23 ==> IsLowerHex(s[i]))
    && '1' <= s[14] <= '5'
    && (s[19] == '8' || s[19] == '9' || s[19] == 'a' || s[19] == 'b')
  }

  predicate ValidTime(t: Time) {
    t.instant != ZERO_INSTANT && t.offset == 0
  }
}
