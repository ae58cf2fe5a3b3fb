/**
 Launch plans: the one function that moves a plan from phase to phase, what is true of every plan it can
 produce, and which histories end in which status.
 */
module LaunchPlan {
  import opened Wrappers

  datatype Fact<T> = Known(value: T) | Unknown(reason: string, observedAt: string)

  datatype Outcome = Succeeded | Degraded | Failed | Incomplete

  datatype Phase =
    | Prepared
    | AwaitingConfirmation
    | Applying
    | Observing
    | Ended(outcome: Outcome)   // `succeeded`, `degraded`, `failed` or `incomplete`
    | Cancelled
    | RequiresRestart

  datatype Token = Token(planId: string, revisionId: string, planHash: string, issuedAt: string)

  datatype Event =
    | PreparedOk
    | PreparedFailed(reason: string)
    | Confirmed(token: Token)
    | Rejected
    | ProcessStarted
    | ApplyFailed(reason: string)
    | Observed(outcome: Outcome, note: Option<string>)
    | SwitchRequested
    | TargetRequiresRestart

  datatype Plan = Plan(
    planId: string, revisionId: string, planHash: string, phase: Phase, createdAt: string,
    confirmedAt: Fact<string>, failureReason: Fact<string>, observedOutcome: Fact<Outcome>)

  function Create(planId: string, revisionId: string, planHash: string, createdAt: string): Plan {
    Plan(planId, revisionId, planHash, Prepared, createdAt,
         Unknown("not-yet-confirmed", createdAt), Unknown("no-failure-recorded", createdAt),
         Unknown("not-yet-observed", createdAt))
  }

  datatype Refusal = NotAwaitingConfirmation | StaleToken | InvalidTransition

  function ValidateToken(plan: Plan, token: Token): Result<(), Refusal> {
    if !plan.phase.AwaitingConfirmation? then Err(NotAwaitingConfirmation)
    else if token.planId != plan.planId || token.revisionId != plan.revisionId || token.planHash != plan.planHash
    then Err(StaleToken)
    else Ok(())
  }

  function WithFailure(plan: Plan, phase: Phase, reason: string): Plan {
    plan.(phase := phase, failureReason := Known(reason))
  }

  const RESTART_REASON := "already-running-session-target"
  const REJECT_REASON := "user-rejected-confirmation"
  const SWITCH_REASON := "switch-requested-new-configuration-selected"

  function Transition(plan: Plan, event: Event): Result<Plan, Refusal> {
    match plan.phase
    case Prepared => (
      match event
      case PreparedOk => Ok(plan.(phase := AwaitingConfirmation))
      case PreparedFailed(reason) => Ok(WithFailure(plan, Ended(Failed), reason))
      case TargetRequiresRestart => Ok(WithFailure(plan, RequiresRestart, RESTART_REASON))
      case _ => Err(InvalidTransition))
    case AwaitingConfirmation => (
      match event
      case Confirmed(token) =>
        var valid := ValidateToken(plan, token);
        if valid.Err? then Err(valid.error) else Ok(plan.(phase := Applying, confirmedAt := Known(token.issuedAt)))
      case Rejected => Ok(WithFailure(plan, Cancelled, REJECT_REASON))
      case _ => Err(InvalidTransition))
    case Applying => (
      match event
      case ProcessStarted => Ok(plan.(phase := Observing))
      case ApplyFailed(reason) => Ok(WithFailure(plan, Ended(Failed), reason))
      case _ => Err(InvalidTransition))
    case Observing => (
      match event
      case Observed(outcome, note) =>
        var next := plan.(phase := Ended(outcome), observedOutcome := Known(outcome));
        Ok(if note.Some? then next.(failureReason := Known(note.value)) else next)
      case _ => Err(InvalidTransition))
    case Ended(outcome) =>
      if event.SwitchRequested? && (outcome.Succeeded? || outcome.Degraded?)
      then Ok(WithFailure(plan, RequiresRestart, SWITCH_REASON))
      else Err(InvalidTransition)
    case _ => Err(InvalidTransition)
  }

  datatype ApplyResult = ResultApplied | ResultDegraded

  function DeriveApplyResult(plan: Plan): Fact<ApplyResult> {
    match plan.observedOutcome
    case Known(Succeeded) => Known(ResultApplied)
    case Known(Degraded) => Known(ResultDegraded)
    case Known(_) => Unknown("launch-outcome", plan.createdAt)
    case Unknown(reason, observedAt) => Unknown(reason, observedAt)
  }

  // ---------------------------------------------------------------- histories

  /** The plan after the events, if every one of them is accepted. */
  function Play(plan: Plan, events: seq<Event>): Option<Plan> {
    if events == [] then Some(plan)
    else
      var before := Play(plan, events[..|events| - 1]);
      if before.None? then None
      else
        var next := Transition(before.value, events[|events| - 1]);
        if next.Ok? then Some(next.value) else None
  }

  function Rank(phase: Phase): nat {
    match phase
    case Prepared => 0
    case AwaitingConfirmation => 1
    case Applying => 2
    case Observing => 3
    case Ended(_) => 4
    case Cancelled => 4
    case RequiresRestart => 5
  }

  /** Every accepted event moves a plan forward, and changes neither what it is for nor what is already
      known of its confirmation. */
  lemma TransitionMovesForward(plan: Plan, event: Event)
    requires Transition(plan, event).Ok?
    ensures var next := Transition(plan, event).value;
            && Rank(plan.phase) < Rank(next.phase)
            && next == plan.(phase := next.phase, confirmedAt := next.confirmedAt, failureReason := next.failureReason,
                             observedOutcome := next.observedOutcome)
            && (next.confirmedAt == plan.confirmedAt
                  || (event.Confirmed? && next.confirmedAt == Known(event.token.issuedAt)))
  {
  }

  /** What is true of every plan there can be. */
  ghost predicate Sound(plan: Plan) {
    && (plan.phase.Ended? && !plan.phase.outcome.Failed? ==> plan.observedOutcome == Known(plan.phase.outcome))
    && (plan.phase.Ended? && plan.phase.outcome.Failed? ==>
          plan.observedOutcome.Unknown? || plan.observedOutcome == Known(Failed))
    && (Rank(plan.phase) <= 1 || plan.phase.Cancelled? ==> plan.confirmedAt.Unknown?)
    && (plan.phase.Applying? || plan.phase.Observing? ==> plan.confirmedAt.Known?)
    && (Rank(plan.phase) <= 3 || plan.phase.Cancelled? ==> plan.observedOutcome.Unknown?)
    && (plan.phase.RequiresRestart? && plan.observedOutcome.Known? ==>
          plan.observedOutcome.value.Succeeded? || plan.observedOutcome.value.Degraded?)
    && (plan.observedOutcome.Known? ==> plan.confirmedAt.Known?)
    && (plan.phase.Cancelled? || plan.phase.RequiresRestart? ==> plan.failureReason.Known?)
  }

  /** A plan takes at most five events, and is sound after each. */
  lemma {:induction false} HistoryIsSound(planId: string, revisionId: string, planHash: string, createdAt: string,
                                          events: seq<Event>)
    requires Play(Create(planId, revisionId, planHash, createdAt), events).Some?
    ensures var start := Create(planId, revisionId, planHash, createdAt);
            var plan := Play(start, events).value;
            && Sound(plan) && |events| <= Rank(plan.phase) <= 5
            && plan == start.(phase := plan.phase, confirmedAt := plan.confirmedAt, failureReason := plan.failureReason,
                              observedOutcome := plan.observedOutcome)
    decreases |events|
  {
    if events != [] {
      HistoryIsSound(planId, revisionId, planHash, createdAt, events[..|events| - 1]);
    }
  }

  /** The token that confirms a plan. */
  predicate Confirms(token: Token, plan: Plan) {
    token.planId == plan.planId && token.revisionId == plan.revisionId && token.planHash == plan.planHash
  }

  /** The path of a plan whose process ended as it should, and nothing else. */
  predicate ObservedPath(events: seq<Event>, plan: Plan, outcome: Outcome) {
    && |events| >= 4
    && events[0].PreparedOk?
    && events[1].Confirmed? && Confirms(events[1].token, plan)
    && events[2].ProcessStarted?
    && events[3].Observed? && events[3].outcome == outcome
  }

  /** How a plan got where it is, as far as a process was observed. */
  predicate GotThere(events: seq<Event>, start: Plan, plan: Plan) {
    && (plan.phase.Prepared? ==> events == [])
    && (plan.phase.AwaitingConfirmation? ==> |events| == 1 && events[0].PreparedOk?)
    && (plan.phase.Applying? ==>
          |events| == 2 && events[0].PreparedOk? && events[1].Confirmed? && Confirms(events[1].token, start))
    && (plan.phase.Observing? ==>
          |events| == 3 && events[0].PreparedOk? && events[1].Confirmed? && Confirms(events[1].token, start)
            && events[2].ProcessStarted?)
    && (plan.observedOutcome.Known? && !plan.phase.RequiresRestart? ==>
          |events| == 4 && ObservedPath(events, start, plan.observedOutcome.value))
    && (plan.observedOutcome.Known? && plan.phase.RequiresRestart? ==>
          |events| == 5 && ObservedPath(events, start, plan.observedOutcome.value) && events[4].SwitchRequested?)
  }

  lemma {:induction false} HistoryIsKnown(planId: string, revisionId: string, planHash: string, createdAt: string,
                                          events: seq<Event>)
    requires Play(Create(planId, revisionId, planHash, createdAt), events).Some?
    ensures var start := Create(planId, revisionId, planHash, createdAt);
            GotThere(events, start, Play(start, events).value)
    decreases |events|
  {
    HistoryIsSound(planId, revisionId, planHash, createdAt, events);
    if events != [] {
      var before := events[..|events| - 1];
      HistoryIsSound(planId, revisionId, planHash, createdAt, before);
      HistoryIsKnown(planId, revisionId, planHash, createdAt, before);
      assert forall i :: 0 <= i < |before| ==> events[i] == before[i];
    }
  }

  ghost predicate ShowsStatus(plan: Option<Plan>, outcome: Outcome) {
    plan.Some? && DeriveApplyResult(plan.value) == Known(if outcome.Succeeded? then ResultApplied else ResultDegraded)
  }

  /** The status says `applied` exactly of a plan that was prepared, confirmed by its own token, started
      and observed to succeed, and then switched away from at most once; `degraded` likewise. */
  lemma StatusExactly(planId: string, revisionId: string, planHash: string, createdAt: string, events: seq<Event>,
                      outcome: Outcome)
    requires outcome.Succeeded? || outcome.Degraded?
    ensures ShowsStatus(Play(Create(planId, revisionId, planHash, createdAt), events), outcome) <==>
      && ObservedPath(events, Create(planId, revisionId, planHash, createdAt), outcome)
      && (|events| == 4 || (|events| == 5 && events[4].SwitchRequested?))
  {
    var start := Create(planId, revisionId, planHash, createdAt);
    if ShowsStatus(Play(start, events), outcome) {
      HistoryIsKnown(planId, revisionId, planHash, createdAt, events);
    }
    if ObservedPath(events, start, outcome) && (|events| == 4 || (|events| == 5 && events[4].SwitchRequested?)) {
      PathIsPlayed(start, events, outcome);
    }
  }

  lemma PathIsPlayed(start: Plan, events: seq<Event>, outcome: Outcome)
    requires start.phase.Prepared? && ObservedPath(events, start, outcome) && |events| <= 5
    requires |events| == 5 ==> events[4].SwitchRequested? && (outcome.Succeeded? || outcome.Degraded?)
    ensures Play(start, events).Some? && Play(start, events).value.observedOutcome == Known(outcome)
  {
    hide Play;
    Unplayed(start, events);
    assert Play(start, events[..1]) == PlayOne(Some(start), events[0]);
    assert Play(start, events[..2]) == PlayOne(Play(start, events[..1]), events[1]);
    assert Play(start, events[..3]) == PlayOne(Play(start, events[..2]), events[2]);
    assert Play(start, events[..4]) == PlayOne(Play(start, events[..3]), events[3]);
    if |events| == 5 {
      assert Play(start, events[..5]) == PlayOne(Play(start, events[..4]), events[4]);
    }
  }

  /** The first plays of a history, one at a time. */
  lemma Unplayed(plan: Plan, events: seq<Event>)
    ensures forall k :: 0 <= k < |events| ==> Play(plan, events[..k + 1]) == PlayOne(Play(plan, events[..k]), events[k])
    ensures Play(plan, events[..0]) == Some(plan) && events[..|events|] == events
  {
    forall k | 0 <= k < |events| ensures Play(plan, events[..k + 1]) == PlayOne(Play(plan, events[..k]), events[k]) {
      assert events[..k + 1][..k] == events[..k];
    }
  }

  function PlayOne(plan: Option<Plan>, event: Event): Option<Plan> {
    if plan.None? || Transition(plan.value, event).Err? then None else Some(Transition(plan.value, event).value)
  }
}
