/**
 Any number of callers confirming, rejecting, launching and switching one plan, interleaved in any way.
 Each of them reads the plan, works out what it becomes, and saves that; all but a switch save only if
 the stored phase is still the one they expect, which the store does in one step.
 */
module Confirmation {
  import opened Wrappers
  import opened LaunchPlan

  datatype Job = Confirm(issuedAt: string) | Reject | Launch | Switch

  datatype Stage =
    | Ready
    | Loaded(plan: Plan)                                        // read, and worth going on with
    | Spawned(plan: Plan, outcome: Outcome, note: Option<string>)  // the process has run; nothing is saved yet
    | Started(plan: Plan, outcome: Outcome, note: Option<string>)  // `process-started` is saved
    | Saved(plan: Plan)                                         // the call returned this plan
    | Threw

  datatype Caller = Caller(job: Job, stage: Stage)

  /** `log` and `spawns` record what happened to the plan; no caller reads them. */
  datatype State = State(stored: Plan, log: seq<Event>, spawns: nat, callers: seq<Caller>)

  /** How a launch goes on once it has read the plan: it fails before a process runs, or one runs. */
  datatype Choice = GiveUp(reason: string) | Spawn(outcome: Outcome, note: Option<string>)

  function TokenOf(plan: Plan, issuedAt: string): Token {
    Token(plan.planId, plan.revisionId, plan.planHash, issuedAt)
  }

  function At(s: State, i: nat, stage: Stage): State
    requires i < |s.callers|
  {
    s.(callers := s.callers[i := s.callers[i].(stage := stage)])
  }

  /** Moves the plan by `event` and saves it if the stored phase is `expected`. */
  function SaveIfPhase(s: State, i: nat, plan: Plan, event: Event, expected: Phase, saved: Plan -> Stage): State
    requires i < |s.callers|
  {
    var next := Transition(plan, event);
    if next.Err? || s.stored.phase != expected then At(s, i, Threw)
    else At(s, i, saved(next.value)).(stored := next.value, log := s.log + [event])
  }

  /** A switch saves unconditionally. */
  function Save(s: State, i: nat, plan: Plan, event: Event): State
    requires i < |s.callers|
  {
    var next := Transition(plan, event);
    if next.Err? then At(s, i, Threw)
    else At(s, i, Saved(next.value)).(stored := next.value, log := if s.stored == plan then s.log + [event] else s.log)
  }

  /** Whether a caller goes on with the plan it has read. */
  predicate Accepts(job: Job, plan: Plan) {
    match job
    case Confirm(issuedAt) => Transition(plan, Confirmed(TokenOf(plan, issuedAt))).Ok?
    case Reject => Transition(plan, Rejected).Ok?
    case Launch => plan.phase.Applying?
    case Switch => Transition(plan, SwitchRequested).Ok?
  }

  /** The next thing caller `i` does, up to its next wait. */
  function Step(s: State, i: nat, choice: Choice): State
    requires i < |s.callers|
  {
    var c := s.callers[i];
    match c.stage
    case Ready => if Accepts(c.job, s.stored) then At(s, i, Loaded(s.stored)) else At(s, i, Threw)
    case Loaded(plan) => (
      match c.job
      case Confirm(issuedAt) => SaveIfPhase(s, i, plan, Confirmed(TokenOf(plan, issuedAt)), plan.phase, p => Saved(p))
      case Reject => SaveIfPhase(s, i, plan, Rejected, plan.phase, p => Saved(p))
      case Launch => (
        match choice
        case GiveUp(reason) => SaveIfPhase(s, i, plan, ApplyFailed(reason), Applying, p => Saved(p))
        case Spawn(outcome, note) => At(s, i, Spawned(plan, outcome, note)).(spawns := s.spawns + 1))
      case Switch => Save(s, i, plan, SwitchRequested))
    case Spawned(plan, outcome, note) =>
      SaveIfPhase(s, i, plan, ProcessStarted, Applying, p => Started(p, outcome, note))
    case Started(plan, outcome, note) => SaveIfPhase(s, i, plan, Observed(outcome, note), Observing, p => Saved(p))
    case _ => s
  }

  /** One turn of a schedule: whose it is, and how a launch goes on in it. */
  type Turn = (nat, Choice)

  function Take(s: State, turn: Turn): State {
    if turn.0 < |s.callers| then Step(s, turn.0, turn.1) else s
  }

  /** Runs a schedule; a caller that is not scheduled again has stopped there. */
  function Run(s: State, schedule: seq<Turn>): State
    decreases |schedule|
  {
    if schedule == [] then s else Run(Take(s, schedule[0]), schedule[1..])
  }

  /** A prepared plan, and callers that have not begun. */
  ghost predicate Begins(s: State, created: Plan) {
    && created == Create(created.planId, created.revisionId, created.planHash, created.createdAt)
    && |s.log| == 1 && (s.log[0].PreparedOk? || s.log[0].PreparedFailed?)
    && Transition(created, s.log[0]) == Ok(s.stored)
    && s.spawns == 0
    && forall i :: 0 <= i < |s.callers| ==> s.callers[i].stage.Ready?
  }

  // ---------------------------------------------------------------- the invariant

  /** A plan read earlier: the stored one, or one it has moved on from. */
  ghost predicate Older(plan: Plan, stored: Plan) {
    && Rank(plan.phase) <= Rank(stored.phase)
    && (Rank(plan.phase) == Rank(stored.phase) ==> plan == stored)
  }

  ghost predicate CallerOk(c: Caller, stored: Plan) {
    && (!c.stage.Ready? && !c.stage.Threw? ==> Older(c.stage.plan, stored))
    && (c.stage.Loaded? ==> Accepts(c.job, c.stage.plan))
    && (c.stage.Loaded? && c.job.Switch? ==>
          stored == c.stage.plan || Transition(c.stage.plan, SwitchRequested) == Ok(stored))
    && (c.stage.Spawned? ==> c.job.Launch? && c.stage.plan.phase.Applying?)
    && (c.stage.Started? ==> c.job.Launch? && c.stage.plan.phase.Observing?)
    && (Decided(c) ==> Rank(stored.phase) >= 2)
    && ((c.job.Confirm? || c.job.Reject?) && c.stage.Threw? ==> Rank(stored.phase) >= 2)
    && (Claimed(c) ==> Rank(stored.phase) >= 3)
    && (c.job.Launch? && c.stage.Saved? ==> Rank(stored.phase) >= 4)
  }

  /** A confirm or a reject that returned. */
  predicate Decided(c: Caller) {
    (c.job.Confirm? || c.job.Reject?) && c.stage.Saved?
  }

  /** A launch that has saved anything. */
  predicate Claimed(c: Caller) {
    c.job.Launch? && (c.stage.Started? || c.stage.Saved?)
  }

  ghost predicate AtMostOne(callers: seq<Caller>, p: Caller -> bool) {
    forall i, j :: 0 <= i < j < |callers| ==> !(p(callers[i]) && p(callers[j]))
  }

  ghost predicate Inv(s: State, created: Plan) {
    && Play(created, s.log) == Some(s.stored)
    && Rank(s.stored.phase) >= 1
    && (forall i :: 0 <= i < |s.callers| ==> CallerOk(s.callers[i], s.stored))
    && AtMostOne(s.callers, Decided)
    && AtMostOne(s.callers, Claimed)
    && (s.stored.confirmedAt.Known? || s.stored.phase.Cancelled? ==> SomeCaller(s.callers, Decided))
    && (s.stored.observedOutcome.Known? ==> SomeCaller(s.callers, c => Recorded(c, s.stored.observedOutcome)))
  }

  /** A launch that returned with this outcome. */
  predicate Recorded(c: Caller, outcome: Fact<Outcome>) {
    c.job.Launch? && c.stage.Saved? && c.stage.plan.observedOutcome == outcome
  }

  ghost predicate SomeCaller(callers: seq<Caller>, p: Caller -> bool) {
    exists i :: 0 <= i < |callers| && p(callers[i])
  }

  lemma BeginsWell(s: State, created: Plan)
    requires Begins(s, created)
    ensures Inv(s, created)
  {}

  lemma PlayedOn(created: Plan, log: seq<Event>, stored: Plan, event: Event)
    requires Play(created, log) == Some(stored) && Transition(stored, event).Ok?
    ensures Play(created, log + [event]) == Some(Transition(stored, event).value)
  {}

  /** A caller's own facts outlast every accepted event. */
  lemma CallerStays(c: Caller, stored: Plan, event: Event)
    requires CallerOk(c, stored) && Transition(stored, event).Ok?
    ensures CallerOk(c, Transition(stored, event).value)
  {
    TransitionMovesForward(stored, event);
  }

  lemma SomeStays(callers: seq<Caller>, i: nat, c: Caller, p: Caller -> bool)
    requires SomeCaller(callers, p) && i < |callers| && !p(callers[i])
    ensures SomeCaller(callers[i := c], p)
  {
    var k :| 0 <= k < |callers| && p(callers[k]);
    assert callers[i := c][k] == callers[k];
  }

  lemma OneStays(callers: seq<Caller>, i: nat, c: Caller, p: Caller -> bool)
    requires AtMostOne(callers, p) && i < |callers|
    requires !p(c) || p(callers[i]) || forall j :: 0 <= j < |callers| ==> !p(callers[j])
    ensures AtMostOne(callers[i := c], p)
  {}

  predicate Underway(stage: Stage) {
    stage.Ready? || stage.Loaded? || stage.Spawned? || stage.Started?
  }

  /** Moving one caller on without touching the plan. */
  lemma CallerMoves(s: State, i: nat, stage: Stage, created: Plan)
    requires Inv(s, created) && i < |s.callers| && Underway(s.callers[i].stage)
    requires stage.Loaded? || stage.Spawned? || stage.Threw?
    requires CallerOk(s.callers[i].(stage := stage), s.stored)
    ensures Inv(At(s, i, stage), created)
  {
    var c := s.callers[i].(stage := stage);
    OneStays(s.callers, i, c, Decided);
    OneStays(s.callers, i, c, Claimed);
    if s.stored.confirmedAt.Known? || s.stored.phase.Cancelled? {
      SomeStays(s.callers, i, c, Decided);
    }
    if s.stored.observedOutcome.Known? {
      SomeStays(s.callers, i, c, c => Recorded(c, s.stored.observedOutcome));
    }
  }

  /** What saving an event asks of the caller that saves it. */
  ghost predicate MaySave(before: Caller, after: Caller, stored: Plan, event: Event)
    requires Transition(stored, event).Ok?
  {
    var next := Transition(stored, event).value;
    && Underway(before.stage) && before.job == after.job
    && CallerOk(after, next)
    && (Decided(after) ==> Rank(stored.phase) == 1)
    && (Claimed(after) ==> Claimed(before) || Rank(stored.phase) == 2)
    && (event.Confirmed? || event.Rejected? ==> Decided(after))
    && (event.Observed? ==> Recorded(after, next.observedOutcome))
  }

  lemma NobodyYet(s: State, created: Plan)
    requires Inv(s, created)
    ensures Rank(s.stored.phase) == 1 ==> forall j :: 0 <= j < |s.callers| ==> !Decided(s.callers[j])
    ensures Rank(s.stored.phase) == 2 ==> forall j :: 0 <= j < |s.callers| ==> !Claimed(s.callers[j])
  {}

  /** One caller moves the plan on. */
  lemma CallerSaves(s: State, i: nat, event: Event, stage: Stage, created: Plan)
    requires Inv(s, created) && i < |s.callers| && Transition(s.stored, event).Ok?
    requires MaySave(s.callers[i], s.callers[i].(stage := stage), s.stored, event)
    ensures Inv(At(s, i, stage).(stored := Transition(s.stored, event).value, log := s.log + [event]), created)
  {
    hide CallerOk, Play;
    var c := s.callers[i].(stage := stage);
    var next := Transition(s.stored, event).value;
    var after := s.callers[i := c];
    PlayedOn(created, s.log, s.stored, event);
    TransitionMovesForward(s.stored, event);
    forall j | 0 <= j < |after| ensures CallerOk(after[j], next) {
      if j != i { CallerStays(s.callers[j], s.stored, event); }
    }
    NobodyYet(s, created);
    OneStays(s.callers, i, c, Decided);
    OneStays(s.callers, i, c, Claimed);
    DecisionsAreKept(s, i, event, c);
    OutcomesAreKept(s, i, event, c);
  }

  lemma DecisionsAreKept(s: State, i: nat, event: Event, c: Caller)
    requires i < |s.callers| && Transition(s.stored, event).Ok? && Underway(s.callers[i].stage)
    requires event.Confirmed? || event.Rejected? ==> Decided(c)
    requires s.stored.confirmedAt.Known? || s.stored.phase.Cancelled? ==> SomeCaller(s.callers, Decided)
    ensures var next := Transition(s.stored, event).value;
            next.confirmedAt.Known? || next.phase.Cancelled? ==> SomeCaller(s.callers[i := c], Decided)
  {
    if event.Confirmed? || event.Rejected? {
      assert s.callers[i := c][i] == c;
    } else if SomeCaller(s.callers, Decided) {
      SomeStays(s.callers, i, c, Decided);
    }
  }

  lemma OutcomesAreKept(s: State, i: nat, event: Event, c: Caller)
    requires i < |s.callers| && Transition(s.stored, event).Ok? && Underway(s.callers[i].stage)
    requires event.Observed? ==> Recorded(c, Transition(s.stored, event).value.observedOutcome)
    requires s.stored.observedOutcome.Known? ==> SomeCaller(s.callers, c => Recorded(c, s.stored.observedOutcome))
    ensures var next := Transition(s.stored, event).value;
            next.observedOutcome.Known? ==> SomeCaller(s.callers[i := c], c => Recorded(c, next.observedOutcome))
  {
    var next := Transition(s.stored, event).value;
    if event.Observed? {
      assert s.callers[i := c][i] == c;
    } else if s.stored.observedOutcome.Known? {
      assert next.observedOutcome == s.stored.observedOutcome;
      var k :| 0 <= k < |s.callers| && Recorded(s.callers[k], s.stored.observedOutcome);
      assert s.callers[i := c][k] == s.callers[k];
    }
  }

  // ---------------------------------------------------------------- every step keeps it

  /** A save that is expected to find the plan where the caller left it. */
  lemma SavesKeep(s: State, i: nat, plan: Plan, event: Event, expected: Phase, saved: Plan -> Stage, created: Plan)
    requires Inv(s, created) && i < |s.callers| && Underway(s.callers[i].stage)
    requires Older(plan, s.stored) && plan.phase == expected && Transition(plan, event).Ok?
    requires CallerOk(s.callers[i].(stage := Threw), s.stored) || s.stored.phase == expected
    requires var stage := saved(Transition(plan, event).value);
             s.stored == plan ==> MaySave(s.callers[i], s.callers[i].(stage := stage), plan, event)
    ensures Inv(SaveIfPhase(s, i, plan, event, expected, saved), created)
  {
    hide Inv, CallerOk, MaySave;
    if s.stored.phase == expected {
      assert s.stored == plan;
      CallerSaves(s, i, event, saved(Transition(plan, event).value), created);
    } else {
      CallerMoves(s, i, Threw, created);
    }
  }

  /** A switch finds the plan where it left it, or already switched. */
  lemma SwitchKeepsInv(s: State, i: nat, plan: Plan, created: Plan)
    requires Inv(s, created) && i < |s.callers| && s.callers[i] == Caller(Switch, Loaded(plan))
    ensures Inv(Save(s, i, plan, SwitchRequested), created)
  {
    assert CallerOk(s.callers[i], s.stored);
    var next := Transition(plan, SwitchRequested).value;
    if s.stored == plan {
      CallerSaves(s, i, SwitchRequested, Saved(next), created);
    } else {
      SwitchedAgain(s, i, next, created);
    }
  }

  lemma SwitchedAgain(s: State, i: nat, next: Plan, created: Plan)
    requires Inv(s, created) && i < |s.callers| && s.callers[i].job.Switch? && s.callers[i].stage.Loaded?
      && s.stored == next
    ensures Inv(At(s, i, Saved(next)), created)
  {
    hide Play;
    var c := s.callers[i].(stage := Saved(next));
    OneStays(s.callers, i, c, Decided);
    OneStays(s.callers, i, c, Claimed);
    if s.stored.confirmedAt.Known? || s.stored.phase.Cancelled? {
      SomeStays(s.callers, i, c, Decided);
    }
    if s.stored.observedOutcome.Known? {
      SomeStays(s.callers, i, c, c => Recorded(c, s.stored.observedOutcome));
    }
  }

  lemma LoadedKeepsInv(s: State, i: nat, choice: Choice, created: Plan)
    requires Inv(s, created) && i < |s.callers| && s.callers[i].stage.Loaded?
    ensures Inv(Step(s, i, choice), created)
  {
    var plan := s.callers[i].stage.plan;
    assert CallerOk(s.callers[i], s.stored);
    match s.callers[i].job
    case Confirm(issuedAt) =>
      SavesKeep(s, i, plan, Confirmed(TokenOf(plan, issuedAt)), plan.phase, p => Saved(p), created);
    case Reject => SavesKeep(s, i, plan, Rejected, plan.phase, p => Saved(p), created);
    case Launch =>
      if choice.GiveUp? {
        SavesKeep(s, i, plan, ApplyFailed(choice.reason), Applying, p => Saved(p), created);
      } else {
        CallerMoves(s.(spawns := s.spawns + 1), i, Spawned(plan, choice.outcome, choice.note), created);
      }
    case Switch => SwitchKeepsInv(s, i, plan, created);
  }

  lemma StepKeepsInv(s: State, i: nat, choice: Choice, created: Plan)
    requires Inv(s, created) && i < |s.callers|
    ensures Inv(Step(s, i, choice), created)
  {
    var c := s.callers[i];
    assert CallerOk(c, s.stored);
    match c.stage
    case Ready => CallerMoves(s, i, if Accepts(c.job, s.stored) then Loaded(s.stored) else Threw, created);
    case Loaded(plan) => LoadedKeepsInv(s, i, choice, created);
    case Spawned(plan, outcome, note) =>
      SavesKeep(s, i, plan, ProcessStarted, Applying, p => Started(p, outcome, note), created);
    case Started(plan, outcome, note) =>
      SavesKeep(s, i, plan, Observed(outcome, note), Observing, p => Saved(p), created);
    case _ =>
  }

  lemma {:induction false} RunKeepsInv(s: State, schedule: seq<Turn>, created: Plan)
    requires Inv(s, created)
    ensures Inv(Run(s, schedule), created)
    decreases |schedule|
  {
    if schedule != [] {
      if schedule[0].0 < |s.callers| {
        StepKeepsInv(s, schedule[0].0, schedule[0].1, created);
      }
      RunKeepsInv(Take(s, schedule[0]), schedule[1..], created);
    }
  }

  // ---------------------------------------------------------------- what callers may rely on

  /** A step leaves the stored plan alone or moves it by one accepted event. */
  lemma OnlyTransitions(s: State, i: nat, choice: Choice, created: Plan)
    requires Inv(s, created) && i < |s.callers|
    ensures var after := Step(s, i, choice);
            || (after.stored == s.stored && after.log == s.log)
            || (exists event :: Transition(s.stored, event) == Ok(after.stored) && after.log == s.log + [event])
  {
    assert CallerOk(s.callers[i], s.stored);
  }

  /** However the callers interleave: the stored plan is the one its log of at most five accepted events
      makes of the created one; at most one confirm or reject returns, and one has if the plan is
      confirmed or cancelled; at most one launch saves anything, so at most one records an outcome, and
      the stored outcome is the one it recorded. */
  lemma OneShot(s: State, schedule: seq<Turn>, created: Plan)
    requires Begins(s, created)
    ensures var after := Run(s, schedule);
            && Play(created, after.log) == Some(after.stored) && |after.log| <= 5 && Sound(after.stored)
            && AtMostOne(after.callers, Decided) && AtMostOne(after.callers, Claimed)
            && (after.stored.confirmedAt.Known? || after.stored.phase.Cancelled? ==> SomeCaller(after.callers, Decided))
            && (after.stored.observedOutcome.Known? ==>
                  SomeCaller(after.callers, c => Recorded(c, after.stored.observedOutcome)))
  {
    BeginsWell(s, created);
    RunKeepsInv(s, schedule, created);
    var after := Run(s, schedule);
    HistoryIsSound(created.planId, created.revisionId, created.planHash, created.createdAt, after.log);
  }

  /** A plan that still waits has turned no confirmation away. */
  lemma NotTurnedAway(s: State, schedule: seq<Turn>, created: Plan, i: nat)
    requires Begins(s, created) && i < |Run(s, schedule).callers|
    requires Run(s, schedule).stored.phase.AwaitingConfirmation?
    ensures var c := Run(s, schedule).callers[i]; c.job.Confirm? || c.job.Reject? ==> c.stage.Ready? || c.stage.Loaded?
  {
    BeginsWell(s, created);
    RunKeepsInv(s, schedule, created);
    assert CallerOk(Run(s, schedule).callers[i], Run(s, schedule).stored);
  }

  /** The record is exclusive, the process is not: two launches can both run it before either saves. */
  lemma TwoProcessesOneRecord(created: Plan, issuedAt: string)
    requires created == Create(created.planId, created.revisionId, created.planHash, created.createdAt)
    ensures exists s, schedule :: Begins(s, created) && Run(s, schedule).spawns == 2
  {
    var stored := Transition(created, PreparedOk).value;
    var s := State(stored, [PreparedOk], 0,
                   [Caller(Confirm(issuedAt), Ready), Caller(Launch, Ready), Caller(Launch, Ready)]);
    var go := Spawn(Succeeded, None);
    var confirmed := Step(Step(s, 0, go), 0, go);
    var loaded := Step(Step(confirmed, 1, go), 2, go);
    var spawned := Step(Step(loaded, 1, go), 2, go);
    assert Begins(s, created) && confirmed.stored.phase.Applying? && spawned.spawns == 2;
    assert Run(loaded, [(1, go), (2, go)] + []) == spawned by { InTurn(loaded, 1, 2, go, []); }
    assert Run(confirmed, [(1, go), (2, go)] + ([(1, go), (2, go)] + [])) == spawned by {
      InTurn(confirmed, 1, 2, go, [(1, go), (2, go)] + []);
    }
    InTurn(s, 0, 0, go, [(1, go), (2, go)] + ([(1, go), (2, go)] + []));
  }

  /** Two steps of a schedule. */
  lemma InTurn(s: State, i: nat, j: nat, choice: Choice, rest: seq<Turn>)
    requires i < |s.callers| && j < |s.callers|
    ensures |Step(s, i, choice).callers| == |s.callers|
    ensures Run(s, [(i, choice), (j, choice)] + rest) == Run(Step(Step(s, i, choice), j, choice), rest)
  {}

  // ---------------------------------------------------------------- how many processes run

  /** A launch that has read the plan and saved nothing: it will run the process, or has run it. */
  predicate Active(c: Caller) {
    c.job.Launch? && (c.stage.Loaded? || c.stage.Spawned?)
  }

  /** Caller `i` is a launch about to read a plan that it will go on with. */
  predicate LetIn(s: State, i: nat) {
    i < |s.callers| && s.callers[i] == Caller(Launch, Ready) && s.stored.phase.Applying?
  }

  ghost predicate NobodyActive(callers: seq<Caller>) {
    forall j :: 0 <= j < |callers| ==> !Active(callers[j])
  }

  /** What a lock around launching would see to: a launch is let in only while no other is active.  One
      that stopped before saving still counts. */
  ghost predicate OneAtATime(s: State, schedule: seq<Turn>)
    decreases |schedule|
  {
    schedule == [] ||
    ((LetIn(s, schedule[0].0) ==> NobodyActive(s.callers)) && OneAtATime(Take(s, schedule[0]), schedule[1..]))
  }

  /** At most one active launch; no process before it has run; after it has, the plan has moved on or the
      launch that ran it is still active. */
  ghost predicate OneProcess(s: State) {
    && AtMostOne(s.callers, Active)
    && s.spawns <= 1
    && (forall i :: 0 <= i < |s.callers| && Active(s.callers[i]) ==> (s.callers[i].stage.Loaded? <==> s.spawns == 0))
    && (s.spawns == 1 ==> Rank(s.stored.phase) >= 3 || SomeCaller(s.callers, Ran))
  }

  lemma TakeKeepsInv(s: State, turn: Turn, created: Plan)
    requires Inv(s, created)
    ensures Inv(Take(s, turn), created)
  {
    if turn.0 < |s.callers| {
      StepKeepsInv(s, turn.0, turn.1, created);
    }
  }

  predicate Ran(c: Caller) {
    Active(c) && c.stage.Spawned?
  }

  /** What one step of one caller may do to the count. */
  lemma OneProcessStays(s: State, after: State, i: nat)
    requires OneProcess(s) && i < |s.callers| == |after.callers|
    requires after.callers == s.callers[i := after.callers[i]] && Rank(s.stored.phase) <= Rank(after.stored.phase)
    requires Active(after.callers[i]) ==> Active(s.callers[i]) || (NobodyActive(s.callers) && s.spawns == 0)
    requires Active(after.callers[i]) ==> (after.callers[i].stage.Loaded? <==> after.spawns == 0)
    requires Active(s.callers[i]) || after.spawns == s.spawns
    requires after.spawns <= 1
    requires Ran(s.callers[i]) ==> Rank(after.stored.phase) >= 3
    requires after.spawns == 1 ==> s.spawns == 1 || Ran(after.callers[i])
    ensures OneProcess(after)
  {
    OneStays(s.callers, i, after.callers[i], Active);
    if after.spawns == 1 && Rank(after.stored.phase) < 3 && !Ran(after.callers[i]) {
      SomeStays(s.callers, i, after.callers[i], Ran);
    } else if Ran(after.callers[i]) {
      assert SomeCaller(after.callers, Ran);
    }
  }

  lemma StepMovesForward(s: State, i: nat, choice: Choice, created: Plan)
    requires Inv(s, created) && i < |s.callers|
    ensures Rank(s.stored.phase) <= Rank(Step(s, i, choice).stored.phase)
  {
    hide Inv, Step;
    OnlyTransitions(s, i, choice, created);
    var after := Step(s, i, choice);
    if event :| Transition(s.stored, event) == Ok(after.stored) {
      TransitionMovesForward(s.stored, event);
    }
  }

  /** What one step does to its caller and to the count of processes. */
  lemma StepOfLaunch(s: State, i: nat, choice: Choice, created: Plan)
    requires Inv(s, created) && i < |s.callers|
    ensures var c := s.callers[i]; var after := Step(s, i, choice);
            && after.callers == s.callers[i := after.callers[i]]
            && after.spawns == s.spawns + (if Active(c) && !Ran(c) && choice.Spawn? then 1 else 0)
            && (Active(after.callers[i]) && !Ran(after.callers[i]) ==> LetIn(s, i))
            && (Ran(after.callers[i]) <==> Active(c) && !Ran(c) && choice.Spawn?)
            && (Ran(c) ==> Rank(after.stored.phase) >= 3)
  {
    hide Play;
    assert CallerOk(s.callers[i], s.stored);
  }

  lemma TakeKeepsOneProcess(s: State, turn: Turn, created: Plan)
    requires Inv(s, created) && OneProcess(s)
    requires LetIn(s, turn.0) ==> NobodyActive(s.callers)
    ensures OneProcess(Take(s, turn))
  {
    hide Inv, Step;
    if turn.0 < |s.callers| {
      StepMovesForward(s, turn.0, turn.1, created);
      StepOfLaunch(s, turn.0, turn.1, created);
      OneProcessStays(s, Take(s, turn), turn.0);
    }
  }

  lemma {:induction false} RunKeepsOneProcess(s: State, schedule: seq<Turn>, created: Plan)
    requires Inv(s, created) && OneProcess(s) && OneAtATime(s, schedule)
    ensures OneProcess(Run(s, schedule)) && Inv(Run(s, schedule), created)
    decreases |schedule|
  {
    if schedule != [] {
      TakeKeepsInv(s, schedule[0], created);
      TakeKeepsOneProcess(s, schedule[0], created);
      RunKeepsOneProcess(Take(s, schedule[0]), schedule[1..], created);
    }
  }

  /** If launches are let in one at a time, at most one process runs. */
  lemma OneProcessIfOneAtATime(s: State, schedule: seq<Turn>, created: Plan)
    requires Begins(s, created) && OneAtATime(s, schedule)
    ensures Run(s, schedule).spawns <= 1
  {
    BeginsWell(s, created);
    RunKeepsOneProcess(s, schedule, created);
  }

  /** And not otherwise: after any such schedule, one more launch can be let in without a second process
      ever running if and only if no other launch is active, even if all later ones are let in one at a
      time. */
  lemma LetInExactly(s: State, schedule: seq<Turn>, created: Plan, i: nat, choice: Choice)
    requires Begins(s, created) && OneAtATime(s, schedule) && LetIn(Run(s, schedule), i)
    ensures var before := Run(s, schedule); var after := Take(before, (i, choice));
            (forall more :: OneAtATime(after, more) ==> Run(after, more).spawns <= 1) <==> NobodyActive(before.callers)
  {
    BeginsWell(s, created);
    RunKeepsOneProcess(s, schedule, created);
    var before := Run(s, schedule);
    var after := Take(before, (i, choice));
    if NobodyActive(before.callers) {
      TakeKeepsInv(before, (i, choice), created);
      TakeKeepsOneProcess(before, (i, choice), created);
      forall more | OneAtATime(after, more) ensures Run(after, more).spawns <= 1 {
        RunKeepsOneProcess(after, more, created);
      }
    } else {
      var j :| 0 <= j < |before.callers| && Active(before.callers[j]);
      TwoActive(after, i, j);
    }
  }

  /** Two active launches, of which one has only read the plan, can run two processes between them. */
  lemma TwoActive(s: State, i: nat, j: nat)
    requires i < |s.callers| && j < |s.callers| && i != j && Active(s.callers[i]) && Active(s.callers[j])
    requires s.callers[i].stage.Loaded? && (s.callers[j].stage.Spawned? ==> s.spawns >= 1)
    ensures exists more :: OneAtATime(s, more) && Run(s, more).spawns >= 2
  {
    var go := Spawn(Succeeded, None);
    var first := Take(s, (i, go));
    assert first.spawns == s.spawns + 1 && OneAtATime(first, []);
    if s.callers[j].stage.Spawned? {
      assert Run(s, [(i, go)]) == first && OneAtATime(s, [(i, go)]);
    } else {
      InTurn(s, i, j, go, []);
      assert OneAtATime(first, [(j, go)]);
      assert [(i, go), (j, go)][1..] == [(j, go)];
      assert [(i, go), (j, go)] + [] == [(i, go), (j, go)];
      assert OneAtATime(s, [(i, go), (j, go)]);
    }
  }

  // ---------------------------------------------------------------- when another process can run

  /** A launch has read the plan and not yet run it; or one has not begun, and the plan is being applied
      or somebody can still confirm it. */
  ghost predicate CanSpawn(s: State) {
    || (exists i :: 0 <= i < |s.callers| && s.callers[i].job.Launch? && s.callers[i].stage.Loaded?)
    || ((exists i :: 0 <= i < |s.callers| && s.callers[i] == Caller(Launch, Ready)) && CanApply(s))
  }

  ghost predicate CanApply(s: State) {
    || s.stored.phase.Applying?
    || (s.stored.phase.AwaitingConfirmation? &&
        exists k :: 0 <= k < |s.callers| && s.callers[k].job.Confirm? && MayConfirm(s.callers[k].stage))
  }

  predicate MayConfirm(stage: Stage) {
    stage.Ready? || stage.Loaded?
  }

  /** No step makes a caller begin again, or an application possible that was not. */
  lemma StepTowardsApplying(s: State, i: nat, choice: Choice, created: Plan)
    requires Inv(s, created) && i < |s.callers|
    ensures !Step(s, i, choice).callers[i].stage.Ready? && (CanApply(Step(s, i, choice)) ==> CanApply(s))
  {
    hide Play;
    assert CallerOk(s.callers[i], s.stored);
  }

  lemma TakeWithoutSpawn(s: State, turn: Turn, created: Plan)
    requires Inv(s, created) && !CanSpawn(s)
    ensures Take(s, turn).spawns == s.spawns && !CanSpawn(Take(s, turn))
  {
    hide Inv, Step;
    if turn.0 < |s.callers| {
      StepOfLaunch(s, turn.0, turn.1, created);
      StepTowardsApplying(s, turn.0, turn.1, created);
    }
  }

  lemma {:induction false} RunWithoutSpawn(s: State, schedule: seq<Turn>, created: Plan)
    requires Inv(s, created) && !CanSpawn(s)
    ensures Run(s, schedule).spawns == s.spawns
    decreases |schedule|
  {
    if schedule != [] {
      TakeWithoutSpawn(s, schedule[0], created);
      TakeKeepsInv(s, schedule[0], created);
      RunWithoutSpawn(Take(s, schedule[0]), schedule[1..], created);
    }
  }

  lemma RunFirst(s: State, turn: Turn, rest: seq<Turn>)
    ensures Run(s, [turn] + rest) == Run(Take(s, turn), rest)
  {
    assert ([turn] + rest)[1..] == rest;
  }

  /** One launch alone runs the process, as soon as the plan allows it. */
  lemma LaunchSpawns(s: State, i: nat) returns (schedule: seq<Turn>)
    requires i < |s.callers| && s.callers[i].job.Launch?
    requires s.callers[i].stage.Loaded? || LetIn(s, i)
    ensures Run(s, schedule).spawns == s.spawns + 1
  {
    var go := (i, Spawn(Succeeded, None));
    RunFirst(s, go, []);
    RunFirst(s, go, [go]);
    RunFirst(Take(s, go), go, []);
    schedule := if s.callers[i].stage.Loaded? then [go] + [] else [go] + [go];
    assert [go] + [] == [go];
  }

  /** A confirm that may still come moves the plan on. */
  lemma ConfirmApplies(s: State, k: nat, created: Plan) returns (turns: nat)
    requires Inv(s, created) && s.stored.phase.AwaitingConfirmation?
    requires k < |s.callers| && s.callers[k].job.Confirm? && MayConfirm(s.callers[k].stage)
    ensures var turn := (k, GiveUp(""));
            var after := if turns == 1 then Take(s, turn) else Take(Take(s, turn), turn);
            after.stored.phase.Applying? && after.spawns == s.spawns && |after.callers| == |s.callers|
            && forall i :: 0 <= i < |s.callers| && i != k ==> after.callers[i] == s.callers[i]
  {
    assert CallerOk(s.callers[k], s.stored);
    turns := if s.callers[k].stage.Loaded? then 1 else 2;
  }

  lemma SpawnHappens(s: State, created: Plan) returns (schedule: seq<Turn>)
    requires Inv(s, created) && CanSpawn(s)
    ensures Run(s, schedule).spawns > s.spawns
  {
    if i :| 0 <= i < |s.callers| && s.callers[i].job.Launch? && s.callers[i].stage.Loaded? {
      schedule := LaunchSpawns(s, i);
    } else {
      var i :| 0 <= i < |s.callers| && s.callers[i] == Caller(Launch, Ready);
      if s.stored.phase.Applying? {
        schedule := LaunchSpawns(s, i);
      } else {
        var k :| 0 <= k < |s.callers| && s.callers[k].job.Confirm? && MayConfirm(s.callers[k].stage);
        var turns := ConfirmApplies(s, k, created);
        var turn := (k, GiveUp(""));
        var after := if turns == 1 then Take(s, turn) else Take(Take(s, turn), turn);
        var more := LaunchSpawns(after, i);
        RunFirst(Take(s, turn), turn, more);
        RunFirst(s, turn, more);
        RunFirst(s, turn, [turn] + more);
        schedule := if turns == 1 then [turn] + more else [turn] + ([turn] + more);
      }
    }
  }

  /** Another process can still run exactly then. */
  lemma CanSpawnExactly(s: State, schedule: seq<Turn>, created: Plan)
    requires Begins(s, created)
    ensures var now := Run(s, schedule); (exists more :: Run(now, more).spawns > now.spawns) <==> CanSpawn(now)
  {
    BeginsWell(s, created);
    RunKeepsInv(s, schedule, created);
    var now := Run(s, schedule);
    if CanSpawn(now) {
      var more := SpawnHappens(now, created);
    } else {
      forall more ensures Run(now, more).spawns == now.spawns {
        RunWithoutSpawn(now, more, created);
      }
    }
  }
}
