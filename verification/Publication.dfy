/**
 Create-only publication of a fleet profile, run by any number of processes at one root.

 A process inspects the profile file, prepares a temporary file, inspects again, and links the
 temporary file into place; whoever finds the name taken reads what is there instead.  Every step
 is atomic, any process may move at any time, and any step may fail.
 */
module Publication {
  import opened Wrappers

  type Bytes = seq<int>

  datatype Ref = Ref(id: string, kind: string)

  datatype Profile = Profile(
    schemaVersion: string, installationId: string, deploymentId: string, fleetId: string,
    worker: Ref, transport: Ref, runtime: Ref, workHub: Ref, runtimeBridge: Ref, evidenceProfile: string)

  /** The encoding of profiles and the digest of a valid one; `valid` is profile validation. */
  datatype Codec = Codec(
    valid: Profile -> bool, encode: Profile -> Bytes, parse: Bytes -> Option<Profile>, digest: Profile -> string)

  ghost predicate RoundTrips(c: Codec) {
    forall p :: c.valid(p) ==> c.parse(c.encode(p)) == Some(p)
  }

  datatype Result =
    | Success(digest: string)
    | Drift                 // another configuration is already applied here
    | Unreadable            // what is there is no valid profile
    | InvalidProfile
    | ReadbackMissing       // published concurrently, but could not be read back
    | IoError

  /** The decision against a profile that is already there. */
  function Judge(c: Codec, content: Bytes, profile: Profile): Result {
    match c.parse(content)
    case None => Unreadable
    case Some(existing) =>
      if !c.valid(existing) then Unreadable
      else if c.digest(existing) != c.digest(profile) then Drift
      else Success(c.digest(profile))
  }

  // ---------------------------------------------------------------- state

  /** `target` is the file behind the profile's name; contents are kept by file identity. */
  datatype Store = Store(target: Option<nat>, files: map<nat, Bytes>)

  datatype Pc =
    | Starting
    | Opening(first: bool)               // resolve against what exists, before or after publishing
    | Reading(first: bool, file: nat)
    | Inspecting
    | Creating
    | Writing(temporary: nat, written: nat)
    | Reinspecting(temporary: nat)
    | Linking(temporary: nat)
    | Done(result: Result)

  datatype Process = Process(profile: Profile, pc: Pc)

  datatype State = State(store: Store, processes: seq<Process>)

  /** `Advance` lets the step succeed, `CreateAs` names the new file and `WriteTo` says how far a
      write got; `Fail` is an I/O error, which leaves the store alone. */
  datatype Action = Advance | CreateAs(file: nat) | WriteTo(length: nat) | Fail

  datatype Move = Move(process: nat, action: Action)

  function Data(c: Codec, p: Process): Bytes {
    c.encode(p.profile)
  }

  /** One step of one process on the store; `None` when the action is not possible there. */
  function Step(c: Codec, store: Store, p: Process, action: Action): Option<(Store, Pc)> {
    match p.pc
    case Done(_) => None
    case Starting =>
      if !action.Advance? then None
      else Some((store, if c.valid(p.profile) then Opening(true) else Done(InvalidProfile)))
    case _ =>
      if action.Fail? then Some((store, Done(IoError))) else StepThrough(c, store, p, action)
  }

  function StepThrough(c: Codec, store: Store, p: Process, action: Action): Option<(Store, Pc)>
    requires !p.pc.Done? && !p.pc.Starting?
  {
    match (p.pc, action)
    case (Opening(first), Advance) =>
      if store.target.Some? then Some((store, Reading(first, store.target.value)))
      else Some((store, if first then Inspecting else Done(ReadbackMissing)))
    case (Reading(_, file), Advance) =>
      if file in store.files then Some((store, Done(Judge(c, store.files[file], p.profile)))) else None
    case (Inspecting, Advance) =>
      Some((store, if store.target.Some? then Opening(false) else Creating))
    case (Creating, CreateAs(file)) =>
      if file in store.files then None else Some((store.(files := store.files[file := []]), Writing(file, 0)))
    case (Writing(temporary, written), WriteTo(length)) =>
      if written < length <= |Data(c, p)|
      then Some((store.(files := store.files[temporary := Data(c, p)[..length]]), Writing(temporary, length)))
      else None
    case (Writing(temporary, written), Advance) =>
      if written == |Data(c, p)| then Some((store, Reinspecting(temporary))) else None
    case (Reinspecting(temporary), Advance) =>
      Some((store, if store.target.Some? then Opening(false) else Linking(temporary)))
    case (Linking(temporary), Advance) =>
      if store.target.Some? then Some((store, Opening(false)))
      else Some((store.(target := Some(temporary)), Done(Success(c.digest(p.profile)))))
    case _ => None
  }

  function Apply(c: Codec, s: State, move: Move): State {
    if move.process >= |s.processes| then s
    else
      match Step(c, s.store, s.processes[move.process], move.action)
      case None => s
      case Some((store, pc)) =>
        State(store, s.processes[move.process := s.processes[move.process].(pc := pc)])
  }

  function Run(c: Codec, s: State, schedule: seq<Move>): State {
    if schedule == [] then s else Apply(c, Run(c, s, schedule[..|schedule| - 1]), schedule[|schedule| - 1])
  }

  function Published(s: State): Option<Bytes> {
    match s.store.target
    case None => None
    case Some(file) => if file in s.store.files then Some(s.store.files[file]) else None
  }

  /** Anything may already be at the root, including a file that is no profile. */
  ghost predicate Initial(s: State) {
    && (s.store.target.Some? ==> s.store.target.value in s.store.files)
    && forall i :: 0 <= i < |s.processes| ==> s.processes[i].pc.Starting?
  }

  // ---------------------------------------------------------------- invariant

  /** The temporary file a process still holds, unlinked. */
  function Holds(pc: Pc): Option<nat> {
    match pc
    case Writing(temporary, _) => Some(temporary)
    case Reinspecting(temporary) => Some(temporary)
    case Linking(temporary) => Some(temporary)
    case _ => None
  }

  /** What one process may rely on. */
  ghost predicate ProcessInv(c: Codec, store: Store, p: Process) {
    match p.pc
    case Starting => true
    case Opening(first) => c.valid(p.profile) && (!first ==> store.target.Some?)
    case Reading(_, file) => c.valid(p.profile) && store.target == Some(file)
    case Inspecting => c.valid(p.profile)
    case Creating => c.valid(p.profile)
    case Writing(temporary, written) =>
      && c.valid(p.profile) && written <= |Data(c, p)|
      && temporary in store.files && store.files[temporary] == Data(c, p)[..written]
      && store.target != Some(temporary)
    case Reinspecting(temporary) => HeldComplete(c, store, p, temporary)
    case Linking(temporary) => HeldComplete(c, store, p, temporary)
    case Done(result) =>
      || result.IoError? || result.InvalidProfile?
      || (store.target.Some? && store.target.value in store.files
            && result == Judge(c, store.files[store.target.value], p.profile))
  }

  ghost predicate HeldComplete(c: Codec, store: Store, p: Process, temporary: nat) {
    && c.valid(p.profile)
    && temporary in store.files && store.files[temporary] == Data(c, p)
    && store.target != Some(temporary)
  }

  ghost predicate Inv(c: Codec, s: State) {
    && (s.store.target.Some? ==> s.store.target.value in s.store.files)
    && (forall i :: 0 <= i < |s.processes| ==> ProcessInv(c, s.store, s.processes[i]))
    && (forall i, j :: 0 <= i < |s.processes| && 0 <= j < |s.processes| && i != j && Holds(s.processes[i].pc).Some?
          ==> Holds(s.processes[i].pc) != Holds(s.processes[j].pc))
  }

  /** What a step does to the store: it links the held file where nothing was linked, or it leaves
      the link alone and every file but the held one as it was. */
  ghost predicate Touches(store: Store, changed: Store, held: Option<nat>) {
    || (store.target.None? && held.Some? && changed == store.(target := held))
    || (changed.target == store.target && KeepsOthers(store, changed, held))
  }

  ghost predicate KeepsOthers(store: Store, changed: Store, held: Option<nat>) {
    forall f :: f in store.files ==> f in changed.files && (held == Some(f) || changed.files[f] == store.files[f])
  }

  lemma StepTouches(c: Codec, store: Store, p: Process, action: Action)
    requires ProcessInv(c, store, p) && Step(c, store, p, action).Some?
    ensures Touches(store, Step(c, store, p, action).value.0, Holds(p.pc))
  {}

  /** The mover keeps its own part of the invariant. */
  lemma MoverKeeps(c: Codec, store: Store, p: Process, action: Action)
    requires RoundTrips(c) && ProcessInv(c, store, p)
    requires store.target.Some? ==> store.target.value in store.files
    requires Step(c, store, p, action).Some?
    ensures var (changed, pc) := Step(c, store, p, action).value;
            && ProcessInv(c, changed, p.(pc := pc))
            && (changed.target.Some? ==> changed.target.value in changed.files)
            && (Holds(pc).Some? ==> Holds(pc) == Holds(p.pc) || Holds(pc).value !in store.files)
  {}

  /** Everyone else keeps theirs. */
  lemma OthersKeep(c: Codec, store: Store, changed: Store, held: Option<nat>, q: Process)
    requires Touches(store, changed, held) && ProcessInv(c, store, q)
    requires held.Some? ==> Holds(q.pc) != held && store.target != held
    requires store.target.Some? ==> store.target.value in store.files
    ensures ProcessInv(c, changed, q)
  {}

  lemma ApplyKeepsInv(c: Codec, s: State, move: Move)
    requires RoundTrips(c) && Inv(c, s)
    ensures Inv(c, Apply(c, s, move))
  {
    if move.process < |s.processes| && Step(c, s.store, s.processes[move.process], move.action).Some? {
      var p := s.processes[move.process];
      var (changed, pc) := Step(c, s.store, p, move.action).value;
      var next := Apply(c, s, move);
      MoverKeeps(c, s.store, p, move.action);
      StepTouches(c, s.store, p, move.action);
      HeldIsUnlinked(c, s.store, p);
      forall i | 0 <= i < |s.processes| ensures ProcessInv(c, changed, next.processes[i]) {
        if i != move.process {
          OthersKeep(c, s.store, changed, Holds(p.pc), s.processes[i]);
        }
      }
      forall i | 0 <= i < |s.processes| && i != move.process
        ensures Holds(pc).Some? || Holds(s.processes[i].pc).Some? ==> Holds(pc) != Holds(s.processes[i].pc)
      {
        HeldIsUnlinked(c, s.store, s.processes[i]);
      }
    }
  }

  lemma HeldIsUnlinked(c: Codec, store: Store, p: Process)
    requires ProcessInv(c, store, p)
    ensures Holds(p.pc).Some? ==> Holds(p.pc).value in store.files && store.target != Holds(p.pc)
  {}

  lemma {:induction false} RunKeepsInv(c: Codec, s: State, schedule: seq<Move>)
    requires RoundTrips(c) && Inv(c, s)
    ensures Inv(c, Run(c, s, schedule))
    ensures |Run(c, s, schedule).processes| == |s.processes|
    ensures forall i :: 0 <= i < |s.processes| ==> Run(c, s, schedule).processes[i].profile == s.processes[i].profile
  {
    if schedule != [] {
      RunKeepsInv(c, s, schedule[..|schedule| - 1]);
      ApplyKeepsInv(c, Run(c, s, schedule[..|schedule| - 1]), schedule[|schedule| - 1]);
    }
  }

  // ---------------------------------------------------------------- write-once

  lemma ApplyKeepsPublished(c: Codec, s: State, move: Move)
    requires RoundTrips(c) && Inv(c, s) && Published(s).Some?
    ensures Published(Apply(c, s, move)) == Published(s)
  {}

  /** What is published at some moment of a run is published ever after, unchanged. */
  lemma {:induction false} PublishedNeverChanges(c: Codec, s: State, before: seq<Move>, after: seq<Move>)
    requires RoundTrips(c) && Initial(s)
    requires Published(Run(c, s, before)).Some?
    ensures Published(Run(c, s, before + after)) == Published(Run(c, s, before))
  {
    if after == [] {
      assert before + after == before;
    } else {
      var init := after[..|after| - 1];
      var all := before + after;
      assert all[..|all| - 1] == before + init && all[|all| - 1] == after[|after| - 1];
      PublishedNeverChanges(c, s, before, init);
      RunKeepsInv(c, s, before + init);
      ApplyKeepsPublished(c, Run(c, s, before + init), after[|after| - 1]);
    }
  }

  /** Every process that ends without an I/O error and with a valid profile has the answer that the
      published profile gives it; nobody ever fails to read the winner back. */
  lemma OutcomeAgreesWithPublished(c: Codec, s: State, schedule: seq<Move>, i: nat)
    requires RoundTrips(c) && Initial(s) && i < |s.processes|
    ensures var final := Run(c, s, schedule);
            i < |final.processes| &&
            match final.processes[i].pc
            case Done(result) =>
              && !result.ReadbackMissing?
              && (!result.IoError? && !result.InvalidProfile? ==>
                    Published(final).Some? && result == Judge(c, Published(final).value, s.processes[i].profile))
            case _ => true
  {
    RunKeepsInv(c, s, schedule);
  }

  /** At a root where nothing was published before, the losers with another digest get the drift
      error and nobody finds the profile unreadable. */
  lemma {:induction false} PublishedIsOneOfTheirs(c: Codec, s: State, schedule: seq<Move>)
    requires RoundTrips(c) && Initial(s) && s.store.target.None?
    ensures var final := Run(c, s, schedule);
            Published(final).Some? ==>
              exists i :: 0 <= i < |s.processes| && c.valid(s.processes[i].profile)
                && Published(final).value == c.encode(s.processes[i].profile)
  {
    if schedule != [] {
      var init := schedule[..|schedule| - 1];
      var s1 := Run(c, s, init);
      PublishedIsOneOfTheirs(c, s, init);
      RunKeepsInv(c, s, init);
      if Published(s1).Some? {
        ApplyKeepsPublished(c, s1, schedule[|schedule| - 1]);
      } else {
        FirstPublication(c, s1, schedule[|schedule| - 1]);
      }
    }
  }

  lemma FirstPublication(c: Codec, s: State, move: Move)
    requires Inv(c, s) && Published(s).None?
    ensures Published(Apply(c, s, move)).Some? ==>
      && move.process < |s.processes| && c.valid(s.processes[move.process].profile)
      && Published(Apply(c, s, move)).value == c.encode(s.processes[move.process].profile)
      && Apply(c, s, move).processes[move.process].pc == Done(Success(c.digest(s.processes[move.process].profile)))
  {}

  lemma DriftExactly(c: Codec, s: State, schedule: seq<Move>, i: nat)
    requires RoundTrips(c) && Initial(s) && s.store.target.None? && i < |s.processes|
    ensures var final := Run(c, s, schedule);
            |final.processes| == |s.processes| && var pc := final.processes[i].pc;
            (pc.Done? && !pc.result.IoError? && !pc.result.InvalidProfile? ==>
              exists w :: 0 <= w < |s.processes| && c.valid(s.processes[w].profile)
                && Published(final) == Some(c.encode(s.processes[w].profile))
                && pc.result ==
                     if c.digest(s.processes[w].profile) == c.digest(s.processes[i].profile)
                     then Success(c.digest(s.processes[i].profile)) else Drift)
  {
    RunKeepsInv(c, s, schedule);
    OutcomeAgreesWithPublished(c, s, schedule, i);
    PublishedIsOneOfTheirs(c, s, schedule);
  }

  // ---------------------------------------------------------------- linearizability

  /** A completed `Apply`, placed at the step that completed it. */
  datatype Event = Event(process: nat, result: Result)

  /** The event of one move, if it completes an operation on the profile. */
  function EventOf(c: Codec, s: State, move: Move): seq<Event> {
    var next := Apply(c, s, move);
    if move.process < |s.processes| && move.process < |next.processes| && !s.processes[move.process].pc.Done?
       && next.processes[move.process].pc.Done?
       && !next.processes[move.process].pc.result.IoError? && !next.processes[move.process].pc.result.InvalidProfile?
    then [Event(move.process, next.processes[move.process].pc.result)]
    else []
  }

  function History(c: Codec, s: State, schedule: seq<Move>): seq<Event> {
    if schedule == [] then []
    else
      var init := schedule[..|schedule| - 1];
      History(c, s, init) + EventOf(c, Run(c, s, init), schedule[|schedule| - 1])
  }

  /** The write-once register: the first write stays, later ones are compared with it. */
  function Register(c: Codec, register: Option<Bytes>, profile: Profile): (Option<Bytes>, Result) {
    match register
    case None => (Some(c.encode(profile)), Success(c.digest(profile)))
    case Some(content) => (register, Judge(c, content, profile))
  }

  /** The register after a sequential history, if every result in it is the register's. */
  function Replay(c: Codec, register: Option<Bytes>, profiles: seq<Process>,
                  history: seq<Event>): Option<Option<Bytes>> {
    if history == [] then Some(register)
    else
      var last := history[|history| - 1];
      match Replay(c, register, profiles, history[..|history| - 1])
      case None => None
      case Some(current) =>
        if last.process < |profiles| && Register(c, current, profiles[last.process].profile).1 == last.result
        then Some(Register(c, current, profiles[last.process].profile).0)
        else None
  }

  lemma ReplaySnoc(c: Codec, register: Option<Bytes>, processes: seq<Process>, history: seq<Event>, e: Event,
                   current: Option<Bytes>)
    requires Replay(c, register, processes, history) == Some(current) && e.process < |processes|
    requires Register(c, current, processes[e.process].profile).1 == e.result
    ensures Replay(c, register, processes, history + [e]) == Some(Register(c, current, processes[e.process].profile).0)
  {}

  /** A completing move does to the published profile, and answers, what the register would. */
  lemma EventIsRegister(c: Codec, s: State, move: Move)
    requires RoundTrips(c) && Inv(c, s) && EventOf(c, s, move) != []
    ensures move.process < |s.processes| && EventOf(c, s, move)[0].process == move.process
    ensures Register(c, Published(s), s.processes[move.process].profile)
         == (Published(Apply(c, s, move)), EventOf(c, s, move)[0].result)
  {}

  lemma StepReplays(c: Codec, s: State, move: Move, processes: seq<Process>, history: seq<Event>,
                    initial: Option<Bytes>)
    requires RoundTrips(c) && Inv(c, s)
    requires |processes| == |s.processes| && forall i :: 0 <= i < |processes| ==>
      processes[i].profile == s.processes[i].profile
    requires Replay(c, initial, processes, history) == Some(Published(s))
    ensures Replay(c, initial, processes, history + EventOf(c, s, move)) == Some(Published(Apply(c, s, move)))
  {
    var event := EventOf(c, s, move);
    if event == [] {
      assert history + event == history;
      if Published(s).Some? {
        ApplyKeepsPublished(c, s, move);
      } else {
        SilentMove(c, s, move);
      }
    } else {
      EventIsRegister(c, s, move);
      assert event == [event[0]];
      ReplaySnoc(c, initial, processes, history, event[0], Published(s));
    }
  }

  /** A move that completes nothing publishes nothing. */
  lemma SilentMove(c: Codec, s: State, move: Move)
    requires Inv(c, s) && EventOf(c, s, move) == [] && Published(s).None?
    ensures Published(Apply(c, s, move)).None?
  {}

  /** Every interleaving is a sequential history of the register, in which each operation takes
      effect at a step of its own; the register ends as the published profile. */
  lemma {:induction false} Linearizable(c: Codec, s: State, schedule: seq<Move>)
    requires RoundTrips(c) && Initial(s)
    ensures Replay(c, Published(s), s.processes, History(c, s, schedule)) == Some(Published(Run(c, s, schedule)))
  {
    if schedule != [] {
      var init := schedule[..|schedule| - 1];
      Linearizable(c, s, init);
      RunKeepsInv(c, s, init);
      StepReplays(c, Run(c, s, init), schedule[|schedule| - 1], s.processes, History(c, s, init), Published(s));
    }
  }

  /** It ended, and with a decision about the profile. */
  predicate Completed(p: Process) {
    p.pc.Done? && !p.pc.result.IoError? && !p.pc.result.InvalidProfile?
  }

  /** `history` has exactly the completed operation of process `i`, once, with its result. */
  ghost predicate Records(history: seq<Event>, i: nat, p: Process) {
    && (forall k, l :: 0 <= k < l < |history| && history[k].process == i ==> history[l].process != i)
    && (forall k :: 0 <= k < |history| && history[k].process == i ==> p.pc == Done(history[k].result))
    && (Completed(p) ==> exists k :: 0 <= k < |history| && history[k] == Event(i, p.pc.result))
  }

  lemma RecordsOther(history: seq<Event>, event: seq<Event>, i: nat, p: Process, q: Process)
    requires Records(history, i, p)
    requires |event| <= 1 && (event != [] ==> event[0].process != i)
    requires q == p || (!p.pc.Done? && !Completed(q))
    ensures Records(history + event, i, q)
  {
    var after := history + event;
    assert forall k :: 0 <= k < |history| ==> after[k] == history[k];
    if Completed(q) {
      var k :| 0 <= k < |history| && history[k] == Event(i, p.pc.result);
      assert after[k] == Event(i, q.pc.result);
    }
  }

  lemma RecordsOwn(history: seq<Event>, i: nat, p: Process, q: Process)
    requires Records(history, i, p) && !p.pc.Done? && q.pc.Done?
    ensures Records(history + [Event(i, q.pc.result)], i, q)
  {
    var after := history + [Event(i, q.pc.result)];
    assert forall k :: 0 <= k < |history| ==> after[k] == history[k];
    assert after[|history|] == Event(i, q.pc.result);
  }

  /** Each operation is in the history once it is complete, once only, with the result it returned. */
  lemma {:induction false} HistoryIsFaithful(c: Codec, s: State, schedule: seq<Move>, i: nat)
    requires RoundTrips(c) && Initial(s) && i < |s.processes|
    ensures |Run(c, s, schedule).processes| == |s.processes|
    ensures Records(History(c, s, schedule), i, Run(c, s, schedule).processes[i])
  {
    RunKeepsInv(c, s, schedule);
    if schedule != [] {
      var init, move := schedule[..|schedule| - 1], schedule[|schedule| - 1];
      HistoryIsFaithful(c, s, init, i);
      var s1 := Run(c, s, init);
      var event := EventOf(c, s1, move);
      if event != [] && event[0].process == i {
        RecordsOwn(History(c, s, init), i, s1.processes[i], Apply(c, s1, move).processes[i]);
      } else {
        RecordsOther(History(c, s, init), event, i, s1.processes[i], Apply(c, s1, move).processes[i]);
      }
    }
  }
}
