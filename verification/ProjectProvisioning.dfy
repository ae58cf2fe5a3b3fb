/**
 Provisioning the Project of an Installation in as many runs as it takes: it is created at most once,
 and every receipt that is ever written names it.
 */
module ProjectProvisioning {
  import opened Wrappers
  import opened GitHubProjects

  /** A failed call may still hand back a receipt, which its caller keeps. */
  datatype ProvisionResult = Provisioned(receipt: Receipt) | Failed(kept: Option<Receipt>) | ProcessEnded

  datatype Stage = Continue(receipt: Receipt) | Ended(result: ProvisionResult)

  // ---------------------------------------------------------------- what receipts are worth

  /** `p` is the Project that `r` names. */
  predicate Names(p: Project, r: Receipt, target: Target) {
    && p.nodeId == r.nodeId && p.number == r.number && p.url == r.url
    && p.title == r.title && Fold(p.owner) == Fold(target.owner)
  }

  /** The receipt is valid and names the one Project that AGX created. */
  ghost predicate Ours(projects: seq<Project>, mine: seq<string>, r: Receipt, target: Target) {
    && ValidateReceipt(r, target) && mine == [r.nodeId]
    && exists i :: 0 <= i < |projects| && Names(projects[i], r, target)
  }

  /** The Project it names has the visibility it says. */
  ghost predicate Current(projects: seq<Project>, r: Receipt, target: Target) {
    exists i :: 0 <= i < |projects| && Names(projects[i], r, target) && projects[i].public == r.public
  }

  ghost predicate Inv(gh: GitHub, journal: Journal, target: Target)
    reads gh, journal
  {
    && AllReal(gh.projects, target.owner)
    && |gh.mine| <= 1
    && (gh.mine != [] ==> exists i :: 0 <= i < |gh.projects| && gh.projects[i].title == target.title)
    && (journal.persisted.Some? ==> journal.persisted.value in journal.log)
    && forall r :: r in journal.log ==> Ours(gh.projects, gh.mine, r, target) && LinkHolds(r, gh.links)
  }

  /** A receipt that says linked is right. */
  predicate LinkHolds(r: Receipt, links: set<string>) {
    r.linked ==> r.nodeId in links
  }

  predicate Reliable(gh: GitHub, journal: Journal) {
    gh.reliable && journal.reliable
  }

  lemma SameNumberSameProject(projects: seq<Project>, p: Project, r: Receipt, target: Target)
    requires AllReal(projects, target.owner) && p in projects && p.number == r.number
    requires exists i :: 0 <= i < |projects| && Names(projects[i], r, target)
    ensures Names(p, r, target)
    ensures Current(projects, r, target) <==> p.public == r.public
  {}

  /** What the Project of a receipt answers is another receipt of the same Project. */
  lemma ReadReceiptIsOurs(projects: seq<Project>, mine: seq<string>, p: Project, r: Receipt, target: Target)
    requires AllReal(projects, target.owner) && p in projects && p.number == r.number && Ours(projects, mine, r, target)
    ensures var read := ReceiptFromProject(target, p);
            && read.Some? && SameProjectIdentity(read.value, r)
            && Ours(projects, mine, read.value, target) && Current(projects, read.value, target)
  {}

  lemma VisibilityKeepsOurs(projects: seq<Project>, mine: seq<string>, r: Receipt, target: Target, number: int,
                            public: bool)
    requires AllReal(projects, target.owner)
    ensures AllReal(WithVisibility(projects, number, public), target.owner)
    ensures Ours(projects, mine, r, target) ==> Ours(WithVisibility(projects, number, public), mine, r, target)
  {}

  // ---------------------------------------------------------------- reading

  datatype Gate = Passed | Refused | GateEnded

  predicate NoCollision(projects: seq<Project>, target: Target) {
    forall p :: p in projects ==> !Collides(p, target)
  }

  method Preflight(gh: GitHub, target: Target) returns (gate: Gate)
    ensures gate.Passed? ==> ValidTarget(target) && NoCollision(gh.projects, target)
    ensures gh.reliable && ValidTarget(target) && NoCollision(gh.projects, target) ==> gate.Passed?
  {
    if !ValidTarget(target) {
      return Refused;
    }
    var scope := gh.Auth();
    if !scope.Replied? || !scope.value {
      return if scope.Died? then GateEnded else Refused;
    }
    var inventory := gh.List();
    if !inventory.Replied? {
      return if inventory.Died? then GateEnded else Refused;
    }
    for i := 0 to |inventory.value|
      invariant forall k :: 0 <= k < i ==> !Collides(inventory.value[k], target)
    {
      if Collides(inventory.value[i], target) {
        return Refused;
      }
    }
    gate := Passed;
  }

  predicate Marked(p: Project, target: Target) {
    p.title == target.title && Fold(p.owner) == Fold(target.owner)
  }

  /** The Projects with the target's title, in the order they are listed. */
  function MarkedIn(projects: seq<Project>, target: Target): (found: seq<Project>)
    ensures forall p :: p in found <==> p in projects && Marked(p, target)
  {
    if projects == [] then []
    else
      var last := projects[|projects| - 1];
      MarkedIn(projects[..|projects| - 1], target) + if Marked(last, target) then [last] else []
  }

  /** The one Project with the target's title; several of them are an error.  `listed` says whether the
      inventory could be read. */
  method FindTargetProject(gh: GitHub, target: Target) returns (reply: Reply<Option<Project>>, ghost listed: bool)
    ensures gh.reliable ==> listed
    ensures reply.Replied? <==> listed && |MarkedIn(gh.projects, target)| <= 1
    ensures reply.Replied? ==>
      reply.value == var found := MarkedIn(gh.projects, target); if found == [] then None else Some(found[0])
  {
    var inventory := gh.List();
    listed := inventory.Replied?;
    if !inventory.Replied? {
      reply := if inventory.Died? then Died else Errored;
      return;
    }
    var matches: seq<Project> := [];
    for i := 0 to |inventory.value|
      invariant matches == MarkedIn(inventory.value[..i], target)
    {
      assert inventory.value[..i + 1][..i] == inventory.value[..i];
      if Marked(inventory.value[i], target) {
        matches := matches + [inventory.value[i]];
      }
    }
    assert inventory.value[..|inventory.value|] == inventory.value;
    reply := if |matches| > 1 then Errored else Replied(if matches == [] then None else Some(matches[0]));
  }

  /** There is a Project with that number, and what has it is the target's. */
  ghost predicate Readable(projects: seq<Project>, target: Target, number: int) {
    && (exists p :: p in projects && p.number == number)
    && forall p :: p in projects && p.number == number ==> ReceiptFromProject(target, p).Some?
  }

  lemma OursIsReadable(projects: seq<Project>, r: Receipt, target: Target)
    requires AllReal(projects, target.owner) && ValidateReceipt(r, target)
    requires exists i :: 0 <= i < |projects| && Names(projects[i], r, target)
    ensures Readable(projects, target, r.number)
  {}

  method ReadProject(gh: GitHub, target: Target, number: int) returns (reply: Reply<Receipt>)
    ensures reply.Replied? ==>
      exists p :: p in gh.projects && p.number == number && ReceiptFromProject(target, p) == Some(reply.value)
    ensures gh.reliable && Readable(gh.projects, target, number) ==> reply.Replied?
  {
    var view := gh.View(number);
    if !view.Replied? {
      return if view.Died? then Died else Errored;
    }
    var receipt := ReceiptFromProject(target, view.value);
    reply := if receipt.None? then Errored else Replied(receipt.value);
  }

  ghost predicate AllLinked(gh: GitHub, number: int)
    reads gh
  {
    forall p :: p in gh.projects && p.number == number ==> p.nodeId in gh.links
  }

  /** Reads the Project and its link to the control repository. */
  method Inspect(gh: GitHub, target: Target, number: int) returns (reply: Reply<Receipt>)
    ensures reply.Replied? ==>
      && reply.value.linked && reply.value.nodeId in gh.links
      && exists p :: p in gh.projects && p.number == number
                     && ReceiptFromProject(target, p) == Some(reply.value.(linked := false))
    ensures gh.reliable && Readable(gh.projects, target, number) && AllLinked(gh, number) ==> reply.Replied?
  {
    reply := ReadProject(gh, target, number);
    if !reply.Replied? {
      return;
    }
    var receipt := reply.value;
    var repository := gh.Repository();
    if !repository.Replied? {
      return if repository.Died? then Died else Errored;
    }
    if !repository.value.0 || receipt.nodeId !in repository.value.1 {
      return Errored;
    }
    reply := Replied(receipt.(linked := true));
  }

  /** The receipt still says what the Project is. */
  method Revalidate(gh: GitHub, target: Target, receipt: Receipt) returns (gate: Gate)
    requires AllReal(gh.projects, target.owner)
    ensures gate.Passed? ==>
      ValidTarget(target) && ValidateReceipt(receipt, target) && Current(gh.projects, receipt, target)
    ensures gh.reliable && ValidTarget(target) ==>
      ValidateReceipt(receipt, target) && Current(gh.projects, receipt, target) ==> gate.Passed?
  {
    if !ValidTarget(target) || !ValidateReceipt(receipt, target) {
      return Refused;
    }
    var scope := gh.Auth();
    if !scope.Replied? || !scope.value {
      return if scope.Died? then GateEnded else Refused;
    }
    if Current(gh.projects, receipt, target) {
      OursIsReadable(gh.projects, receipt, target);
    }
    var observed := ReadProject(gh, target, receipt.number);
    if !observed.Replied? {
      return if observed.Died? then GateEnded else Refused;
    }
    ghost var p :| p in gh.projects && p.number == receipt.number
      && ReceiptFromProject(target, p) == Some(observed.value);
    if Current(gh.projects, receipt, target) {
      SameNumberSameProject(gh.projects, p, receipt, target);
    }
    if !SameProjectIdentity(observed.value, receipt) || observed.value.public != receipt.public {
      return Refused;
    }
    assert Names(p, receipt, target);
    gate := Passed;
  }

  // ---------------------------------------------------------------- creating

  /** Nothing with the target's title exists, so AGX has created nothing yet. */
  lemma NothingCreated(gh: GitHub, journal: Journal, target: Target)
    requires Inv(gh, journal, target) && ValidTarget(target)
    requires forall p :: p in gh.projects ==> !Collides(p, target)
    ensures gh.mine == [] && journal.log == [] && journal.persisted.None?
  {
    if journal.log != [] {
      assert journal.log[0] in journal.log && gh.mine != [];
    }
    if gh.mine != [] {
      var i :| 0 <= i < |gh.projects| && gh.projects[i].title == target.title;
      assert Collides(gh.projects[i], target);
    }
  }

  /** After the create command: what there is with the target's title is AGX's, and a receipt of it
      keeps the invariant. */
  ghost predicate JustCreated(gh: GitHub, journal: Journal, target: Target)
    reads gh, journal
  {
    && Inv(gh, journal, target) && journal.log == [] && journal.persisted.None?
    && (forall p :: p in gh.projects && Marked(p, target) ==> gh.mine == [p.nodeId])
  }

  lemma CreatedReceipt(gh: GitHub, journal: Journal, target: Target, p: Project)
    requires JustCreated(gh, journal, target) && p in gh.projects && Marked(p, target)
    ensures var receipt := ReceiptFromProject(target, p);
            receipt.Some? && Ours(gh.projects, gh.mine, receipt.value, target)
              && Current(gh.projects, receipt.value, target)
  {}

  /** A new Project with the target's title. */
  predicate Makes(p: Project, before: seq<Project>, target: Target) {
    Real(p, target.owner) && Unused(p, before) && p.title == target.title
  }

  lemma AfterCreate(before: seq<Project>, made: Option<Project>, after: seq<Project>, target: Target)
    requires AllReal(before, target.owner) && ValidTarget(target)
    requires forall p :: p in before ==> !Collides(p, target)
    requires if made.None? then after == before
             else Makes(made.value, before, target) && after == before + [made.value]
    ensures AllReal(after, target.owner)
    ensures forall p :: p in after && Marked(p, target) ==> made == Some(p)
  {}

  /** What every stage leaves behind, whether the run goes on or not. */
  twostate predicate StageKeeps(gh: GitHub, journal: Journal, target: Target, stage: Stage)
    reads gh, journal
  {
    && Inv(gh, journal, target)
    && (old(journal.persisted).Some? ==> journal.persisted.Some?)
    && (match stage
        case Continue(receipt) =>
          Ours(gh.projects, gh.mine, receipt, target) && Current(gh.projects, receipt, target)
            && LinkHolds(receipt, gh.links)
        case Ended(Failed(kept)) =>
          kept.Some? ==> Ours(gh.projects, gh.mine, kept.value, target) && LinkHolds(kept.value, gh.links)
        case Ended(_) => stage.result.ProcessEnded?)
  }

  /** Writes a receipt that is worth writing. */
  method WriteOurs(gh: GitHub, journal: Journal, target: Target, receipt: Receipt) returns (reply: Reply<()>)
    requires Inv(gh, journal, target) && Ours(gh.projects, gh.mine, receipt, target) && LinkHolds(receipt, gh.links)
    modifies journal
    ensures Inv(gh, journal, target)
    ensures old(journal.persisted).Some? ==> journal.persisted.Some?
    ensures journal.log == old(journal.log) + [receipt]
    ensures journal.persisted == old(journal.persisted) || journal.persisted == Some(receipt)
    ensures reply.Replied? ==> journal.persisted == Some(receipt)
    ensures journal.reliable ==> reply.Replied?
  {
    hide Ours;
    reply := journal.Write(receipt);
  }

  /** The run ends with this receipt, which it has written if the journal could be. */
  twostate predicate Kept(journal: Journal, stage: Stage, receipt: Receipt)
    reads journal
  {
    && journal.log == old(journal.log) + [receipt]
    && (stage == Ended(Failed(Some(receipt))) || stage == Ended(ProcessEnded))
    && (journal.reliable ==> journal.persisted == Some(receipt) && stage == Ended(Failed(Some(receipt))))
  }

  /** The run ends with nothing to keep, and has written nothing. */
  twostate predicate NothingKept(journal: Journal, stage: Stage)
    reads journal
  {
    && journal.log == old(journal.log) && journal.persisted == old(journal.persisted)
    && (stage == Ended(Failed(None)) || stage == Ended(ProcessEnded))
  }

  /** Looks for what a create command that did not answer may have made: if the inventory can be read and
      has exactly one Project with the title, its receipt is written and handed back. */
  method RecoverCreate(gh: GitHub, journal: Journal, target: Target) returns (stage: Stage, ghost listed: bool)
    requires JustCreated(gh, journal, target)
    modifies journal
    ensures StageKeeps(gh, journal, target, stage) && stage.Ended?
    ensures gh.reliable ==> listed
    ensures var found := MarkedIn(gh.projects, target);
            if listed && |found| == 1
            then ReceiptFromProject(target, found[0]).Some?
              && Kept(journal, stage, ReceiptFromProject(target, found[0]).value)
            else NothingKept(journal, stage)
  {
    var found;
    found, listed := FindTargetProject(gh, target);
    if !found.Replied? || found.value.None? {
      stage := Ended(if found.Died? then ProcessEnded else Failed(None));
      return;
    }
    assert MarkedIn(gh.projects, target)[0] in MarkedIn(gh.projects, target);
    CreatedReceipt(gh, journal, target, found.value.value);
    var recovered := ReceiptFromProject(target, found.value.value).value;
    var written := WriteOurs(gh, journal, target, recovered);
    stage := Ended(if written.Died? then ProcessEnded else Failed(Some(recovered)));
  }

  /** Creates the Project, unless one with its title is already there. */
  method CreateProject(gh: GitHub, journal: Journal, target: Target) returns (stage: Stage)
    requires Inv(gh, journal, target) && journal.persisted.None?
    modifies gh, journal
    ensures StageKeeps(gh, journal, target, stage)
    ensures gh.creates <= old(gh.creates) + 1
    ensures stage.Continue? ==>
      journal.persisted.Some? && journal.log == [journal.persisted.value]
      && SameProjectIdentity(stage.receipt, journal.persisted.value)
    ensures old(gh.mine) != [] ==> stage.Ended? && gh.creates == old(gh.creates)
    ensures Reliable(gh, journal) && ValidTarget(target) && NoCollision(old(gh.projects), target) ==> stage.Continue?
    ensures !NoCollision(old(gh.projects), target) ==>
      NothingKept(journal, stage) && gh.creates == old(gh.creates) && gh.projects == old(gh.projects)
  {
    var gate := Preflight(gh, target);
    if !gate.Passed? {
      return Ended(if gate.GateEnded? then ProcessEnded else Failed(None));
    }
    NothingCreated(gh, journal, target);
    ghost var before := gh.projects;
    var reply, made := gh.Create(target);
    AfterCreate(before, made, gh.projects, target);
    assert made.Some? ==> gh.projects[|before|] == made.value;
    if reply.Died? {
      return Ended(ProcessEnded);
    }
    if reply.Errored? || reply.value.None? {
      ghost var listed;
      stage, listed := RecoverCreate(gh, journal, target);
      return;
    }
    CreatedReceipt(gh, journal, target, reply.value.value);
    stage := ConfirmCreated(gh, journal, target, ReceiptFromProject(target, reply.value.value).value);
  }

  /** Journals the receipt of the new Project and reads the Project back. */
  method ConfirmCreated(gh: GitHub, journal: Journal, target: Target, created: Receipt) returns (stage: Stage)
    requires Inv(gh, journal, target) && !created.linked
    requires Ours(gh.projects, gh.mine, created, target) && Current(gh.projects, created, target)
    modifies journal
    ensures StageKeeps(gh, journal, target, stage)
    ensures journal.log == old(journal.log) + [created]
    ensures stage.Continue? ==> journal.persisted == Some(created) && SameProjectIdentity(stage.receipt, created)
    ensures stage.Ended? ==> stage == Ended(Failed(Some(created))) || stage == Ended(ProcessEnded)
    ensures Reliable(gh, journal) ==> stage.Continue?
  {
    var written := WriteOurs(gh, journal, target, created);
    if !written.Replied? {
      return Ended(if written.Died? then ProcessEnded else Failed(Some(created)));
    }
    OursIsReadable(gh.projects, created, target);
    var confirmed := ReadProject(gh, target, created.number);
    if !confirmed.Replied? {
      return Ended(if confirmed.Died? then ProcessEnded else Failed(Some(created)));
    }
    ghost var p :| p in gh.projects && p.number == created.number
      && ReceiptFromProject(target, p) == Some(confirmed.value);
    ReadReceiptIsOurs(gh.projects, gh.mine, p, created, target);
    SameNumberSameProject(gh.projects, p, created, target);
    stage := if !SameProjectIdentity(confirmed.value, created) || confirmed.value.public != created.public
             then Ended(Failed(Some(created)))
             else Continue(confirmed.value);
  }

  // ---------------------------------------------------------------- configuring

  lemma EditKeepsInv(gh: GitHub, journal: Journal, target: Target, before: seq<Project>, number: int)
    requires AllReal(before, target.owner) && |gh.mine| <= 1
    requires gh.mine != [] ==> exists i :: 0 <= i < |before| && before[i].title == target.title
    requires journal.persisted.Some? ==> journal.persisted.value in journal.log
    requires forall r :: r in journal.log ==> Ours(before, gh.mine, r, target) && LinkHolds(r, gh.links)
    requires gh.projects == before || gh.projects == WithVisibility(before, number, target.public)
    ensures Inv(gh, journal, target)
  {
    forall r | r in journal.log ensures Ours(gh.projects, gh.mine, r, target) {
      VisibilityKeepsOurs(before, gh.mine, r, target, number, target.public);
    }
    if gh.mine != [] {
      var i :| 0 <= i < |before| && before[i].title == target.title;
      assert gh.projects[i].title == target.title;
    }
    assert AllReal(WithVisibility(before, number, target.public), target.owner);
  }

  ghost predicate SetOnAll(projects: seq<Project>, number: int, public: bool) {
    forall p :: p in projects && p.number == number ==> p.public == public
  }

  /** Reads the Project back after an edit that is in doubt. */
  method ReadBack(gh: GitHub, journal: Journal, target: Target, receipt: Receipt) returns (stage: Stage)
    requires Inv(gh, journal, target) && Ours(gh.projects, gh.mine, receipt, target) && LinkHolds(receipt, gh.links)
    ensures StageKeeps(gh, journal, target, stage)
    ensures stage.Continue? ==> stage.receipt.public == target.public && !stage.receipt.linked
    ensures gh.reliable && SetOnAll(gh.projects, receipt.number, target.public) ==> stage.Continue?
  {
    OursIsReadable(gh.projects, receipt, target);
    var read := ReadProject(gh, target, receipt.number);
    if !read.Replied? {
      return Ended(if read.Died? then ProcessEnded else Failed(Some(receipt)));
    }
    ghost var p :| p in gh.projects && p.number == receipt.number && ReceiptFromProject(target, p) == Some(read.value);
    ReadReceiptIsOurs(gh.projects, gh.mine, p, receipt, target);
    stage := if !SameProjectIdentity(read.value, receipt) || read.value.public != target.public
             then Ended(Failed(Some(receipt)))
             else Continue(read.value);
  }

  /** The receipts written are of the Project as it then is, with the visibility wanted. */
  twostate predicate LogsVisible(gh: GitHub, journal: Journal, target: Target)
    reads gh, journal
  {
    || journal.log == old(journal.log)
    || (|journal.log| == |old(journal.log)| + 1 && journal.log[..|old(journal.log)|] == old(journal.log)
        && VisibleReceipt(gh.projects, journal.log[|old(journal.log)|], target))
  }

  ghost predicate VisibleReceipt(projects: seq<Project>, r: Receipt, target: Target) {
    r.public == target.public && r.verification.Configured? && Current(projects, r, target)
  }

  method SetVisibility(gh: GitHub, journal: Journal, target: Target, receipt: Receipt) returns (stage: Stage)
    requires Inv(gh, journal, target)
    requires Ours(gh.projects, gh.mine, receipt, target) && Current(gh.projects, receipt, target)
      && LinkHolds(receipt, gh.links)
    modifies gh`projects, journal
    ensures StageKeeps(gh, journal, target, stage)
    ensures stage.Continue? ==> stage.receipt.public == target.public
    ensures LogsVisible(gh, journal, target)
    ensures receipt.public == target.public ==> stage == Continue(receipt) && journal.log == old(journal.log)
    ensures receipt.public != target.public && stage.Continue? ==> journal.log == old(journal.log) + [stage.receipt]
    ensures Reliable(gh, journal) ==> stage.Continue?
  {
    if receipt.public == target.public {
      return Continue(receipt);
    }
    stage := ChangeVisibility(gh, journal, target, receipt);
  }

  /** The edit command; whether or not it took effect, every receipt still names the Project. */
  method EditVisibility(gh: GitHub, journal: Journal, target: Target, receipt: Receipt)
    returns (reply: Reply<Option<Project>>)
    requires Inv(gh, journal, target) && Ours(gh.projects, gh.mine, receipt, target)
    modifies gh`projects
    ensures Inv(gh, journal, target) && Ours(gh.projects, gh.mine, receipt, target)
      && AllReal(gh.projects, target.owner)
    ensures reply.Replied? ==> SetOnAll(gh.projects, receipt.number, target.public)
    ensures reply.Replied? && reply.value.Some? ==>
      reply.value.value in gh.projects && reply.value.value.number == receipt.number
    ensures gh.reliable ==> reply.Replied?
  {
    hide Ours, AllReal, WithVisibility;
    ghost var before := gh.projects;
    reply := gh.Edit(receipt.number, target.public);
    EditKeepsInv(gh, journal, target, before, receipt.number);
    VisibilityKeepsOurs(before, gh.mine, receipt, target, receipt.number, target.public);
  }

  method ChangeVisibility(gh: GitHub, journal: Journal, target: Target, receipt: Receipt) returns (stage: Stage)
    requires Inv(gh, journal, target)
    requires Ours(gh.projects, gh.mine, receipt, target) && LinkHolds(receipt, gh.links)
    modifies gh`projects, journal
    ensures StageKeeps(gh, journal, target, stage)
    ensures stage.Continue? ==> stage.receipt.public == target.public
    ensures LogsVisible(gh, journal, target)
    ensures stage.Continue? ==> journal.log == old(journal.log) + [stage.receipt]
    ensures Reliable(gh, journal) ==> stage.Continue?
  {
    hide Ours, Current, AllReal, Inv;
    var reply := EditVisibility(gh, journal, target, receipt);
    if reply.Died? {
      return Ended(ProcessEnded);
    }
    var updated := if reply.Replied? && reply.value.Some? then ReceiptFromProject(target, reply.value.value) else None;
    if updated.Some? {
      ReadReceiptIsOurs(gh.projects, gh.mine, reply.value.value, receipt, target);
    }
    if updated.None? || !SameProjectIdentity(updated.value, receipt) || updated.value.public != target.public {
      stage := ReadBack(gh, journal, target, receipt);
      if stage.Ended? {
        return;
      }
      updated := Some(stage.receipt);
    }
    stage := RecordConfigured(gh, journal, target, updated.value, reply.Errored?);
  }

  /** Writes down that the visibility is set; a run whose edit reported an error ends all the same. */
  method RecordConfigured(gh: GitHub, journal: Journal, target: Target, updated: Receipt, failed: bool)
    returns (stage: Stage)
    requires Inv(gh, journal, target) && !updated.linked
    requires Ours(gh.projects, gh.mine, updated, target) && Current(gh.projects, updated, target)
    modifies journal
    ensures StageKeeps(gh, journal, target, stage)
    ensures stage.Continue? ==> stage.receipt == updated.(verification := Configured)
    ensures journal.log == old(journal.log) + [updated.(verification := Configured)]
    ensures Current(gh.projects, updated.(verification := Configured), target)
    ensures journal.reliable && !failed ==> stage.Continue?
  {
    var configured := updated.(verification := Configured);
    ConfiguredIsOurs(gh.projects, gh.mine, updated, target);
    var written := WriteOurs(gh, journal, target, configured);
    stage :=
      if written.Died? then Ended(ProcessEnded)
      else if written.Errored? || failed then Ended(Failed(Some(configured)))
      else Continue(configured);
  }

  lemma ConfiguredIsOurs(projects: seq<Project>, mine: seq<string>, r: Receipt, target: Target)
    requires Ours(projects, mine, r, target) && Current(projects, r, target) && !r.linked
    ensures Ours(projects, mine, r.(verification := Configured), target)
      && Current(projects, r.(verification := Configured), target)
  {}

  // ---------------------------------------------------------------- linking

  /** A read-back receipt of the Project that `receipt` names, linked. */
  lemma InspectedIsOurs(projects: seq<Project>, mine: seq<string>, p: Project, receipt: Receipt, verified: Receipt,
                        target: Target)
    requires AllReal(projects, target.owner) && p in projects && p.number == receipt.number
    requires Ours(projects, mine, receipt, target) && Current(projects, receipt, target)
    requires verified.linked && ReceiptFromProject(target, p) == Some(verified.(linked := false))
    ensures Ours(projects, mine, verified.(verification := Readback), target)
    ensures Current(projects, verified.(verification := Readback), target)
    ensures verified.nodeId == receipt.nodeId && verified.public == receipt.public
  {}

  /** What a finished run has achieved. */
  ghost predicate Finished(gh: GitHub, journal: Journal, target: Target, r: Receipt)
    reads gh, journal
  {
    && journal.persisted == Some(r) && Ours(gh.projects, gh.mine, r, target) && Current(gh.projects, r, target)
    && r.verification.Readback? && r.public == target.public && r.nodeId in gh.links
  }

  ghost predicate ResultOk(gh: GitHub, journal: Journal, target: Target, result: ProvisionResult)
    reads gh, journal
  {
    match result
    case Provisioned(r) => Finished(gh, journal, target, r)
    case Failed(kept) =>
      kept.Some? ==> Ours(gh.projects, gh.mine, kept.value, target) && LinkHolds(kept.value, gh.links)
    case ProcessEnded => true
  }

  lemma ReadyToInspect(gh: GitHub, receipt: Receipt, target: Target)
    requires AllReal(gh.projects, target.owner) && Ours(gh.projects, gh.mine, receipt, target)
    ensures Readable(gh.projects, target, receipt.number)
    ensures receipt.nodeId in gh.links ==> AllLinked(gh, receipt.number)
  {}

  /** Links the Project unless its receipt says it is linked, and reads everything back in either case. */
  method LinkAndVerify(gh: GitHub, journal: Journal, target: Target, receipt: Receipt) returns (result: ProvisionResult)
    requires Inv(gh, journal, target) && receipt.public == target.public
    requires Ours(gh.projects, gh.mine, receipt, target) && Current(gh.projects, receipt, target)
      && LinkHolds(receipt, gh.links)
    modifies gh`links, journal
    ensures Inv(gh, journal, target) && ResultOk(gh, journal, target, result)
    ensures old(journal.persisted).Some? ==> journal.persisted.Some?
    ensures Reliable(gh, journal) ==> result.Provisioned?
  {
    hide Ours, Current, AllReal, ReceiptFromProject;
    var linkFailed := false;
    if !receipt.linked {
      var link := gh.Link(receipt.nodeId);
      if link.Died? {
        return ProcessEnded;
      }
      linkFailed := link.Errored?;
    }
    ReadyToInspect(gh, receipt, target);
    var verified := Inspect(gh, target, receipt.number);
    if !verified.Replied? {
      return if verified.Died? then ProcessEnded else Failed(Some(receipt));
    }
    ghost var p :| p in gh.projects && p.number == receipt.number
                   && ReceiptFromProject(target, p) == Some(verified.value.(linked := false));
    InspectedIsOurs(gh.projects, gh.mine, p, receipt, verified.value, target);
    var readback := verified.value.(verification := Readback);
    var written := WriteOurs(gh, journal, target, readback);
    result :=
      if written.Died? then ProcessEnded
      else if written.Errored? || linkFailed then Failed(Some(readback))
      else Provisioned(readback);
  }

  // ---------------------------------------------------------------- whole runs

  /**
   One call.  With a receipt it never creates; without one it creates at most once, and not at all if
   AGX has created the Project before.  A receipt whose visibility is not the Project's any more ends
   the call before anything is changed.  Where nothing fails, a call with a receipt succeeds exactly if
   that visibility still is the Project's, and one without a receipt exactly if no title collides.
   */
  method Provision(gh: GitHub, journal: Journal, target: Target, existing: Option<Receipt>)
    returns (result: ProvisionResult)
    requires Inv(gh, journal, target) && existing == journal.persisted
    modifies gh, journal
    ensures Inv(gh, journal, target) && ResultOk(gh, journal, target, result)
    ensures old(journal.persisted).Some? ==> journal.persisted.Some?
    ensures gh.creates <= old(gh.creates) + 1
    ensures existing.Some? || old(gh.mine) != [] ==> gh.creates == old(gh.creates)
    ensures existing.Some? && !old(Current(gh.projects, existing.value, target)) ==>
      && (result == Failed(existing) || result.ProcessEnded?)
      && gh.projects == old(gh.projects) && gh.links == old(gh.links)
      && journal.persisted == old(journal.persisted) && journal.log == old(journal.log)
    ensures existing.None? && !NoCollision(old(gh.projects), target) ==>
      && (result == Failed(None) || result.ProcessEnded?) && gh.projects == old(gh.projects)
      && gh.creates == old(gh.creates)
      && journal.persisted == old(journal.persisted) && journal.log == old(journal.log)
    ensures Reliable(gh, journal) && ValidTarget(target) && existing.Some? ==>
      (result.Provisioned? <==> old(Current(gh.projects, existing.value, target)))
    ensures Reliable(gh, journal) && ValidTarget(target) && existing.None? ==>
      (result.Provisioned? <==> NoCollision(old(gh.projects), target))
  {
    hide Inv, Ours, Current;
    var stage: Stage;
    if existing.None? {
      stage := CreateProject(gh, journal, target);
      if stage.Ended? {
        return stage.result;
      }
    } else {
      PersistedIsOurs(gh, journal, target);
      InvIsReal(gh, journal, target);
      var gate := Revalidate(gh, target, existing.value);
      if !gate.Passed? {
        return if gate.GateEnded? then ProcessEnded else Failed(existing);
      }
      stage := Continue(existing.value);
    }
    stage := SetVisibility(gh, journal, target, stage.receipt);
    if stage.Ended? {
      return stage.result;
    }
    result := LinkAndVerify(gh, journal, target, stage.receipt);
  }

  lemma PersistedIsOurs(gh: GitHub, journal: Journal, target: Target)
    requires Inv(gh, journal, target)
    ensures journal.persisted.Some? ==>
      && Ours(gh.projects, gh.mine, journal.persisted.value, target) && LinkHolds(journal.persisted.value, gh.links)
      && ValidateReceipt(journal.persisted.value, target)
  {
  }

  lemma InvIsReal(gh: GitHub, journal: Journal, target: Target)
    requires Inv(gh, journal, target)
    ensures AllReal(gh.projects, target.owner)
  {
  }

  /** Whether a run has a chance: the receipt still says what the Project is, or there is neither a receipt
      nor a Project with the title. */
  ghost predicate Passable(gh: GitHub, journal: Journal, target: Target)
    reads gh, journal
  {
    if journal.persisted.Some? then Current(gh.projects, journal.persisted.value, target)
    else NoCollision(gh.projects, target)
  }

  /** One run of initialization: what a failed call hands back is written again, and last. */
  method ProvisionRun(gh: GitHub, journal: Journal, target: Target) returns (result: ProvisionResult)
    requires Inv(gh, journal, target)
    modifies gh, journal
    ensures Inv(gh, journal, target) && (result.Provisioned? ==> Finished(gh, journal, target, result.receipt))
    ensures old(journal.persisted).Some? ==> journal.persisted.Some? && gh.creates == old(gh.creates)
    ensures old(gh.mine) != [] ==> gh.creates == old(gh.creates)
    ensures result.Failed? && result.kept.Some? ==>
      && journal.log != [] && journal.log[|journal.log| - 1] == result.kept.value
      && (journal.reliable ==> journal.persisted == result.kept)
    ensures !old(Passable(gh, journal, target)) ==>
      && !result.Provisioned? && gh.projects == old(gh.projects) && gh.creates == old(gh.creates)
      && journal.persisted == old(journal.persisted)
    ensures Reliable(gh, journal) && ValidTarget(target) ==>
      (result.Provisioned? <==> old(Passable(gh, journal, target)))
  {
    hide Inv, Ours, Current, NoCollision;
    result := Provision(gh, journal, target, journal.persisted);
    if result.Failed? && result.kept.Some? {
      var written := WriteOurs(gh, journal, target, result.kept.value);
      if written.Died? {
        result := ProcessEnded;
      }
    }
  }

  /** A run without a chance leaves none to any later run. */
  method StuckForGood(gh: GitHub, journal: Journal, target: Target, runs: nat) returns (results: seq<ProvisionResult>)
    requires Inv(gh, journal, target) && !Passable(gh, journal, target)
    modifies gh, journal
    ensures !Passable(gh, journal, target) && gh.projects == old(gh.projects) && gh.creates == old(gh.creates)
    ensures |results| == runs && forall i :: 0 <= i < runs ==> !results[i].Provisioned?
  {
    hide Inv, Current, NoCollision;
    results := [];
    for run := 0 to runs
      invariant Inv(gh, journal, target) && journal.persisted == old(journal.persisted)
      invariant gh.projects == old(gh.projects) && gh.creates == old(gh.creates)
      invariant |results| == run && forall i :: 0 <= i < run ==> !results[i].Provisioned?
    {
      var result := ProvisionRun(gh, journal, target);
      results := results + [result];
    }
  }

  /** An edit that took effect and was never journaled takes the chance away from a receipt that had one. */
  lemma EditLeavesReceiptBehind(projects: seq<Project>, mine: seq<string>, r: Receipt, target: Target)
    requires AllReal(projects, target.owner) && Ours(projects, mine, r, target) && Current(projects, r, target)
    ensures var after := WithVisibility(projects, r.number, target.public);
            && AllReal(after, target.owner) && Ours(after, mine, r, target)
            && (Current(after, r, target) <==> r.public == target.public)
  {
    var after := WithVisibility(projects, r.number, target.public);
    VisibilityKeepsOurs(projects, mine, r, target, r.number, target.public);
    var i :| 0 <= i < |projects| && Names(projects[i], r, target) && projects[i].public == r.public;
    SameNumberSameProject(after, after[i], r, target);
  }

  /** It happens: the Project is made private and its receipt written, the edit takes effect, and the
      process ends. */
  method EditWithoutJournal(target: Target) returns (gh: GitHub, journal: Journal, ghost before: seq<Project>)
    requires ValidTarget(target) && target.public
    ensures fresh(gh) && fresh(journal) && Inv(gh, journal, target) && journal.persisted.Some?
    ensures var r := journal.persisted.value;
            && Current(before, r, target) && gh.projects == WithVisibility(before, r.number, target.public)
            && !Passable(gh, journal, target)
  {
    var p := NewProject([], target);
    gh := new GitHub([p], false);
    journal := new Journal(false);
    gh.mine := [p.nodeId];
    var receipt := ReceiptFromProject(target, p.(public := false)).value;
    gh.projects := [p.(public := false)];
    before := gh.projects;
    assert Names(before[0], receipt, target);
    journal.log, journal.persisted := [receipt], Some(receipt);
    EditLeavesReceiptBehind(before, gh.mine, receipt, target);
    gh.projects := WithVisibility(gh.projects, receipt.number, target.public);
  }

  /** Before the first run AGX has created nothing and written nothing. */
  ghost predicate Fresh(gh: GitHub, journal: Journal, target: Target)
    reads gh, journal
  {
    AllReal(gh.projects, target.owner) && gh.mine == [] && journal.persisted.None? && journal.log == []
  }

  /** Any number of runs, each ending anywhere: at most one Project is ever created, and every receipt
      ever written is valid and names it. */
  method ProvisionHistory(gh: GitHub, journal: Journal, target: Target, runs: nat)
    requires Fresh(gh, journal, target)
    modifies gh, journal
    ensures |gh.mine| <= 1
    ensures forall r :: r in journal.log ==> ValidateReceipt(r, target) && gh.mine == [r.nodeId]
    ensures forall r, q :: r in journal.log && q in journal.log ==> SameProjectIdentity(r, q)
  {
    for run := 0 to runs
      invariant Inv(gh, journal, target)
    {
      var _ := ProvisionRun(gh, journal, target);
    }
    forall r, q | r in journal.log && q in journal.log ensures SameProjectIdentity(r, q) {
      OneProject(gh.projects, gh.mine, r, q, target);
    }
  }

  lemma OneProject(projects: seq<Project>, mine: seq<string>, r: Receipt, q: Receipt, target: Target)
    requires AllReal(projects, target.owner) && Ours(projects, mine, r, target) && Ours(projects, mine, q, target)
    ensures SameProjectIdentity(r, q)
  {}

  /** The first runs up to a receipt, and then any number more: no create is issued once there is one. */
  method NoCreateAfterReceipt(gh: GitHub, journal: Journal, target: Target, runs: nat)
    requires Inv(gh, journal, target) && journal.persisted.Some?
    modifies gh, journal
    ensures gh.creates == old(gh.creates) && journal.persisted.Some?
  {
    for run := 0 to runs
      invariant Inv(gh, journal, target) && journal.persisted.Some? && gh.creates == old(gh.creates)
    {
      var _ := ProvisionRun(gh, journal, target);
    }
  }
}
