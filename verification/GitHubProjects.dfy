/**
 GitHub Projects of one owner, the commands AGX runs on them, and the receipt of the one Project that
 belongs to an Installation.

 A command may fail, its answer may be unreadable, and the process may end, each of them before or after
 the command took effect.  An answer that can be read is truthful, an inventory that can be read is
 complete, and nobody else creates, changes or removes Projects.  Where things are `reliable`, nothing fails.
 */
module GitHubProjects {
  import opened Wrappers

  datatype Url = ProjectUrl(organization: bool, owner: string, number: int) | OtherUrl(text: string)

  datatype Project = Project(nodeId: string, number: int, owner: string, title: string, url: Url, public: bool)

  datatype Target = Target(owner: string, title: string, public: bool, linkedRepository: string, installationId: string)

  datatype Verification = Created | Configured | Readback

  datatype Receipt = Receipt(
    owner: string, number: int, nodeId: string, url: Url, title: string, public: bool,
    linkedRepository: string, installationId: string, created: bool, linked: bool, verification: Verification)

  // ---------------------------------------------------------------- comparisons

  function FoldChar(c: char): char {
    if 'A' <= c <= 'Z' then c + 32 as char else c
  }

  function Fold(s: string): (folded: string)
    ensures |folded| == |s|
  {
    seq(|s|, i requires 0 <= i < |s| => FoldChar(s[i]))
  }

  predicate Blank(c: char) {
    c == ' ' || c == '\t' || c == '\n' || c == '\r'
  }

  function Trim(s: string): string
    decreases |s|
  {
    if s == "" then ""
    else if Blank(s[0]) then Trim(s[1..])
    else if Blank(s[|s| - 1]) then Trim(s[..|s| - 1])
    else s
  }

  predicate ValidTarget(target: Target) {
    target.title != "" && Trim(target.title) == target.title && target.installationId != ""
  }

  predicate Collides(p: Project, target: Target) {
    Fold(Trim(p.title)) == Fold(target.title)
  }

  predicate Coordinates(url: Url, owner: string, number: int) {
    url.ProjectUrl? && Fold(url.owner) == Fold(owner) && url.number == number
  }

  // ---------------------------------------------------------------- receipts

  /** The receipt a Project answers with, if it is the target's. */
  function ReceiptFromProject(target: Target, p: Project): Option<Receipt> {
    if p.nodeId == "" || p.number <= 0 || Fold(p.owner) != Fold(target.owner) || p.title != target.title
       || !Coordinates(p.url, target.owner, p.number)
    then None
    else Some(Receipt(target.owner, p.number, p.nodeId, p.url, p.title, p.public, target.linkedRepository,
                      target.installationId, true, false, Created))
  }

  predicate SameProjectIdentity(a: Receipt, b: Receipt) {
    a.owner == b.owner && a.number == b.number && a.nodeId == b.nodeId && a.title == b.title && a.url == b.url
  }

  predicate ValidateReceipt(receipt: Receipt, target: Target) {
    && receipt.owner == target.owner && receipt.title == target.title
    && receipt.linkedRepository == target.linkedRepository && receipt.installationId == target.installationId
    && receipt.number > 0 && receipt.nodeId != "" && Coordinates(receipt.url, receipt.owner, receipt.number)
    && receipt.created
    && (if receipt.verification.Readback? then receipt.linked else !receipt.linked)
  }

  // ---------------------------------------------------------------- the world

  /** A well-formed Project of `owner`. */
  predicate Real(p: Project, owner: string) {
    p.nodeId != "" && p.number > 0 && Fold(p.owner) == Fold(owner) && Coordinates(p.url, owner, p.number)
  }

  ghost predicate AllReal(projects: seq<Project>, owner: string) {
    && (forall i :: 0 <= i < |projects| ==> Real(projects[i], owner))
    && (forall i, j :: 0 <= i < j < |projects| ==>
          projects[i].number != projects[j].number && projects[i].nodeId != projects[j].nodeId)
  }

  predicate Unused(p: Project, projects: seq<Project>) {
    forall i :: 0 <= i < |projects| ==> projects[i].number != p.number && projects[i].nodeId != p.nodeId
  }

  function WithVisibility(projects: seq<Project>, number: int, public: bool): (after: seq<Project>)
    ensures |after| == |projects|
    ensures forall i :: 0 <= i < |projects| ==>
      after[i] == if projects[i].number == number then projects[i].(public := public) else projects[i]
  {
    seq(|projects|, i requires 0 <= i < |projects| =>
      if projects[i].number == number then projects[i].(public := public) else projects[i])
  }

  /** A number, and the length of a node id, that no Project has. */
  function Beyond(projects: seq<Project>): (n: nat)
    ensures n > 0 && forall i :: 0 <= i < |projects| ==> projects[i].number < n && |projects[i].nodeId| < n
  {
    if projects == [] then 1
    else
      var last := projects[|projects| - 1];
      var rest := Beyond(projects[..|projects| - 1]);
      var n := if last.number < rest then rest else last.number + 1;
      if |last.nodeId| < n then n else |last.nodeId| + 1
  }

  function NewProject(projects: seq<Project>, target: Target): (p: Project)
    ensures Real(p, target.owner) && p.title == target.title && Unused(p, projects)
  {
    var n := Beyond(projects);
    Project(seq(n, i => 'x'), n, target.owner, target.title, ProjectUrl(false, target.owner, n), false)
  }

  datatype Reply<+T> = Replied(value: T) | Errored | Died

  class GitHub {
    const reliable: bool
    var projects: seq<Project>
    var links: set<string>      // node ids of the Projects linked to the control repository
    ghost var creates: nat      // create commands issued
    ghost var mine: seq<string> // node ids of the Projects they created

    constructor (projects: seq<Project>, reliable: bool)
      ensures this.projects == projects && this.reliable == reliable && links == {} && creates == 0 && mine == []
    {
      this.projects, this.reliable, links, creates, mine := projects, reliable, {}, 0, [];
    }

    method Auth() returns (reply: Reply<bool>)
      ensures reliable ==> reply == Replied(true)
    {
      reply := *;
      if reliable {
        reply := Replied(true);
      }
    }

    method List() returns (reply: Reply<seq<Project>>)
      ensures reply.Replied? ==> reply.value == projects
      ensures reliable ==> reply.Replied?
    {
      reply := *;
      if reply.Replied? || reliable {
        reply := Replied(projects);
      }
    }

    /** Whatever it answers, it adds at most one Project, and none without the title asked for. */
    method Create(target: Target) returns (reply: Reply<Option<Project>>, ghost made: Option<Project>)
      modifies this
      ensures creates == old(creates) + 1 && links == old(links)
      ensures made.None? ==> projects == old(projects) && mine == old(mine) && !reply.Replied?
      ensures made.Some? ==>
        && Real(made.value, target.owner) && made.value.title == target.title && Unused(made.value, old(projects))
        && projects == old(projects) + [made.value] && mine == old(mine) + [made.value.nodeId]
      ensures reply.Replied? && reply.value.Some? ==> reply.value == made
      ensures reliable ==> reply.Replied? && reply.value.Some?
    {
      creates := creates + 1;
      var p: Project := *;
      var effect: bool, readable: bool := *, *;
      reply := *;
      made := None;
      if reliable {
        p, effect, readable, reply := NewProject(projects, target), true, true, Replied(None);
      }
      if !effect || !Real(p, target.owner) || p.title != target.title || !Unused(p, projects) {
        if reply.Replied? {
          reply := Errored;
        }
        return;
      }
      projects, mine, made := projects + [p], mine + [p.nodeId], Some(p);
      if reply.Replied? {
        reply := Replied(if readable then Some(p) else None);
      }
    }

    method View(number: int) returns (reply: Reply<Project>)
      ensures reply.Replied? ==> reply.value in projects && reply.value.number == number
      ensures reliable && (exists p :: p in projects && p.number == number) ==> reply.Replied?
    {
      reply := *;
      if reply.Replied? || reliable {
        reply := Errored;
        for i := 0 to |projects|
          invariant reply.Replied? ==> reply.value in projects && reply.value.number == number
          invariant forall k :: 0 <= k < i && projects[k].number == number ==> reply.Replied?
        {
          if projects[i].number == number {
            reply := Replied(projects[i]);
          }
        }
      }
    }

    method Edit(number: int, public: bool) returns (reply: Reply<Option<Project>>)
      modifies this`projects
      ensures projects == old(projects) || projects == WithVisibility(old(projects), number, public)
      ensures reply.Replied? ==> projects == WithVisibility(old(projects), number, public)
      ensures reply.Replied? && reply.value.Some? ==>
        reply.value.value in projects && reply.value.value.number == number
      ensures reliable ==> reply.Replied?
    {
      var effect: bool, readable: bool := *, *;
      reply := *;
      if reliable {
        reply := Replied(None);
      }
      if effect || reply.Replied? {
        projects := WithVisibility(projects, number, public);
      }
      if reply.Replied? {
        reply := Replied(None);
        var view := View(number);
        if readable && view.Replied? {
          reply := Replied(Some(view.value));
        }
      }
    }

    method Link(nodeId: string) returns (reply: Reply<()>)
      modifies this`links
      ensures links == old(links) || links == old(links) + {nodeId}
      ensures reply.Replied? ==> links == old(links) + {nodeId}
      ensures reliable ==> reply.Replied?
    {
      var effect: bool := *;
      reply := *;
      if reliable {
        reply := Replied(());
      }
      if effect || reply.Replied? {
        links := links + {nodeId};
      }
    }

    /** Whether issues are enabled in the control repository, and the Projects linked to it. */
    method Repository() returns (reply: Reply<(bool, set<string>)>)
      ensures reply.Replied? ==> reply.value.1 == links
      ensures reliable ==> reply.Replied? && reply.value.0
    {
      reply := *;
      if reliable {
        reply := Replied((true, links));
      }
      if reply.Replied? {
        reply := Replied((reply.value.0, links));
      }
    }
  }

  /** The place where receipts are kept between runs, and all that was ever written there. */
  class Journal {
    const reliable: bool
    var persisted: Option<Receipt>
    ghost var log: seq<Receipt>

    constructor (reliable: bool)
      ensures persisted.None? && log == [] && this.reliable == reliable
    {
      persisted, log, this.reliable := None, [], reliable;
    }

    method Write(receipt: Receipt) returns (reply: Reply<()>)
      modifies this
      ensures log == old(log) + [receipt]
      ensures persisted == old(persisted) || persisted == Some(receipt)
      ensures reply.Replied? ==> persisted == Some(receipt)
      ensures reliable ==> reply.Replied?
    {
      log := log + [receipt];
      var effect: bool := *;
      reply := *;
      if reliable {
        reply := Replied(());
      }
      if effect || reply.Replied? {
        persisted := Some(receipt);
      }
    }
  }
}
