/**
 The command cache of one status operation: it answers as the bare runner would, runs each read at most
 once, and keeps its copies to itself.
 */
module MemoizingRunner {
  import opened Wrappers

  type Byte = b: int | 0 <= b < 256

  datatype Command = Command(dir: string, name: string, args: seq<string>)

  /** What a runner answers: the bytes of its output, and an error if there was one. */
  datatype Answer = Answer(output: seq<Byte>, error: Option<string>)

  // ---------------------------------------------------------------- the allowlist

  function UpperChar(c: char): char {
    if 'a' <= c <= 'z' then c - 32 as char else c
  }

  predicate IsGet(s: string) {
    |s| == 3 && UpperChar(s[0]) == 'G' && UpperChar(s[1]) == 'E' && UpperChar(s[2]) == 'T'
  }

  predicate BodyFlag(arg: string) {
    arg == "--input" || arg == "--field" || arg == "-f" || arg == "--raw-field" || arg == "-F"
  }

  const METHOD_PREFIX := "--method="

  /** The method named at `args[i]`, if that is a method flag with a value. */
  function MethodAt(args: seq<string>, i: nat): Option<string>
    requires i < |args|
  {
    if (args[i] == "--method" || args[i] == "-X") && i + 1 < |args| then Some(args[i + 1])
    else if METHOD_PREFIX <= args[i] then Some(args[i][|METHOD_PREFIX|..])
    else if "-X" <= args[i] && |args[i]| > 2 then Some(args[i][2..])
    else None
  }

  /** The first flag that decides makes the call a read: no body flag, and the method GET. */
  predicate ApiRead(args: seq<string>, i: nat)
    decreases |args| - i
  {
    if i >= |args| then true
    else if BodyFlag(args[i]) then false
    else if MethodAt(args, i).Some? then IsGet(MethodAt(args, i).value)
    else ApiRead(args, i + 1)
  }

  method MemoizingGitHubApiRead(args: seq<string>) returns (read: bool)
    ensures read == ApiRead(args, 0)
  {
    for i := 0 to |args|
      invariant ApiRead(args, i) == ApiRead(args, 0)
    {
      if BodyFlag(args[i]) {
        return false;
      }
      if (args[i] == "--method" || args[i] == "-X") && i + 1 < |args| {
        return IsGet(args[i + 1]);
      }
      if METHOD_PREFIX <= args[i] {
        return IsGet(args[i][|METHOD_PREFIX|..]);
      }
      if "-X" <= args[i] && |args[i]| > 2 {
        return IsGet(args[i][2..]);
      }
    }
    return true;
  }

  predicate Decides(args: seq<string>, i: nat)
    requires i < |args|
  {
    BodyFlag(args[i]) || MethodAt(args, i).Some?
  }

  /** A call is a read exactly if nothing in it decides, or the first thing that does names GET. */
  lemma {:induction false} ApiReadExactly(args: seq<string>, i: nat)
    requires i <= |args|
    ensures ApiRead(args, i) <==>
      || (forall k :: i <= k < |args| ==> !Decides(args, k))
      || (exists k :: i <= k < |args| && !BodyFlag(args[k]) && MethodAt(args, k).Some? && IsGet(MethodAt(args, k).value)
                      && forall j :: i <= j < k ==> !Decides(args, j))
    decreases |args| - i
  {
    if i < |args| {
      ApiReadExactly(args, i + 1);
      if !Decides(args, i) && ApiRead(args, i + 1) && !(forall k :: i + 1 <= k < |args| ==> !Decides(args, k)) {
        var k :| i + 1 <= k < |args| && !BodyFlag(args[k]) && MethodAt(args, k).Some? && IsGet(MethodAt(args, k).value)
                 && forall j :: i + 1 <= j < k ==> !Decides(args, j);
        assert forall j :: i <= j < k ==> !Decides(args, j);
      }
    }
  }

  /** A body flag written together with its value, which the allowlist does not look for. */
  predicate AttachedBodyFlag(arg: string) {
    || "--input=" <= arg || "--field=" <= arg || "--raw-field=" <= arg
    || (("-f" <= arg || "-F" <= arg) && |arg| > 2)
  }

  predicate CarriesBody(args: seq<string>) {
    exists k :: 0 <= k < |args| && (BodyFlag(args[k]) || AttachedBodyFlag(args[k]))
  }

  /** The first argument that decides, if one does. */
  function DecidedAt(args: seq<string>, i: nat): (k: nat)
    requires i <= |args|
    ensures i <= k <= |args| && (k < |args| ==> Decides(args, k))
    ensures forall j :: i <= j < k ==> !Decides(args, j)
    decreases |args| - i
  {
    if i == |args| || Decides(args, i) then i else DecidedAt(args, i + 1)
  }

  lemma {:induction false} ReadDecides(args: seq<string>, i: nat)
    requires i <= |args| && ApiRead(args, i)
    ensures forall k :: i <= k <= DecidedAt(args, i) && k < |args| ==> !BodyFlag(args[k])
    decreases |args| - i
  {
    hide BodyFlag, MethodAt;
    if i < |args| && !Decides(args, i) {
      ReadDecides(args, i + 1);
    }
  }

  /** A call taken for a read carries no body flag if and only if none is written together with its value,
      and none comes after the flag that names the method. */
  lemma ReadWithoutBodyExactly(args: seq<string>)
    requires ApiRead(args, 0)
    ensures !CarriesBody(args) <==>
      && (forall k :: 0 <= k < |args| ==> !AttachedBodyFlag(args[k]))
      && (forall k :: DecidedAt(args, 0) < k < |args| ==> !BodyFlag(args[k]))
  {
    hide BodyFlag, AttachedBodyFlag, ApiRead, DecidedAt;
    ReadDecides(args, 0);
  }

  /** Both happen. */
  lemma BodiesAreOverlooked()
    ensures var attached := ["repos/o/r/issues", "-ftitle=x"]; ApiRead(attached, 0) && CarriesBody(attached)
    ensures var late := ["repos/o/r/issues", "-XGET", "-f", "title=x"]; ApiRead(late, 0) && CarriesBody(late)
  {
    var attached, late := ["repos/o/r/issues", "-ftitle=x"], ["repos/o/r/issues", "-XGET", "-f", "title=x"];
    assert AttachedBodyFlag(attached[1]) && BodyFlag(late[2]);
    PlainWord(attached, 0);
    PlainWord(attached, 1);
    PlainWord(late, 0);
    assert ApiRead(attached, 2) && late[1][0] == '-' && late[1][1] == 'X' && METHOD_PREFIX[1] == '-';
    assert late[1][2..] == "GET" && MethodAt(late, 1) == Some("GET");
  }

  lemma PlainWord(args: seq<string>, i: nat)
    requires i < |args| && |args[i]| > 2 && (args[i][0] == 'r' || args[i][1] == 'f')
    ensures !Decides(args, i)
  {
    assert METHOD_PREFIX[0] == METHOD_PREFIX[1] == '-';
  }

  predicate ReadCommand(name: string, args: seq<string>) {
    if name == "git" then |args| >= 1 && args[0] == "rev-parse"
    else
      && name == "gh" && |args| >= 2
      && (|| (args[0] == "repo" && args[1] == "view")
          || (args[0] == "auth" && args[1] == "status")
          || (args[0] == "issue" && args[1] == "list")
          || (args[0] == "pr" && args[1] == "list")
          || (args[0] == "project" && (args[1] == "list" || args[1] == "item-list" || args[1] == "view"))
          || (args[0] == "api" && ApiRead(args[2..], 0)))
  }

  predicate Memoized(c: Command) {
    ReadCommand(c.name, c.args)
  }

  // ---------------------------------------------------------------- keys

  const NUL := 0 as char

  function JoinArgs(args: seq<string>): string {
    if args == [] then "" else if |args| == 1 then args[0] else args[0] + ([NUL] + JoinArgs(args[1..]))
  }

  datatype Key = Key(dir: string, name: string, args: string)

  function KeyOf(c: Command): Key {
    Key(c.dir, c.name, JoinArgs(c.args))
  }

  predicate NoNul(args: seq<string>) {
    forall i, k :: 0 <= i < |args| && 0 <= k < |args[i]| ==> args[i][k] != NUL
  }

  /** The first argument ends where the first NUL is, or the text does. */
  lemma FirstEnds(args: seq<string>)
    requires args != [] && NoNul(args)
    ensures var t := JoinArgs(args); var n := |args[0]|;
            && n <= |t| && t[..n] == args[0] && (forall k :: 0 <= k < n ==> t[k] != NUL)
            && (|args| == 1 ==> n == |t|)
            && (|args| > 1 ==> n < |t| && t[n] == NUL && t[n + 1..] == JoinArgs(args[1..]))
  {}

  /** Lists with at least one argument, none of which holds a NUL, have different keys. */
  lemma {:induction false} JoinIsInjective(a: seq<string>, b: seq<string>)
    requires a != [] && b != [] && NoNul(a) && NoNul(b) && JoinArgs(a) == JoinArgs(b)
    ensures a == b
    decreases |a|
  {
    FirstEnds(a);
    FirstEnds(b);
    var t := JoinArgs(a);
    assert |a[0]| == |b[0]|;
    if |a| == 1 || |b| == 1 {
      assert a == [a[0]] && b == [b[0]];
    } else {
      JoinIsInjective(a[1..], b[1..]);
      assert a == [a[0]] + a[1..] && b == [b[0]] + b[1..];
    }
  }

  /** Without an argument the key would not tell: no arguments, or one empty argument. */
  lemma EmptyListsCollide()
    ensures JoinArgs([]) == JoinArgs([""]) && !(exists name :: ReadCommand(name, []))
  {
  }

  /** Two commands that are memoized and contain no NUL share a key only if they are the same. */
  lemma KeyTells(c: Command, d: Command)
    requires Memoized(c) && Memoized(d) && NoNul(c.args) && NoNul(d.args) && KeyOf(c) == KeyOf(d)
    ensures c == d
  {
    JoinIsInjective(c.args, d.args);
  }

  // ---------------------------------------------------------------- the runners

  /** A runner whose answers do not change; `calls` is what it was asked. */
  class Runner {
    const answers: Command -> Answer
    ghost var calls: seq<Command>

    constructor (answers: Command -> Answer)
      ensures this.answers == answers && calls == []
    {
      this.answers := answers;
      calls := [];
    }

    method Run(c: Command) returns (output: array<Byte>, error: Option<string>)
      modifies this
      ensures fresh(output) && Answer(output[..], error) == answers(c)
      ensures calls == old(calls) + [c]
    {
      calls := calls + [c];
      output := Copy(answers(c).output);
      error := answers(c).error;
    }
  }

  method Copy(bytes: seq<Byte>) returns (output: array<Byte>)
    ensures fresh(output) && output[..] == bytes
  {
    output := new Byte[|bytes|](i requires 0 <= i < |bytes| => bytes[i]);
  }

  datatype Cached = Cached(output: array<Byte>, error: Option<string>)

  class Memoizing {
    const underlying: Runner
    var results: map<Key, Cached>
    ghost var seen: set<Command>     // the commands whose answers are in the cache
    ghost var owned: set<object>     // the arrays in the cache

    ghost predicate Holds(c: Command)
      reads this, owned
    {
      && Memoized(c) && NoNul(c.args)
      && KeyOf(c) in results && results[KeyOf(c)].output in owned
      && Answer(results[KeyOf(c)].output[..], results[KeyOf(c)].error) == underlying.answers(c)
    }

    ghost predicate Valid()
      reads this, owned
    {
      && this !in owned && underlying !in owned
      && (forall c :: c in seen ==> Holds(c))
      && forall key :: key in results ==> exists c :: c in seen && KeyOf(c) == key
    }

    constructor (runner: Runner)
      ensures Valid() && underlying == runner && seen == {} && owned == {}
    {
      underlying, results, seen, owned := runner, map[], {}, {};
    }

    /** A command is in the cache exactly if its key is. */
    lemma Found(c: Command)
      requires Valid() && Memoized(c) && NoNul(c.args)
      ensures KeyOf(c) in results <==> c in seen
    {
      hide ReadCommand, JoinArgs, NoNul;
      if KeyOf(c) in results {
        var d :| d in seen && KeyOf(d) == KeyOf(c);
        assert Holds(d);
        KeyTells(c, d);
      }
      assert c in seen ==> Holds(c);
    }

    /**
     Answers as the underlying runner would, asking it only if it must.  The bytes handed out are the
     caller's own: no array of the cache is among them.
     */
    method Run(c: Command) returns (output: array<Byte>, error: Option<string>)
      requires Valid() && NoNul(c.args)
      modifies this, underlying
      ensures Valid() && fresh(output) && output !in owned && owned >= old(owned) && fresh(owned - old(owned))
      ensures Answer(output[..], error) == underlying.answers(c)
      ensures seen == old(seen) + if Memoized(c) then {c} else {}
      ensures underlying.calls == old(underlying.calls) + if Memoized(c) && c in old(seen) then [] else [c]
    {
      hide ReadCommand, JoinArgs, NoNul;
      if !Memoized(c) {
        output, error := underlying.Run(c);
        assert forall d :: d in seen ==> old(Holds(d)) && Holds(d);
        return;
      }
      Found(c);
      var key := KeyOf(c);
      if key in results {
        assert Holds(c);
        output := Copy(results[key].output[..]);
        error := results[key].error;
        assert forall d :: d in seen ==> old(Holds(d)) && Holds(d);
        return;
      }
      output, error := underlying.Run(c);
      Remember(c, output, error);
    }

    /** Puts a copy of an answer into the cache. */
    method Remember(c: Command, output: array<Byte>, error: Option<string>)
      requires Valid() && Memoized(c) && NoNul(c.args) && KeyOf(c) !in results
      requires Answer(output[..], error) == underlying.answers(c)
      modifies this
      ensures Valid() && seen == old(seen) + {c} && owned >= old(owned) && fresh(owned - old(owned))
    {
      hide ReadCommand, JoinArgs, NoNul;
      var copy := Copy(output[..]);
      results := results[KeyOf(c) := Cached(copy, error)];
      seen, owned := seen + {c}, owned + {copy};
      forall d | d in seen ensures Holds(d) {
        if d != c {
          assert old(Holds(d));
        }
      }
      forall key | key in results ensures exists d :: d in seen && KeyOf(d) == key {
        if key != KeyOf(c) {
          var d :| d in old(seen) && KeyOf(d) == key;
          assert d in seen;
        }
      }
    }
  }

  // ---------------------------------------------------------------- whole operations

  /** What reaches the underlying runner: every command that is not memoized, and of each memoized one
      its first run. */
  function Forwarded(commands: seq<Command>, seen: set<Command>): seq<Command> {
    if commands == [] then []
    else
      var c := commands[0];
      (if Memoized(c) && c in seen then [] else [c])
      + Forwarded(commands[1..], if Memoized(c) then seen + {c} else seen)
  }

  function Others(commands: seq<Command>): seq<Command> {
    if commands == [] then [] else (if Memoized(commands[0]) then [] else [commands[0]]) + Others(commands[1..])
  }

  function Count(commands: seq<Command>, c: Command): nat {
    if commands == [] then 0 else (if commands[0] == c then 1 else 0) + Count(commands[1..], c)
  }

  /** Each read runs once however often it is asked for, and all else is passed on, in order. */
  lemma {:induction false} ForwardedExactly(commands: seq<Command>, seen: set<Command>, c: Command)
    ensures Others(Forwarded(commands, seen)) == Others(commands)
    ensures Memoized(c) ==> Count(Forwarded(commands, seen), c) == if c in commands && c !in seen then 1 else 0
    decreases |commands|
  {
    hide Memoized;
    if commands != [] {
      var first := commands[0];
      var rest := Forwarded(commands[1..], if Memoized(first) then seen + {first} else seen);
      ForwardedExactly(commands[1..], if Memoized(first) then seen + {first} else seen, c);
      var forwarded := Forwarded(commands, seen);
      if Memoized(first) && first in seen {
        assert forwarded == rest;
      } else {
        assert forwarded == [first] + rest && forwarded[1..] == rest;
      }
      assert c in commands <==> c == first || c in commands[1..];
    }
  }

  /** What the caller does with the bytes it was given. */
  method Scribble(output: array<Byte>)
    modifies output
  {
    for i := 0 to output.Length {
      output[i] := *;
    }
  }

  /** Runs one command and overwrites the output once it is read. */
  method RunAndScribble(memoizing: Memoizing, c: Command) returns (answer: Answer)
    requires memoizing.Valid() && NoNul(c.args)
    modifies memoizing, memoizing.underlying
    ensures memoizing.Valid() && answer == memoizing.underlying.answers(c)
    ensures memoizing.seen == old(memoizing.seen) + if Memoized(c) then {c} else {}
    ensures memoizing.underlying.calls
         == old(memoizing.underlying.calls) + if Memoized(c) && c in old(memoizing.seen) then [] else [c]
  {
    hide Memoized, NoNul, KeyOf;
    var output, error := memoizing.Run(c);
    answer := Answer(output[..], error);
    label Scribbling:
    Scribble(output);
    assert forall d :: d in memoizing.seen ==> old@Scribbling(memoizing.Holds(d)) && memoizing.Holds(d);
  }

  lemma ForwardedStep(commands: seq<Command>, i: nat, seen: set<Command>)
    requires i < |commands|
    ensures var c := commands[i];
      Forwarded(commands[i..], seen)
      == (if Memoized(c) && c in seen then [] else [c])
         + Forwarded(commands[i + 1..], seen + if Memoized(c) then {c} else {})
  {
    hide Memoized;
    assert commands[i..][0] == commands[i] && commands[i..][1..] == commands[i + 1..];
    assert seen + {} == seen;
  }

  /** A whole operation, whose caller overwrites every output it gets: each answer is still the one the
      bare runner would give. */
  method RunAll(runner: Runner, commands: seq<Command>) returns (answers: seq<Answer>)
    requires forall c :: c in commands ==> NoNul(c.args)
    requires runner.calls == []
    modifies runner
    ensures |answers| == |commands| && forall i :: 0 <= i < |commands| ==> answers[i] == runner.answers(commands[i])
    ensures runner.calls == Forwarded(commands, {})
  {
    hide Memoized, NoNul, Forwarded, Memoizing.Valid;
    var memoizing := new Memoizing(runner);
    answers := [];
    assert commands[0..] == commands;
    for i := 0 to |commands|
      invariant memoizing.Valid()
      invariant |answers| == i && forall k :: 0 <= k < i ==> answers[k] == runner.answers(commands[k])
      invariant runner.calls + Forwarded(commands[i..], memoizing.seen) == Forwarded(commands, {})
    {
      assert commands[i] in commands;
      ForwardedStep(commands, i, memoizing.seen);
      var answer := RunAndScribble(memoizing, commands[i]);
      answers := answers + [answer];
    }
    NothingLeft(commands, memoizing.seen);
  }

  lemma NothingLeft(commands: seq<Command>, seen: set<Command>)
    ensures Forwarded(commands[|commands|..], seen) == []
  {
  }
}
