/**
 The command that `agx init` prints for the user to run next, and the option parser that reads it
 when the user does.
 */
module CommandLine {
  import opened Wrappers
  import opened ShellWords

  datatype Platform = Windows | Other

  // ---------------------------------------------------------------- quoting

  predicate SafeCharacter(c: char, platform: Platform) {
    || 'a' <= c <= 'z' || 'A' <= c <= 'Z' || '0' <= c <= '9'
    || c == '_' || c == '.' || c == '/' || c == '-'
    || (platform.Windows? && (c == ':' || c == '\\'))
    || (platform.Other? && (c == '@' || c == '%' || c == '+' || c == '=' || c == ':' || c == ','))
  }

  predicate SafeArg(value: string, platform: Platform) {
    value != "" && forall i :: 0 <= i < |value| ==> SafeCharacter(value[i], platform)
  }

  function ReplaceQuotes(value: string, with: string): string {
    if value == "" then ""
    else (if value[0] == '\'' then with else [value[0]]) + ReplaceQuotes(value[1..], with)
  }

  function QuoteArg(value: string, platform: Platform): string {
    if SafeArg(value, platform) then value
    else if platform.Windows? then "'" + (ReplaceQuotes(value, "''") + "'")
    else "'" + (ReplaceQuotes(value, "'\"'\"'") + "'")
  }

  function QuoteAll(args: seq<string>, platform: Platform): (quoted: seq<string>)
    ensures |quoted| == |args| && forall i :: 0 <= i < |args| ==> quoted[i] == QuoteArg(args[i], platform)
  {
    seq(|args|, i requires 0 <= i < |args| => QuoteArg(args[i], platform))
  }

  function Join(parts: seq<string>): string {
    if parts == [] then "" else if |parts| == 1 then parts[0] else parts[0] + (" " + Join(parts[1..]))
  }

  const APPLY := "--apply"

  /** The arguments after `agx init`: those given, and `--apply` unless it is among them. */
  function InitArgs(args: seq<string>, appendApply: bool): seq<string> {
    if appendApply && APPLY !in args then args + [APPLY] else args
  }

  method FormatInitCommand(args: seq<string>, appendApply: bool, platform: Platform) returns (text: string)
    ensures text == Join(QuoteAll(["agx", "init"] + InitArgs(args, appendApply), platform))
  {
    var command := ["agx", "init"] + args;
    if appendApply {
      var hasApply := false;
      for index := 0 to |args|
        invariant hasApply <==> APPLY in args[..index]
      {
        if args[index] == APPLY {
          hasApply := true;
          break;
        }
      }
      if !hasApply {
        command := command + [APPLY];
      }
    }
    ghost var unquoted := ["agx", "init"] + InitArgs(args, appendApply);
    assert command == unquoted;
    for index := 0 to |command|
      invariant |command| == |unquoted|
      invariant forall i :: 0 <= i < index ==> command[i] == QuoteArg(unquoted[i], platform)
      invariant forall i :: index <= i < |command| ==> command[i] == unquoted[i]
    {
      command := command[index := QuoteArg(command[index], platform)];
    }
    assert command == QuoteAll(unquoted, platform);
    text := Join(command);
  }

  // ---------------------------------------------------------------- reading the line back

  function Words(t: string, platform: Platform): Option<seq<string>> {
    WordsOn(t, platform, [])
  }

  lemma GrownTwice(word: Option<string>, v: string)
    requires v != ""
    ensures Grown(Grown(word, [v[0]]), v[1..]) == Grown(word, v)
  {
    assert [v[0]] + v[1..] == v;
    if word.Some? {
      assert word.value + [v[0]] + v[1..] == word.value + v;
    }
  }

  lemma {:induction false} PosixBare(v: string, rest: string, word: Option<string>, words: seq<string>)
    requires v != "" && forall i :: 0 <= i < |v| ==> SafeCharacter(v[i], Other)
    ensures Posix(v + rest, Bare, word, words) == Posix(rest, Bare, Grown(word, v), words)
    decreases |v|
  {
    assert (v + rest)[1..] == v[1..] + rest;
    assert SafeCharacter(v[0], Other);
    if |v| > 1 {
      PosixBare(v[1..], rest, Grown(word, [v[0]]), words);
      GrownTwice(word, v);
    } else {
      assert v[1..] + rest == rest && [v[0]] == v;
    }
  }

  /** Five characters put one quote into the word and go on quoting. */
  lemma PosixEscapedQuote(rest: string, word: Option<string>, words: seq<string>)
    requires word.Some?
    ensures Posix("'\"'\"'" + rest, Single, word, words) == Posix(rest, Single, Grown(word, "'"), words)
  {
    var t4 := "'" + rest;
    var t3 := "\"" + t4;
    var t2 := "'" + t3;
    var t1 := "\"" + t2;
    assert "'\"'\"'" + rest == "'" + t1;
    assert ("'" + t1)[1..] == t1 && t1[1..] == t2 && t2[1..] == t3 && t3[1..] == t4 && t4[1..] == rest;
    var grown := Grown(word, "'");
    assert word.value + "" == word.value && grown.value + "" == grown.value;
    assert Posix("'" + t1, Single, word, words) == Posix(t1, Bare, word, words) == Posix(t2, Double, word, words);
    assert Posix(t2, Double, word, words) == Posix(t3, Double, grown, words) == Posix(t4, Bare, grown, words);
  }

  /** Inside quotes, any other character is itself, and the quote ends them. */
  lemma PosixInside(c: char, rest: string, word: Option<string>, words: seq<string>)
    ensures c != '\'' ==> Posix([c] + rest, Single, word, words) == Posix(rest, Single, Grown(word, [c]), words)
    ensures Posix("'" + rest, Single, word, words) == Posix(rest, Bare, word, words)
  {}

  lemma {:induction false} PosixQuoted(v: string, rest: string, word: Option<string>, words: seq<string>)
    requires word.Some?
    ensures Posix(ReplaceQuotes(v, "'\"'\"'") + ("'" + rest), Single, word, words)
      == Posix(rest, Bare, Grown(word, v), words)
    decreases |v|
  {
    hide Posix;
    var tail := "'" + rest;
    if v == "" {
      assert "" + tail == tail && word.value + v == word.value;
      PosixInside(' ', rest, word, words);
    } else {
      var inner := ReplaceQuotes(v[1..], "'\"'\"'") + tail;
      PosixQuoted(v[1..], rest, Grown(word, [v[0]]), words);
      GrownTwice(word, v);
      if v[0] == '\'' {
        PosixEscapedQuote(inner, word, words);
        assert ReplaceQuotes(v, "'\"'\"'") + tail == "'\"'\"'" + inner;
        assert [v[0]] == "'";
      } else {
        assert ReplaceQuotes(v, "'\"'\"'") + tail == [v[0]] + inner;
        PosixInside(v[0], inner, word, words);
      }
    }
  }

  lemma {:induction false} WindowsBare(v: string, rest: string, word: Option<string>, words: seq<string>)
    requires v != "" && forall i :: 0 <= i < |v| ==> SafeCharacter(v[i], Windows)
    ensures PowerShell(v + rest, Outside, word, words) == PowerShell(rest, Outside, Grown(word, v), words)
    decreases |v|
  {
    assert (v + rest)[1..] == v[1..] + rest;
    assert SafeCharacter(v[0], Windows);
    if |v| > 1 {
      WindowsBare(v[1..], rest, Grown(word, [v[0]]), words);
      GrownTwice(word, v);
    } else {
      assert v[1..] + rest == rest && [v[0]] == v;
    }
  }

  /** No typographic single quote. */
  predicate StraightQuotes(v: string) {
    forall i :: 0 <= i < |v| ==> !Typographic(v[i])
  }

  /** One step inside a literal. */
  lemma WindowsInside(c: char, rest: string, w: string, words: seq<string>)
    ensures !SingleQuote(c) ==>
      PowerShell([c] + rest, Whole, Some(w), words) == PowerShell(rest, Whole, Some(w + [c]), words)
    ensures PowerShell("''" + rest, Whole, Some(w), words) == PowerShell(rest, Whole, Some(w + "'"), words)
  {
    assert ("''" + rest)[2..] == rest && ("''" + rest)[1] == '\'';
    assert ([c] + rest)[1..] == rest;
  }

  /** A quote followed by another gives the second; alone it ends the literal. */
  lemma WindowsQuote(q: char, rest: string, w: string, words: seq<string>)
    requires SingleQuote(q)
    ensures rest != "" && SingleQuote(rest[0]) ==>
      PowerShell([q] + rest, Whole, Some(w), words) == PowerShell(rest[1..], Whole, Some(w + [rest[0]]), words)
    ensures rest == "" || !SingleQuote(rest[0]) ==>
      PowerShell([q] + rest, Whole, Some(w), words) == PowerShell(rest, Outside, None, words + [w])
  {
    assert ([q] + rest)[1..] == rest;
    if rest != "" {
      assert ([q] + rest)[2..] == rest[1..] && ([q] + rest)[1] == rest[0];
    }
  }

  /** What is printed for the rest `x` of an argument, with what follows the argument. */
  function Printed(x: string, rest: string): string {
    ReplaceQuotes(x, "''") + ("'" + rest)
  }

  lemma PrintedFirst(x: string, rest: string)
    requires x != ""
    ensures Printed(x, rest) == (if x[0] == '\'' then "''" else [x[0]]) + Printed(x[1..], rest)
  {}

  lemma PrintedHead(x: string, rest: string)
    ensures Printed(x, rest) != "" && Printed(x, rest)[0] == if x == "" then '\'' else x[0]
    ensures x != "" && x[0] != '\'' ==> Printed(x, rest)[1..] == Printed(x[1..], rest)
  {
    if x == "" {
      assert Printed(x, rest) == ['\''] + rest;
    } else {
      PrintedFirst(x, rest);
    }
  }

  lemma {:induction false} WindowsQuoted(v: string, rest: string, w: string, words: seq<string>)
    requires StraightQuotes(v) && (rest == "" || rest[0] == ' ')
    ensures PowerShell(Printed(v, rest), Whole, Some(w), words) == PowerShell(rest, Outside, None, words + [w + v])
    decreases |v|
  {
    hide PowerShell;
    if v == "" {
      assert Printed(v, rest) == ['\''] + rest && w + v == w;
      WindowsQuote('\'', rest, w, words);
    } else {
      PrintedFirst(v, rest);
      WindowsInside(v[0], Printed(v[1..], rest), w, words);
      WindowsQuoted(v[1..], rest, w + [v[0]], words);
      assert w + [v[0]] + v[1..] == w + v;
    }
  }

  /** Words that are finished stay, and a word that has begun only grows. */
  lemma {:induction false} WordsStay(t: string, quoting: Quoting, word: Option<string>, words: seq<string>)
    ensures var read := PowerShell(t, quoting, word, words);
            read.Some? ==>
              && words <= read.value
              && (word.Some? ==> |words| < |read.value| && word.value <= read.value[|words|])
    decreases |t|
  {
    if t != "" {
      var c := t[0];
      if quoting.Outside? {
        if Blank(c) {
          WordsStay(t[1..], Outside, None, Flushed(word, words));
        } else if SingleQuote(c) {
          WordsStay(t[1..], if word.Some? then Part else Whole, Grown(word, ""), words);
        } else if !PowerShellSpecial(c) {
          WordsStay(t[1..], Outside, Grown(word, [c]), words);
        }
      } else if !SingleQuote(c) {
        WordsStay(t[1..], quoting, Grown(word, [c]), words);
      } else if |t| > 1 && SingleQuote(t[1]) {
        WordsStay(t[2..], quoting, Grown(word, [t[1]]), words);
      } else if quoting.Part? {
        WordsStay(t[1..], Outside, word, words);
      } else {
        WordsStay(t[1..], Outside, None, Flushed(word, words));
      }
    }
  }

  /** The next word read will not be `v`. */
  ghost predicate Missed(read: Option<seq<string>>, words: seq<string>, v: string) {
    read.Some? ==> words <= read.value && |words| < |read.value| && read.value[|words|] != v
  }

  lemma EndedShort(t: string, w: string, words: seq<string>, v: string)
    requires w != v
    ensures Missed(PowerShell(t, Outside, None, words + [w]), words, v)
  {
    WordsStay(t, Outside, None, words + [w]);
  }

  lemma GrewWrong(t: string, w: string, c: char, words: seq<string>, v: string)
    requires |w| < |v| && c != v[|w|]
    ensures Missed(PowerShell(t, Whole, Some(w + [c]), words), words, v)
  {
    WordsStay(t, Whole, Some(w + [c]), words);
    assert (w + [c])[|w|] == c;
  }

  /** A literal with a typographic quote in it never gives the argument back: from that quote on the word
      falls behind what is printed, by `behind`, which is made of such quotes, and cannot catch up. */
  lemma {:induction false} WindowsLost(v: string, w: string, behind: string, x: string, rest: string,
                                       words: seq<string>)
    requires v == w + behind + x && (rest == "" || rest[0] == ' ')
    requires forall i :: 0 <= i < |behind| ==> Typographic(behind[i])
    requires behind == "" ==> !StraightQuotes(x)
    ensures Missed(PowerShell(Printed(x, rest), Whole, Some(w), words), words, v)
    decreases |x|
  {
    hide PowerShell, Missed;
    if x == "" {
      assert Printed(x, rest) == ['\''] + rest;
      WindowsQuote('\'', rest, w, words);
      EndedShort(rest, w, words, v);
    } else {
      PrintedFirst(x, rest);
      var next := Printed(x[1..], rest);
      if Typographic(x[0]) {
        LostPair(v, w, behind, x, rest, words);
      } else {
        WindowsInside(x[0], next, w, words);
        if behind == "" {
          assert w + [x[0]] + "" + x[1..] == v;
          WindowsLost(v, w + [x[0]], "", x[1..], rest, words);
        } else {
          assert v[|w|] == behind[0];
          GrewWrong(next, w, x[0], words, v);
        }
      }
    }
  }

  lemma {:induction false} LostPair(v: string, w: string, behind: string, x: string, rest: string,
                                    words: seq<string>)
    requires v == w + behind + x && (rest == "" || rest[0] == ' ')
    requires forall i :: 0 <= i < |behind| ==> Typographic(behind[i])
    requires x != "" && Typographic(x[0])
    ensures Missed(PowerShell(Printed(x, rest), Whole, Some(w), words), words, v)
    decreases |x|, 0
  {
    hide PowerShell, Missed, Printed;
    PrintedHead(x, rest);
    PrintedHead(x[1..], rest);
    var next := Printed(x[1..], rest);
    assert Printed(x, rest) == [x[0]] + next;
    WindowsQuote(x[0], next, w, words);
    var due := (behind + x)[0];
    assert v[|w|] == due && Typographic(due);
    if |x| == 1 || x[1] == '\'' {
      GrewWrong(next[1..], w, '\'', words, v);
    } else {
      assert next[0] == x[1] && next[1..] == Printed(x[2..], rest) by { assert x[1..][1..] == x[2..]; }
      if !Typographic(x[1]) {
        EndedShort(next, w, words, v);
      } else if x[1] != due {
        GrewWrong(next[1..], w, x[1], words, v);
      } else {
        var later := (behind + x[..2])[1..];
        assert v == w + [due] + later + x[2..];
        WindowsLost(v, w + [due], later, x[2..], rest, words);
      }
    }
  }

  lemma PosixArg(v: string, rest: string, words: seq<string>)
    ensures Posix(QuoteArg(v, Other) + rest, Bare, None, words) == Posix(rest, Bare, Some(v), words)
  {
    if SafeArg(v, Other) {
      PosixBare(v, rest, None, words);
    } else {
      var inner := ReplaceQuotes(v, "'\"'\"'") + ("'" + rest);
      assert QuoteArg(v, Other) + rest == "'" + inner;
      assert ("'" + inner)[1..] == inner;
      PosixQuoted(v, rest, Some(""), words);
      assert "" + v == v;
    }
  }

  lemma WindowsArg(v: string, rest: string, words: seq<string>)
    requires rest == "" || rest[0] == ' '
    ensures var read := PowerShell(QuoteArg(v, Windows) + rest, Outside, None, words);
            if StraightQuotes(v) then read == WordsAfter(v, rest, words) else Missed(read, words, v)
  {
    if SafeArg(v, Windows) {
      assert StraightQuotes(v) by { assert forall i :: 0 <= i < |v| ==> SafeCharacter(v[i], Windows); }
      WindowsBare(v, rest, None, words);
    } else {
      assert QuoteArg(v, Windows) + rest == "'" + Printed(v, rest);
      assert ("'" + Printed(v, rest))[1..] == Printed(v, rest);
      if StraightQuotes(v) {
        WindowsQuoted(v, rest, "", words);
        assert "" + v == v;
      } else {
        assert "" + "" + v == v;
        WindowsLost(v, "", "", v, rest, words);
      }
    }
  }

  /** How reading goes on behind a finished word. */
  function WordsAfter(v: string, rest: string, words: seq<string>): Option<seq<string>> {
    PowerShell(rest, Outside, None, words + [v])
  }

  /** Reading goes on behind a finished word, or ends. */
  lemma WordEnds(v: string, rest: string, words: seq<string>)
    ensures Posix("", Bare, Some(v), words) == Some(words + [v])
    ensures Posix(" " + rest, Bare, Some(v), words) == Posix(rest, Bare, None, words + [v])
    ensures WordsAfter(v, "", words) == Some(words + [v])
    ensures WordsAfter(v, " " + rest, words) == PowerShell(rest, Outside, None, words + [v])
  {}

  /** What a line means behind the words already read. */
  function WordsOn(t: string, platform: Platform, words: seq<string>): Option<seq<string>> {
    if platform.Windows? then PowerShell(t, Outside, None, words) else Posix(t, Bare, None, words)
  }

  /** Whether an argument can be printed so that it is read back. */
  predicate ReadsBack(v: string, platform: Platform) {
    platform.Windows? ==> StraightQuotes(v)
  }

  lemma FirstWord(v: string, rest: string, platform: Platform, words: seq<string>)
    ensures ReadsBack(v, platform) ==>
      && WordsOn(QuoteArg(v, platform), platform, words) == Some(words + [v])
      && WordsOn(QuoteArg(v, platform) + (" " + rest), platform, words) == WordsOn(rest, platform, words + [v])
    ensures !ReadsBack(v, platform) ==>
      && Missed(WordsOn(QuoteArg(v, platform), platform, words), words, v)
      && Missed(WordsOn(QuoteArg(v, platform) + (" " + rest), platform, words), words, v)
  {
    hide QuoteArg, PowerShell, Posix, Missed;
    assert QuoteArg(v, platform) + "" == QuoteArg(v, platform);
    if platform.Windows? {
      WindowsArg(v, "", words);
      WindowsArg(v, " " + rest, words);
    } else {
      PosixArg(v, "", words);
      PosixArg(v, " " + rest, words);
    }
    WordEnds(v, rest, words);
  }

  lemma {:induction false} WordsFrom(args: seq<string>, platform: Platform, words: seq<string>)
    requires args != []
    ensures WordsOn(Join(QuoteAll(args, platform)), platform, words) == Some(words + args)
       <==> forall i :: 0 <= i < |args| ==> ReadsBack(args[i], platform)
    decreases |args|
  {
    hide WordsOn, QuoteArg, ReadsBack;
    var all := QuoteAll(args, platform);
    assert (words + args)[|words|] == args[0];
    if |args| == 1 {
      FirstWord(args[0], "", platform, words);
      assert [args[0]] == args;
    } else {
      FirstWord(args[0], Join(all[1..]), platform, words);
      assert all[1..] == QuoteAll(args[1..], platform);
      WordsFrom(args[1..], platform, words + [args[0]]);
      assert words + [args[0]] + args[1..] == words + args;
      assert forall i :: 0 < i < |args| ==> args[i] == args[1..][i - 1];
    }
  }

  /** The shell hands back exactly the arguments: the POSIX shell whatever they contain, PowerShell if and
      only if none of them has a typographic single quote. */
  lemma QuotingRoundTrip(args: seq<string>, platform: Platform)
    requires args != []
    ensures Words(Join(QuoteAll(args, platform)), platform) == Some(args)
       <==> (platform.Windows? ==> forall i :: 0 <= i < |args| ==> StraightQuotes(args[i]))
  {
    WordsFrom(args, platform, []);
    assert [] + args == args;
  }

  /** A root with an apostrophe as word processors set it is such an argument. */
  lemma ApostropheIsLost()
    ensures var args := ["agx", "init", "--root", "C:\\O\U{2019}Neil"];
            Words(Join(QuoteAll(args, Windows)), Windows) != Some(args)
  {
    var args := ["agx", "init", "--root", "C:\\O\U{2019}Neil"];
    assert Typographic(args[3][4]);
    QuotingRoundTrip(args, Windows);
  }
}
