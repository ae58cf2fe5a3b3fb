/**
 How the two shells that AGX prints commands for split a line into words, as far as plain characters
 and quoting go.  A line that uses anything else has no reading here.
 */
module ShellWords {
  import opened Wrappers

  datatype Mode = Bare | Single | Double

  predicate Blank(c: char) {
    c == ' ' || c == '\t' || c == '\n'
  }

  /** The word so far, `None` between words. */
  function Grown(word: Option<string>, s: string): Option<string> {
    Some(if word.Some? then word.value + s else s)
  }

  function Flushed(word: Option<string>, words: seq<string>): seq<string> {
    if word.Some? then words + [word.value] else words
  }

  /** Characters that are not always literal in the POSIX shell (POSIX.1-2017, XCU section 2.2), other
      than the quoting characters and blanks. */
  predicate PosixSpecial(c: char) {
    c == '|' || c == '&' || c == ';' || c == '<' || c == '>' || c == '(' || c == ')'
    || c == '$' || c == '`' || c == '*' || c == '?' || c == '[' || c == '#' || c == '~'
  }

  function Posix(t: string, mode: Mode, word: Option<string>, words: seq<string>): Option<seq<string>>
    decreases |t|
  {
    if t == "" then if mode.Bare? then Some(Flushed(word, words)) else None
    else
      var c := t[0];
      match mode
      case Single =>
        if c == '\'' then Posix(t[1..], Bare, word, words) else Posix(t[1..], Single, Grown(word, [c]), words)
      case Double =>
        if c == '"' then Posix(t[1..], Bare, word, words)
        else if c == '$' || c == '`' || c == '\\' then None
        else Posix(t[1..], Double, Grown(word, [c]), words)
      case Bare =>
        if Blank(c) then Posix(t[1..], Bare, None, Flushed(word, words))
        else if c == '\'' then Posix(t[1..], Single, Grown(word, ""), words)
        else if c == '"' then Posix(t[1..], Double, Grown(word, ""), words)
        else if c == '\\' then if |t| > 1 && t[1] != '\n' then Posix(t[2..], Bare, Grown(word, [t[1]]), words) else None
        else if PosixSpecial(c) then None
        else Posix(t[1..], Bare, Grown(word, [c]), words)
  }

  /** The quotation marks that PowerShell reads as a single quote beside the straight one. */
  predicate Typographic(c: char) {
    '\U{2018}' <= c <= '\U{201B}'
  }

  predicate SingleQuote(c: char) {
    c == '\'' || Typographic(c)
  }

  /** Characters that PowerShell gives a meaning in a bare argument, other than single quotes and blanks;
      what is not ASCII has no reading there. */
  predicate PowerShellSpecial(c: char) {
    c == '`' || c == '$' || c == '"' || c == '(' || c == ')' || c == '{' || c == '}'
    || c == ';' || c == ',' || c == '|' || c == '&' || c == '<' || c == '>' || c == '@' || c == '#'
    || c > '~'
  }

  /** Where PowerShell is: outside quotes, in a literal that is a word of its own, or in quotes that are
      part of a bare word. */
  datatype Quoting = Outside | Whole | Part

  /** In a quoted PowerShell literal two single quotes of any kind stand for the second, and one ends it. */
  function PowerShell(t: string, quoting: Quoting, word: Option<string>, words: seq<string>): Option<seq<string>>
    decreases |t|
  {
    if t == "" then if quoting.Outside? then Some(Flushed(word, words)) else None
    else
      var c := t[0];
      if quoting.Outside? then
        if Blank(c) then PowerShell(t[1..], Outside, None, Flushed(word, words))
        else if SingleQuote(c) then PowerShell(t[1..], if word.Some? then Part else Whole, Grown(word, ""), words)
        else if PowerShellSpecial(c) then None
        else PowerShell(t[1..], Outside, Grown(word, [c]), words)
      else if !SingleQuote(c) then PowerShell(t[1..], quoting, Grown(word, [c]), words)
      else if |t| > 1 && SingleQuote(t[1]) then PowerShell(t[2..], quoting, Grown(word, [t[1]]), words)
      else if quoting.Part? then PowerShell(t[1..], Outside, word, words)
      else PowerShell(t[1..], Outside, None, Flushed(word, words))
  }
}
