/**
 The duplicate-key scanner that stands in front of JSON parsing. It walks the text with one cursor,
 reading strings and literals only as far as it must to find their ends. The functions say where the
 cursor goes from a given place, or that the scan fails; the class moves the cursor.
 */
module JsonScanner {
  import opened Wrappers
  import opened JsonText

  // ---------------------------------------------------------------- where the cursor goes

  /** What the regular expression `\s` matches. */
  predicate ScriptSpace(u: int) {
    || 9 <= u <= 13 || u == 32 || u == 160 || u == 0x1680 || 0x2000 <= u <= 0x200a
    || u == 0x2028 || u == 0x2029 || u == 0x202f || u == 0x205f || u == 0x3000 || u == 0xfeff
  }

  predicate Is(t: Text, i: nat, u: int) {
    i < |t| && t[i] == u
  }

  function SkipSpace(t: Text, i: nat): (end: nat)
    requires i <= |t|
    ensures i <= end <= |t|
    decreases |t| - i
  {
    if i < |t| && ScriptSpace(t[i]) then SkipSpace(t, i + 1) else i
  }

  /** The place after the closing quote of a string whose opening quote is just before `i`. */
  function StringEnd(t: Text, i: nat): (end: Option<nat>)
    ensures end.Some? ==> i < end.value <= |t|
    decreases |t| - i
  {
    if i >= |t| then None
    else if t[i] == BACKSLASH then StringEnd(t, i + 2)
    else if t[i] == QUOTE then Some(i + 1)
    else StringEnd(t, i + 1)
  }

  predicate HexAt(t: Text, i: nat) {
    i + 4 <= |t| && HexDigit(t[i]) && HexDigit(t[i + 1]) && HexDigit(t[i + 2]) && HexDigit(t[i + 3])
  }

  function Prepend(unit: int, rest: Option<Text>): Option<Text> {
    if rest.Some? then Some([unit] + rest.value) else None
  }

  /** A strict parse of the rest of a string literal from `i`, which must end with the text. */
  function DecodeFrom(t: Text, i: nat): Option<Text>
    decreases |t| - i
  {
    if i >= |t| || t[i] < 32 then None
    else if t[i] == QUOTE then if i + 1 == |t| then Some([]) else None
    else if t[i] != BACKSLASH then Prepend(t[i], DecodeFrom(t, i + 1))
    else if i + 1 < |t| && LetterMeaning(t[i + 1]).Some?
    then Prepend(LetterMeaning(t[i + 1]).value, DecodeFrom(t, i + 2))
    else if Is(t, i + 1, 117) && HexAt(t, i + 2) then
      Prepend(Meaning(Unicode(t[i + 2], t[i + 3], t[i + 4], t[i + 5])), DecodeFrom(t, i + 6))
    else None
  }

  /** Parsing a slice of the text that should be one string literal. */
  function DecodeString(t: Text): Option<Text> {
    if Is(t, 0, QUOTE) then DecodeFrom(t, 1) else None
  }

  function DigitsEnd(t: Text, i: nat): (end: nat)
    requires i <= |t|
    ensures i <= end <= |t|
    decreases |t| - i
  {
    if i < |t| && Digit(t[i]) then DigitsEnd(t, i + 1) else i
  }

  function IntegerEnd(t: Text, i: nat): (end: Option<nat>)
    ensures end.Some? ==> i < end.value <= |t|
  {
    if i >= |t| || !Digit(t[i]) then None
    else if t[i] == ZERO then Some(i + 1)
    else Some(DigitsEnd(t, i + 1))
  }

  function FractionEnd(t: Text, i: nat): (end: nat)
    requires i <= |t|
    ensures i <= end <= |t|
  {
    if Is(t, i, DOT) && i + 1 < |t| && Digit(t[i + 1]) then DigitsEnd(t, i + 2) else i
  }

  function SignEnd(t: Text, i: nat): nat {
    if Is(t, i, PLUS) || Is(t, i, MINUS) then i + 1 else i
  }

  function ExponentEnd(t: Text, i: nat): (end: nat)
    requires i <= |t|
    ensures i <= end <= |t|
  {
    if !Is(t, i, LOWER_E) && !Is(t, i, UPPER_E) then i
    else
      var k := SignEnd(t, i + 1);
      if k < |t| && Digit(t[k]) then DigitsEnd(t, k + 1) else i
  }

  function NumberEnd(t: Text, i: nat): (end: Option<nat>)
    ensures end.Some? ==> i < end.value <= |t|
  {
    var integer := IntegerEnd(t, if Is(t, i, MINUS) then i + 1 else i);
    if integer.None? then None else Some(ExponentEnd(t, FractionEnd(t, integer.value)))
  }

  predicate Same(t: Text, i: nat, s: Text, k: nat) {
    k < |s| && i + k < |t| && t[i + k] == s[k]
  }

  /** `s` stands in `t` at `i`. */
  predicate At(t: Text, i: nat, s: Text) {
    i + |s| <= |t| && forall k :: 0 <= k < |s| ==> Same(t, i, s, k)
  }

  /** The end of the longest match of the literal pattern: a number, or one of three words. */
  function LiteralEnd(t: Text, i: nat): (end: Option<nat>)
    ensures end.Some? ==> i < end.value <= |t|
  {
    var number := NumberEnd(t, i);
    if number.Some? then number
    else if At(t, i, TRUE) then Some(i + 4)
    else if At(t, i, FALSE) then Some(i + 5)
    else if At(t, i, NULL) then Some(i + 4)
    else None
  }

  function ScanValue(t: Text, i: nat): (end: Option<nat>)
    requires i <= |t|
    ensures end.Some? ==> i < end.value <= |t|
    decreases |t| - i, 1
  {
    var j := SkipSpace(t, i);
    if j >= |t| then None
    else if t[j] == LEFT_BRACE then
      var k := SkipSpace(t, j + 1);
      if Is(t, k, RIGHT_BRACE) then Some(k + 1) else ScanMembers(t, k, {})
    else if t[j] == LEFT_BRACKET then
      var k := SkipSpace(t, j + 1);
      if Is(t, k, RIGHT_BRACKET) then Some(k + 1) else ScanElements(t, k)
    else if t[j] == QUOTE then StringEnd(t, j + 1)
    else LiteralEnd(t, j)
  }

  /** What follows an element or a member: the closing bracket, a comma, or neither. */
  datatype Next = Closed(end: nat) | More(start: nat) | Broken

  function NextAfter(t: Text, i: nat, close: int): (next: Next)
    requires i <= |t|
    ensures next.Closed? ==> i < next.end <= |t|
    ensures next.More? ==> i < next.start <= |t|
  {
    var w := SkipSpace(t, i);
    if Is(t, w, close) then Closed(w + 1)
    else if Is(t, w, COMMA) then More(SkipSpace(t, w + 1))
    else Broken
  }

  function ScanElements(t: Text, i: nat): (end: Option<nat>)
    requires i <= |t|
    ensures end.Some? ==> i < end.value <= |t|
    decreases |t| - i, 2
  {
    var v := ScanValue(t, i);
    if v.None? then None
    else
      match NextAfter(t, v.value, RIGHT_BRACKET)
      case Closed(end) => Some(end)
      case More(start) => ScanElements(t, start)
      case Broken => None
  }

  /** The place after the key literal at `i`, and the key, if it is one. */
  function KeyAt(t: Text, i: nat): (key: Option<(nat, Text)>)
    ensures key.Some? ==> i < key.value.0 <= |t|
  {
    if !Is(t, i, QUOTE) then None
    else
      var end := StringEnd(t, i + 1);
      if end.None? then None
      else
        var key := DecodeString(t[i..end.value]);
        if key.None? then None else Some((end.value, key.value))
  }

  /** The place after the colon that follows a key not among `keys`, and that key. */
  function MemberStart(t: Text, i: nat, keys: set<Text>): (start: Option<(nat, Text)>)
    ensures start.Some? ==> i < start.value.0 <= |t|
  {
    var key := KeyAt(t, i);
    if key.None? || key.value.1 in keys then None
    else
      var c := SkipSpace(t, key.value.0);
      if Is(t, c, COLON) then Some((c + 1, key.value.1)) else None
  }

  function ScanMembers(t: Text, i: nat, keys: set<Text>): (end: Option<nat>)
    requires i <= |t|
    ensures end.Some? ==> i < end.value <= |t|
    decreases |t| - i, 2
  {
    var start := MemberStart(t, i, keys);
    if start.None? then None
    else
      var v := ScanValue(t, start.value.0);
      if v.None? then None
      else
        match NextAfter(t, v.value, RIGHT_BRACE)
        case Closed(end) => Some(end)
        case More(next) => ScanMembers(t, next, keys + {start.value.1})
        case Broken => None
  }

  /** What the scanner answers for a whole text. */
  predicate Malformed(t: Text) {
    var end := ScanValue(t, 0);
    end.None? || SkipSpace(t, end.value) != |t|
  }

  // ---------------------------------------------------------------- the scanner

  class Scanner {
    const value: Text
    var index: nat

    constructor (value: Text)
      ensures this.value == value && index == 0
    {
      this.value := value;
      index := 0;
    }

    method Whitespace()
      requires index <= |value|
      modifies this
      ensures index == SkipSpace(value, old(index))
    {
      while index < |value| && ScriptSpace(value[index])
        invariant old(index) <= index <= |value|
        invariant SkipSpace(value, index) == SkipSpace(value, old(index))
      {
        index := index + 1;
      }
    }

    method StringValue() returns (ok: bool)
      modifies this
      ensures ok == (Is(value, old(index), QUOTE) && StringEnd(value, old(index) + 1).Some?)
      ensures ok ==> index == StringEnd(value, old(index) + 1).value
    {
      if !Is(value, index, QUOTE) {
        return false;
      }
      index := index + 1;
      while index < |value|
        invariant StringEnd(value, index) == StringEnd(value, old(index) + 1)
      {
        if value[index] == BACKSLASH {
          index := index + 2;
          continue;
        }
        index := index + 1;
        if value[index - 1] == QUOTE {
          return true;
        }
      }
      return false;
    }

    method ParseValue() returns (ok: bool)
      requires index <= |value|
      modifies this
      ensures ok == ScanValue(value, old(index)).Some?
      ensures ok ==> index == ScanValue(value, old(index)).value
      decreases |value| - index, 1
    {
      Whitespace();
      if index >= |value| {
        return false;
      }
      if value[index] == LEFT_BRACE {
        index := index + 1;
        Whitespace();
        if Is(value, index, RIGHT_BRACE) {
          index := index + 1;
          return true;
        }
        ok := ParseMembers();
        return;
      }
      if value[index] == LEFT_BRACKET {
        index := index + 1;
        Whitespace();
        if Is(value, index, RIGHT_BRACKET) {
          index := index + 1;
          return true;
        }
        ok := ParseElements();
        return;
      }
      if value[index] == QUOTE {
        ok := StringValue();
        return;
      }
      var literal := LiteralEnd(value, index);
      if literal.None? {
        return false;
      }
      index := literal.value;
      return true;
    }

    /** One key and its colon. */
    method ParseKey(keys: set<Text>) returns (key: Option<Text>)
      requires index <= |value|
      modifies this
      ensures key.Some? == MemberStart(value, old(index), keys).Some?
      ensures key.Some? ==> MemberStart(value, old(index), keys) == Some((index, key.value))
    {
      var start := index;
      var ok := StringValue();
      if !ok {
        return None;
      }
      key := DecodeString(value[start..index]);
      if key.None? || key.value in keys {
        return None;
      }
      Whitespace();
      if !Is(value, index, COLON) {
        return None;
      }
      index := index + 1;
    }

    /** Past what follows an element or a member. */
    method ParseNext(close: int) returns (next: Next)
      requires index <= |value|
      modifies this
      ensures next == NextAfter(value, old(index), close)
      ensures next.Closed? ==> index == next.end
      ensures next.More? ==> index == next.start
    {
      Whitespace();
      if Is(value, index, close) {
        index := index + 1;
        return Closed(index);
      }
      if !Is(value, index, COMMA) {
        return Broken;
      }
      index := index + 1;
      Whitespace();
      return More(index);
    }

    /** The member loop: `keys` grows by one key a round. */
    method ParseMembers() returns (ok: bool)
      requires index <= |value|
      modifies this
      ensures ok == ScanMembers(value, old(index), {}).Some?
      ensures ok ==> index == ScanMembers(value, old(index), {}).value
      decreases |value| - index, 0
    {
      var keys: set<Text> := {};
      ghost var scan := ScanMembers(value, index, keys);
      while index < |value|
        invariant old(index) <= index <= |value|
        invariant ScanMembers(value, index, keys) == scan
        decreases |value| - index
      {
        var key := ParseKey(keys);
        if key.None? {
          return false;
        }
        ok := ParseValue();
        if !ok {
          return;
        }
        var next := ParseNext(RIGHT_BRACE);
        if !next.More? {
          return next.Closed?;
        }
        keys := keys + {key.value};
      }
      return false;
    }

    method ParseElements() returns (ok: bool)
      requires index <= |value|
      modifies this
      ensures ok == ScanElements(value, old(index)).Some?
      ensures ok ==> index == ScanElements(value, old(index)).value
      decreases |value| - index, 2
    {
      ghost var scan := ScanElements(value, index);
      while index < |value|
        invariant old(index) <= index <= |value|
        invariant ScanElements(value, index) == scan
        decreases |value| - index
      {
        ok := ParseValue();
        if !ok {
          return;
        }
        var next := ParseNext(RIGHT_BRACKET);
        if !next.More? {
          return next.Closed?;
        }
      }
      return false;
    }
  }

  method MalformedJson(value: Text) returns (malformed: bool)
    ensures malformed == Malformed(value)
  {
    var scanner := new Scanner(value);
    var ok := scanner.ParseValue();
    if !ok {
      return true;
    }
    scanner.Whitespace();
    return scanner.index != |value|;
  }
}
