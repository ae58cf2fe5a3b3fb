/**
 The scanner on printed JSON: for every value and every way of writing it, the scan reaches the end of
 the text exactly if no object in the value repeats a key.
 */
module JsonScanned {
  import opened Wrappers
  import opened JsonText
  import opened JsonScanner

  lemma AtParts(t: Text, i: nat, a: Text, b: Text)
    ensures At(t, i, a + b) <==> At(t, i, a) && At(t, i + |a|, b)
  {
    if At(t, i, a + b) {
      forall k: nat | k < |a| ensures Same(t, i, a, k) { assert Same(t, i, a + b, k); }
      var j := i + |a|;
      forall k: nat | k < |b| ensures Same(t, j, b, k) { assert Same(t, i, a + b, |a| + k); }
    }
    if At(t, i, a) && At(t, i + |a|, b) {
      forall k: nat | k < |a + b| ensures Same(t, i, a + b, k) {
        assert if k < |a| then Same(t, i, a, k) else Same(t, i + |a|, b, k - |a|);
      }
    }
  }

  lemma AtFour(t: Text, i: nat, a: Text, b: Text, c: Text, d: Text)
    ensures At(t, i, a + (b + (c + d))) <==>
      At(t, i, a) && At(t, i + |a|, b) && At(t, i + |a| + |b|, c) && At(t, i + |a| + |b| + |c|, d)
  {
    AtParts(t, i, a, b + (c + d));
    AtParts(t, i + |a|, b, c + d);
    AtParts(t, i + |a| + |b|, c, d);
  }

  /** Where the inside of a bracketing or a quotation stands. */
  lemma Inside(t: Text, i: nat, open: int, body: Text, close: int)
    requires At(t, i, [open] + (body + [close]))
    ensures Is(t, i, open) && At(t, i + 1, body) && Is(t, i + 1 + |body|, close)
  {
    AtParts(t, i, [open], body + [close]);
    AtFirst(t, i, [open]);
    AtParts(t, i + 1, body, [close]);
    AtFirst(t, i + 1 + |body|, [close]);
  }

  lemma AtFirst(t: Text, i: nat, s: Text)
    requires At(t, i, s) && s != []
    ensures i < |t| && t[i] == s[0]
  {
    assert Same(t, i, s, 0);
  }

  lemma AtTail(t: Text, i: nat, s: Text)
    requires At(t, i, s) && s != []
    ensures At(t, i + 1, s[1..])
  {
    AtParts(t, i, [s[0]], s[1..]);
    assert s == [s[0]] + s[1..];
  }

  lemma AtSlice(t: Text, i: nat, s: Text)
    requires At(t, i, s)
    ensures t[i..i + |s|] == s
  {
    forall k | 0 <= k < |s| ensures t[i..i + |s|][k] == s[k] { assert Same(t, i, s, k); }
  }

  lemma AtWhole(t: Text)
    ensures At(t, 0, t)
  {
    forall k: nat | k < |t| ensures Same(t, 0, t, k) {}
  }

  // ---------------------------------------------------------------- spaces, digits, strings

  predicate NoSpaceAt(t: Text, i: nat) {
    i < |t| ==> !ScriptSpace(t[i])
  }

  lemma {:induction false} SpacesSkipped(t: Text, i: nat, s: Text)
    requires Spaces(s) && At(t, i, s) && NoSpaceAt(t, i + |s|)
    ensures SkipSpace(t, i) == i + |s|
    decreases |s|
  {
    if s != [] {
      AtFirst(t, i, s);
      AtTail(t, i, s);
      SpacesSkipped(t, i + 1, s[1..]);
    }
  }

  lemma {:induction false} DigitsPassed(t: Text, i: nat, s: Text)
    requires At(t, i, s) && (forall k :: 0 <= k < |s| ==> Digit(s[k]))
    requires i + |s| < |t| ==> !Digit(t[i + |s|])
    ensures DigitsEnd(t, i) == i + |s|
    decreases |s|
  {
    if s != [] {
      AtFirst(t, i, s);
      AtTail(t, i, s);
      DigitsPassed(t, i + 1, s[1..]);
    }
  }

  lemma ItemPassed(t: Text, i: nat, item: Item)
    requires ValidItem(item) && At(t, i, PrintItem(item))
    ensures StringEnd(t, i) == StringEnd(t, i + |PrintItem(item)|)
    ensures DecodeFrom(t, i) == Prepend(Meaning(item), DecodeFrom(t, i + |PrintItem(item)|))
  {
    var p := PrintItem(item);
    assert Same(t, i, p, 0) && (|p| > 1 ==> Same(t, i, p, 1));
    if item.Unicode? {
      assert Same(t, i, p, 2) && Same(t, i, p, 3) && Same(t, i, p, 4) && Same(t, i, p, 5);
      assert t[i] == BACKSLASH && t[i + 1] == 117 && LetterMeaning(117).None?;
      assert t[i + 2] == item.a && t[i + 3] == item.b && t[i + 4] == item.c && t[i + 5] == item.d;
      assert StringEnd(t, i + 2) == StringEnd(t, i + 3) == StringEnd(t, i + 4) == StringEnd(t, i + 5)
        == StringEnd(t, i + 6);
    } else if item.Letter? {
      assert t[i] == BACKSLASH && t[i + 1] == item.letter;
    } else {
      assert t[i] == item.unit;
    }
  }

  lemma {:induction false} StringPassed(t: Text, i: nat, items: seq<Item>)
    requires ValidItems(items) && At(t, i, PrintItems(items)) && Is(t, i + |PrintItems(items)|, QUOTE)
    ensures StringEnd(t, i) == Some(i + |PrintItems(items)| + 1)
    ensures i + |PrintItems(items)| + 1 == |t| ==> DecodeFrom(t, i) == Some(Meanings(items))
    decreases |items|
  {
    if items != [] {
      var p := PrintItem(items[0]);
      AtParts(t, i, p, PrintItems(items[1..]));
      ItemPassed(t, i, items[0]);
      StringPassed(t, i + |p|, items[1..]);
    }
  }

  lemma QuotedPassed(t: Text, i: nat, items: seq<Item>)
    requires ValidItems(items) && At(t, i, PrintString(items))
    ensures Is(t, i, QUOTE) && StringEnd(t, i + 1) == Some(i + |PrintString(items)|)
  {
    Inside(t, i, QUOTE, PrintItems(items), QUOTE);
    StringPassed(t, i + 1, items);
  }

  /** Decoding the slice that the scanner cuts out of the text gives the string itself. */
  lemma KeyRead(t: Text, i: nat, key: seq<Item>)
    requires ValidItems(key) && At(t, i, PrintString(key))
    ensures KeyAt(t, i) == Some((i + |PrintString(key)|, Meanings(key)))
  {
    QuotedPassed(t, i, key);
    var s := PrintString(key);
    AtSlice(t, i, s);
    AtWhole(s);
    Inside(s, 0, QUOTE, PrintItems(key), QUOTE);
    StringPassed(s, 1, key);
  }

  // ---------------------------------------------------------------- literals

  /** What may stand right after a value. */
  predicate Follows(t: Text, i: nat) {
    i < |t| ==> JsonSpace(t[i]) || t[i] == COMMA || t[i] == RIGHT_BRACKET || t[i] == RIGHT_BRACE
  }

  function Fraction(n: Number): Text {
    if n.fraction.Some? then [DOT] + n.fraction.value else []
  }

  function ExponentText(n: Number): Text {
    if n.exponent.Some? then PrintExponent(n.exponent.value) else []
  }

  lemma IntegerPassed(t: Text, i: nat, s: Text)
    requires At(t, i, s) && Digits(s) && (|s| > 1 ==> s[0] != ZERO)
    requires i + |s| < |t| ==> !Digit(t[i + |s|])
    ensures IntegerEnd(t, i) == Some(i + |s|)
  {
    AtFirst(t, i, s);
    AtTail(t, i, s);
    DigitsPassed(t, i + 1, s[1..]);
  }

  lemma FractionPassed(t: Text, i: nat, n: Number)
    requires ValidNumber(n) && At(t, i, Fraction(n))
    requires var j := i + |Fraction(n)|; j < |t| ==> !Digit(t[j]) && t[j] != DOT
    ensures FractionEnd(t, i) == i + |Fraction(n)|
    ensures n.fraction.Some? ==> Is(t, i, DOT)
  {
    if n.fraction.Some? {
      var d := n.fraction.value;
      AtFirst(t, i, Fraction(n));
      AtTail(t, i, Fraction(n));
      assert Fraction(n)[1..] == d;
      AtFirst(t, i + 1, d);
      AtTail(t, i + 1, d);
      DigitsPassed(t, i + 2, d[1..]);
    }
  }

  function ExponentSign(e: Exponent): Text {
    if e.sign.Some? then [e.sign.value] else []
  }

  lemma ExponentParts(t: Text, i: nat, e: Exponent)
    requires At(t, i, PrintExponent(e))
    ensures |PrintExponent(e)| == 1 + |ExponentSign(e)| + |e.digits|
    ensures Is(t, i, e.marker) && At(t, i + 1, ExponentSign(e)) && At(t, i + 1 + |ExponentSign(e)|, e.digits)
  {
    hide At;
    AtParts(t, i, [e.marker], ExponentSign(e) + e.digits);
    AtFirst(t, i, [e.marker]);
    AtParts(t, i + 1, ExponentSign(e), e.digits);
  }

  lemma ExponentSignPassed(t: Text, i: nat, e: Exponent)
    requires e.sign.Some? ==> e.sign.value == PLUS || e.sign.value == MINUS
    requires Digits(e.digits) && At(t, i, ExponentSign(e)) && At(t, i + |ExponentSign(e)|, e.digits)
    ensures SignEnd(t, i) == i + |ExponentSign(e)|
    ensures i + |ExponentSign(e)| < |t| && Digit(t[i + |ExponentSign(e)|])
  {
    hide At;
    AtFirst(t, i + |ExponentSign(e)|, e.digits);
    if e.sign.Some? {
      AtFirst(t, i, ExponentSign(e));
    }
  }

  lemma ExponentPassed(t: Text, i: nat, n: Number)
    requires ValidNumber(n) && At(t, i, ExponentText(n)) && Follows(t, i + |ExponentText(n)|)
    ensures ExponentEnd(t, i) == i + |ExponentText(n)|
    ensures n.exponent.Some? ==> i < |t| && (t[i] == LOWER_E || t[i] == UPPER_E)
  {
    hide At, ExponentSign, SignEnd, PrintExponent;
    if n.exponent.Some? {
      var e := n.exponent.value;
      var k := i + 1 + |ExponentSign(e)|;
      ExponentParts(t, i, e);
      ExponentSignPassed(t, i + 1, e);
      AtTail(t, k, e.digits);
      DigitsPassed(t, k + 1, e.digits[1..]);
    } else {
      assert ExponentText(n) == [];
    }
  }

  function Sign(n: Number): Text {
    if n.negative then [MINUS] else []
  }

  lemma NumberParts(t: Text, i: nat, n: Number)
    requires At(t, i, PrintNumber(n))
    ensures PrintNumber(n) == Sign(n) + (n.integer + (Fraction(n) + ExponentText(n)))
    ensures var j := i + |Sign(n)|; var k := j + |n.integer|;
            At(t, i, Sign(n)) && At(t, j, n.integer) && At(t, k, Fraction(n))
            && At(t, k + |Fraction(n)|, ExponentText(n))
  {
    hide At;
    AtFour(t, i, Sign(n), n.integer, Fraction(n), ExponentText(n));
  }

  /** After the integer comes no digit, and after the fraction neither a digit nor a point. */
  lemma NumberBreaks(t: Text, l: nat, n: Number)
    requires ValidNumber(n) && At(t, l, ExponentText(n)) && Follows(t, l + |ExponentText(n)|)
    ensures l < |t| ==> !Digit(t[l]) && t[l] != DOT
  {
    if n.exponent.Some? {
      AtFirst(t, l, ExponentText(n));
    }
  }

  lemma SignPassed(t: Text, i: nat, n: Number)
    requires ValidNumber(n) && At(t, i, Sign(n)) && At(t, i + |Sign(n)|, n.integer)
    ensures i + |Sign(n)| == if Is(t, i, MINUS) then i + 1 else i
    ensures i < |t| && (t[i] == MINUS || Digit(t[i]))
  {
    hide At;
    AtFirst(t, i + |Sign(n)|, n.integer);
    if n.negative {
      AtFirst(t, i, Sign(n));
    }
  }

  lemma NumberPassed(t: Text, i: nat, n: Number)
    requires ValidNumber(n) && At(t, i, PrintNumber(n)) && Follows(t, i + |PrintNumber(n)|)
    ensures NumberEnd(t, i) == Some(i + |PrintNumber(n)|)
    ensures i < |t| && (t[i] == MINUS || Digit(t[i]))
  {
    hide At, PrintNumber, Follows, Sign, Fraction, ExponentText, IntegerEnd, FractionEnd, ExponentEnd;
    var j := i + |Sign(n)|;
    var k := j + |n.integer|;
    var l := k + |Fraction(n)|;
    NumberParts(t, i, n);
    SignPassed(t, i, n);
    NumberBreaks(t, l, n);
    FractionPassed(t, k, n);
    IntegerBreaks(t, k, n);
    IntegerPassed(t, j, n.integer);
    ExponentPassed(t, l, n);
  }

  lemma IntegerBreaks(t: Text, k: nat, n: Number)
    requires At(t, k, Fraction(n)) && (n.fraction.Some? ==> Is(t, k, DOT))
    requires k + |Fraction(n)| < |t| ==> !Digit(t[k + |Fraction(n)|])
    ensures k < |t| ==> !Digit(t[k])
  {}

  lemma WordPassed(t: Text, i: nat, word: Text)
    requires word == TRUE || word == FALSE || word == NULL
    requires At(t, i, word)
    ensures LiteralEnd(t, i) == Some(i + |word|)
    ensures i < |t| && t[i] == word[0]
  {
    AtFirst(t, i, word);
    assert NumberEnd(t, i).None?;
    if At(t, i, TRUE) { AtFirst(t, i, TRUE); }
    if At(t, i, FALSE) { AtFirst(t, i, FALSE); }
    if At(t, i, NULL) { AtFirst(t, i, NULL); }
  }

  // ---------------------------------------------------------------- where printed values stand

  function Width(v: Value): nat {
    match v
    case Str(items) => |PrintString(items)|
    case Num(n) => |PrintNumber(n)|
    case Word(word) => |word|
    case Arr(inside, elements) => 2 + if elements.NoElements? then |inside| else ElementsWidth(elements)
    case Obj(within, members) => 2 + if members.NoMembers? then |within| else MembersWidth(members)
  }

  function ElementsWidth(e: Elements): nat {
    match e
    case NoElements => 0
    case Element(before, value, after, rest) =>
      |before| + Width(value) + |after| + if rest.NoElements? then 0 else 1 + ElementsWidth(rest)
  }

  function MembersWidth(m: Members): nat {
    match m
    case NoMembers => 0
    case Member(beforeKey, key, afterKey, beforeValue, item, afterValue, others) =>
      |beforeKey| + |PrintString(key)| + |afterKey| + 1 + |beforeValue| + Width(item) + |afterValue|
      + if others.NoMembers? then 0 else 1 + MembersWidth(others)
  }

  /** `v` is written in `t` at `i`: every part of it is where it should be. */
  predicate ValueStands(t: Text, i: nat, v: Value)
    decreases v
  {
    match v
    case Str(items) => At(t, i, PrintString(items))
    case Num(n) => At(t, i, PrintNumber(n))
    case Word(word) => At(t, i, word)
    case Arr(inside, elements) =>
      && Is(t, i, LEFT_BRACKET) && Is(t, i + Width(v) - 1, RIGHT_BRACKET)
      && if elements.NoElements? then At(t, i + 1, inside) else ElementsStand(t, i + 1, elements)
    case Obj(within, members) =>
      && Is(t, i, LEFT_BRACE) && Is(t, i + Width(v) - 1, RIGHT_BRACE)
      && if members.NoMembers? then At(t, i + 1, within) else MembersStand(t, i + 1, members)
  }

  predicate ElementsStand(t: Text, i: nat, e: Elements)
    decreases e
  {
    match e
    case NoElements => true
    case Element(before, value, after, rest) =>
      var j := i + |before|;
      var k := j + Width(value);
      var w := k + |after|;
      && At(t, i, before) && ValueStands(t, j, value) && At(t, k, after)
      && (rest.Element? ==> Is(t, w, COMMA) && ElementsStand(t, w + 1, rest))
  }

  predicate MembersStand(t: Text, i: nat, m: Members)
    decreases m
  {
    match m
    case NoMembers => true
    case Member(beforeKey, key, afterKey, beforeValue, item, afterValue, others) =>
      var k := i + |beforeKey|;
      var c := k + |PrintString(key)| + |afterKey|;
      var v := c + 1 + |beforeValue|;
      var w := v + Width(item) + |afterValue|;
      && At(t, i, beforeKey) && At(t, k, PrintString(key)) && At(t, k + |PrintString(key)|, afterKey) && Is(t, c, COLON)
      && At(t, c + 1, beforeValue) && ValueStands(t, v, item) && At(t, v + Width(item), afterValue)
      && (others.Member? ==> Is(t, w, COMMA) && MembersStand(t, w + 1, others))
  }

  lemma {:induction false} ValuePrinted(t: Text, i: nat, v: Value)
    requires At(t, i, Print(v))
    ensures |Print(v)| == Width(v) && ValueStands(t, i, v)
    decreases v
  {
    hide At, PrintString, PrintNumber, PrintElements, PrintMembers, ElementsWidth, MembersWidth, ElementsStand,
      MembersStand;
    match v
    case Arr(inside, elements) =>
      Inside(t, i, LEFT_BRACKET, if elements.NoElements? then inside else PrintElements(elements), RIGHT_BRACKET);
      if elements.Element? { ElementsPrinted(t, i + 1, elements); }
    case Obj(within, members) =>
      Inside(t, i, LEFT_BRACE, if members.NoMembers? then within else PrintMembers(members), RIGHT_BRACE);
      if members.Member? { MembersPrinted(t, i + 1, members); }
    case _ =>
  }

  lemma {:induction false} ElementsPrinted(t: Text, i: nat, e: Elements)
    requires e.Element? && At(t, i, PrintElements(e))
    ensures |PrintElements(e)| == ElementsWidth(e) && ElementsStand(t, i, e)
    decreases e
  {
    hide At, Print, Width, ValueStands;
    var tail := if e.rest.NoElements? then [] else [COMMA] + PrintElements(e.rest);
    AtFour(t, i, e.before, Print(e.value), e.after, tail);
    ValuePrinted(t, i + |e.before|, e.value);
    var w := i + |e.before| + Width(e.value) + |e.after|;
    if e.rest.Element? {
      AtParts(t, w, [COMMA], PrintElements(e.rest));
      AtFirst(t, w, [COMMA]);
      ElementsPrinted(t, w + 1, e.rest);
    }
  }

  lemma {:induction false} MembersPrinted(t: Text, i: nat, m: Members)
    requires m.Member? && At(t, i, PrintMembers(m))
    ensures |PrintMembers(m)| == MembersWidth(m) && MembersStand(t, i, m)
    decreases m
  {
    hide At, PrintString, Print, Width, ValueStands;
    var tail := if m.others.NoMembers? then [] else [COMMA] + PrintMembers(m.others);
    var key := PrintString(m.key);
    var c := i + |m.beforeKey| + |key| + |m.afterKey|;
    AtFour(t, i, m.beforeKey, key, m.afterKey, [COLON] + (m.beforeValue + (Print(m.item) + (m.afterValue + tail))));
    AtParts(t, c, [COLON], m.beforeValue + (Print(m.item) + (m.afterValue + tail)));
    AtFirst(t, c, [COLON]);
    AtFour(t, c + 1, m.beforeValue, Print(m.item), m.afterValue, tail);
    ValuePrinted(t, c + 1 + |m.beforeValue|, m.item);
    var w := c + 1 + |m.beforeValue| + Width(m.item) + |m.afterValue|;
    if m.others.Member? {
      AtParts(t, w, [COMMA], PrintMembers(m.others));
      AtFirst(t, w, [COMMA]);
      MembersPrinted(t, w + 1, m.others);
    }
  }

  // ---------------------------------------------------------------- one round of the scan

  /** The scan of something ends after it, or fails. */
  function Expected(distinct: bool, end: nat): Option<nat> {
    if distinct then Some(end) else None
  }

  lemma ScanSkips(t: Text, i: nat, before: Text)
    requires Spaces(before) && At(t, i, before) && NoSpaceAt(t, i + |before|)
    ensures ScanValue(t, i) == ScanValue(t, i + |before|)
  {
    hide At;
    SpacesSkipped(t, i, before);
  }

  lemma ArrayOpens(t: Text, i: nat)
    requires Is(t, i, LEFT_BRACKET)
    ensures var k := SkipSpace(t, i + 1);
            ScanValue(t, i) == if Is(t, k, RIGHT_BRACKET) then Some(k + 1) else ScanElements(t, k)
  {
  }

  lemma ObjectOpens(t: Text, i: nat)
    requires Is(t, i, LEFT_BRACE)
    ensures var k := SkipSpace(t, i + 1);
            ScanValue(t, i) == if Is(t, k, RIGHT_BRACE) then Some(k + 1) else ScanMembers(t, k, {})
  {
    hide LiteralEnd, StringEnd, MemberStart, NextAfter;
  }

  /** What the loops find after an element or a member that ends at `i`. */
  lemma NextFound(t: Text, i: nat, after: Text, close: int)
    requires Spaces(after) && At(t, i, after) && (close == RIGHT_BRACKET || close == RIGHT_BRACE)
    requires Is(t, i + |after|, close) || Is(t, i + |after|, COMMA)
    ensures Follows(t, i)
    ensures var w := i + |after|;
            NextAfter(t, i, close) == if Is(t, w, close) then Closed(w + 1) else More(SkipSpace(t, w + 1))
  {
    SpacesSkipped(t, i, after);
    if after != [] {
      AtFirst(t, i, after);
    }
  }

  /** One round of the element loop, over a value that ends at `k`. */
  lemma ElementRound(t: Text, i: nat, ok: bool, k: nat, after: Text)
    requires i <= |t| && ScanValue(t, i) == Expected(ok, k) && Spaces(after) && At(t, k, after)
    requires Is(t, k + |after|, RIGHT_BRACKET) || Is(t, k + |after|, COMMA)
    ensures var w := k + |after|; ScanElements(t, i) == if !ok then None
      else if Is(t, w, RIGHT_BRACKET) then Some(w + 1) else ScanElements(t, SkipSpace(t, w + 1))
  {
    NextFound(t, k, after, RIGHT_BRACKET);
  }

  /** One round of the member loop, over a key, its colon just before `v`, and a value that ends at `e`. */
  lemma MemberRound(t: Text, i: nat, key: seq<Item>, afterKey: Text, keys: set<Text>, ok: bool, e: nat, after: Text)
    requires ValidItems(key) && At(t, i, PrintString(key))
    requires Spaces(afterKey) && At(t, i + |PrintString(key)|, afterKey)
    requires Is(t, i + |PrintString(key)| + |afterKey|, COLON)
    requires ScanValue(t, i + |PrintString(key)| + |afterKey| + 1) == Expected(ok, e)
    requires Spaces(after) && At(t, e, after) && (Is(t, e + |after|, RIGHT_BRACE) || Is(t, e + |after|, COMMA))
    ensures i <= |t| && (var w := e + |after|; var k := Meanings(key);
      ScanMembers(t, i, keys) == if k in keys || !ok then None
      else if Is(t, w, RIGHT_BRACE) then Some(w + 1) else ScanMembers(t, SkipSpace(t, w + 1), keys + {k}))
  {
    hide At, PrintString, ScanValue, Meanings, StringEnd;
    KeyRead(t, i, key);
    SpacesSkipped(t, i + |PrintString(key)|, afterKey);
    NextFound(t, e, after, RIGHT_BRACE);
  }

  // ---------------------------------------------------------------- scanning values

  /** A value starts with something that is neither white space nor a closing bracket. */
  lemma ValueStarts(t: Text, i: nat, v: Value)
    requires ValidValue(v) && ValueStands(t, i, v)
    ensures i < |t| && !ScriptSpace(t[i]) && t[i] != RIGHT_BRACKET && t[i] != RIGHT_BRACE
  {
    match v
    case Str(items) => AtFirst(t, i, PrintString(items));
    case Num(n) =>
      AtFirst(t, i, PrintNumber(n));
      assert Digit(n.integer[0]);
    case Word(word) => AtFirst(t, i, word);
    case _ =>
  }

  lemma LeafScanned(t: Text, i: nat, v: Value)
    requires ValidValue(v) && ValueStands(t, i, v) && Follows(t, i + Width(v)) && (v.Str? || v.Num? || v.Word?)
    ensures i < |t| && ScanValue(t, i) == Some(i + Width(v))
  {
    hide At, PrintString, PrintNumber;
    ValueStarts(t, i, v);
    match v
    case Str(items) => QuotedPassed(t, i, items);
    case Num(n) => NumberPassed(t, i, n);
    case Word(word) => WordPassed(t, i, word);
  }

  lemma {:induction false} ValueScanned(t: Text, i: nat, v: Value)
    requires ValidValue(v) && ValueStands(t, i, v) && Follows(t, i + Width(v))
    ensures i < |t| && ScanValue(t, i) == Expected(DistinctKeys(v), i + Width(v))
    decreases v, 1
  {
    hide At, PrintString, PrintNumber, ScanValue, ScanElements, ScanMembers, SkipSpace;
    ValueStarts(t, i, v);
    match v
    case Arr(inside, elements) =>
      ArrayOpens(t, i);
      if elements.NoElements? {
        SpacesSkipped(t, i + 1, inside);
      } else {
        ElementsScanned(t, i + 1, elements);
      }
    case Obj(within, members) =>
      ObjectOpens(t, i);
      if members.NoMembers? {
        SpacesSkipped(t, i + 1, within);
      } else {
        MembersScanned(t, i + 1, members, {});
      }
    case _ => LeafScanned(t, i, v);
  }

  lemma {:induction false} ElementsScanned(t: Text, i: nat, e: Elements)
    requires ValidElements(e) && e.Element?
    requires ElementsStand(t, i, e) && Is(t, i + ElementsWidth(e), RIGHT_BRACKET)
    ensures i <= |t| && !Is(t, SkipSpace(t, i), RIGHT_BRACKET)
    ensures ScanElements(t, SkipSpace(t, i)) == Expected(DistinctInElements(e), i + ElementsWidth(e) + 1)
    decreases e, 0
  {
    hide At, ValueStands, Width, ValidValue, DistinctKeys, ScanValue, ScanElements, SkipSpace;
    var j := i + |e.before|;
    var k := j + Width(e.value);
    ValueStarts(t, j, e.value);
    SpacesSkipped(t, i, e.before);
    NextFound(t, k, e.after, RIGHT_BRACKET);
    ValueScanned(t, j, e.value);
    ElementRound(t, j, DistinctKeys(e.value), k, e.after);
    if e.rest.Element? {
      ElementsScanned(t, k + |e.after| + 1, e.rest);
    }
  }

  lemma {:induction false} MembersScanned(t: Text, i: nat, m: Members, keys: set<Text>)
    requires ValidMembers(m) && m.Member?
    requires MembersStand(t, i, m) && Is(t, i + MembersWidth(m), RIGHT_BRACE)
    ensures i <= |t| && !Is(t, SkipSpace(t, i), RIGHT_BRACE)
    ensures ScanMembers(t, SkipSpace(t, i), keys) == Expected(DistinctInMembers(m, keys), i + MembersWidth(m) + 1)
    decreases m, 0
  {
    hide At, PrintString, ValueStands, Width, ValidValue, DistinctKeys, ScanValue, ScanMembers, SkipSpace, Meanings;
    var k := i + |m.beforeKey|;
    var c := k + |PrintString(m.key)| + |m.afterKey| + 1;
    var v := c + |m.beforeValue|;
    var e := v + Width(m.item);
    QuotedPassed(t, k, m.key);
    SpacesSkipped(t, i, m.beforeKey);
    ValueStarts(t, v, m.item);
    ScanSkips(t, c, m.beforeValue);
    NextFound(t, e, m.afterValue, RIGHT_BRACE);
    ValueScanned(t, v, m.item);
    MemberRound(t, k, m.key, m.afterKey, keys, DistinctKeys(m.item), e, m.afterValue);
    if m.others.Member? {
      MembersScanned(t, e + |m.afterValue| + 1, m.others, keys + {Meanings(m.key)});
    }
  }

  // ---------------------------------------------------------------- whole texts

  /**
   Whatever white space surrounds it and however its strings and numbers are written, a JSON text is
   malformed to the scanner exactly if some object in it repeats a key; otherwise the cursor ends at
   the end of the text.
   */
  lemma MalformedExactly(before: Text, v: Value, after: Text)
    requires Spaces(before) && ValidValue(v) && Spaces(after)
    ensures Malformed(before + Print(v) + after) <==> !DistinctKeys(v)
    ensures var t := before + Print(v) + after;
            DistinctKeys(v) ==> ScanValue(t, 0).Some? && SkipSpace(t, ScanValue(t, 0).value) == |t|
  {
    hide Width, ValueStands, ScanValue, DistinctKeys, At, Print, ValidValue;
    var t := before + Print(v) + after;
    AtWhole(t);
    AtParts(t, 0, before + Print(v), after);
    AtParts(t, 0, before, Print(v));
    ValuePrinted(t, |before|, v);
    var end := |before| + Width(v);
    if after != [] {
      AtFirst(t, end, after);
    }
    ValueStarts(t, |before|, v);
    ScanSkips(t, 0, before);
    ValueScanned(t, |before|, v);
    SpacesSkipped(t, end, after);
  }

  // ---------------------------------------------------------------- what is accepted

  /** `t` is a way of writing `v`. */
  ghost predicate Writes(t: Text, before: Text, v: Value, after: Text) {
    Spaces(before) && ValidValue(v) && Spaces(after) && t == before + Print(v) + after
  }

  /** The texts that a strict parser takes. */
  ghost predicate IsJson(t: Text) {
    exists before, v, after :: Writes(t, before, v, after)
  }

  /** The scanner lets a text pass, and the strict parser after it takes it, exactly if the text is a way of
      writing a value in which no object repeats a key. */
  lemma AcceptedExactly(t: Text)
    ensures !Malformed(t) && IsJson(t) <==>
      exists before, v, after :: Writes(t, before, v, after) && DistinctKeys(v)
  {
    hide Malformed, DistinctKeys, ValidValue, Spaces, Print;
    forall before, v, after | Writes(t, before, v, after) ensures Malformed(t) <==> !DistinctKeys(v) {
      MalformedExactly(before, v, after);
    }
  }

  /** However a text is read as JSON, its keys repeat or they do not. */
  lemma RepetitionIsOfTheText(t: Text, b: Text, v: Value, a: Text, d: Text, w: Value, c: Text)
    requires Writes(t, b, v, a) && Writes(t, d, w, c)
    ensures DistinctKeys(v) <==> DistinctKeys(w)
  {
    hide Malformed, DistinctKeys, ValidValue, Spaces, Print;
    MalformedExactly(b, v, a);
    MalformedExactly(d, w, c);
  }

  lemma FirstWritten(t: Text, before: Text, v: Value, after: Text)
    requires Writes(t, before, v, after)
    ensures t != [] && (before != [] ==> JsonSpace(t[0])) && (before == [] ==> t[0] == Print(v)[0])
    ensures before == [] ==> !ScriptSpace(t[0]) && (t[0] == QUOTE ==> v.Str?)
  {
    ValuePrints(v);
    assert before != [] ==> t[0] == before[0];
  }

  lemma ValuePrints(v: Value)
    requires ValidValue(v)
    ensures Print(v) != [] && !ScriptSpace(Print(v)[0]) && (Print(v)[0] == QUOTE <==> v.Str?)
  {
    match v
    case Num(n) => NumberPrints(n);
    case _ =>
  }

  lemma NumberPrints(n: Number)
    requires ValidNumber(n)
    ensures PrintNumber(n) != [] && (PrintNumber(n)[0] == MINUS || Digit(PrintNumber(n)[0]))
  {
    assert Digit(n.integer[0]);
  }

  const CONTROL_IN_STRING: Text := [QUOTE, 1, QUOTE]
  const WIDE_SPACE_FIRST: Text := [160, ZERO]

  /** The scanner alone takes more: a control character inside a string, and white space of the script
      language that JSON does not have. */
  lemma ScannerTakesMore()
    ensures !Malformed(CONTROL_IN_STRING) && !IsJson(CONTROL_IN_STRING)
    ensures !Malformed(WIDE_SPACE_FIRST) && !IsJson(WIDE_SPACE_FIRST)
  {
    var s, w := CONTROL_IN_STRING, WIDE_SPACE_FIRST;
    assert StringEnd(s, 2) == Some(3) && SkipSpace(s, 0) == 0 && ScanValue(s, 0) == Some(3);
    assert SkipSpace(w, 1) == 1 && SkipSpace(w, 0) == 1;
    assert IntegerEnd(w, 1) == Some(2) by { assert DigitsEnd(w, 2) == 2; }
    assert NumberEnd(w, 1) == Some(2);
    forall before, v, after ensures !Writes(s, before, v, after) && !Writes(w, before, v, after) {
      if Writes(w, before, v, after) {
        FirstWritten(w, before, v, after);
      }
      if Writes(s, before, v, after) {
        FirstWritten(s, before, v, after);
        SecondOfString(s, v.items, after);
      }
    }
  }

  /** What may stand behind an opening quote. */
  lemma SecondOfString(t: Text, items: seq<Item>, after: Text)
    requires ValidItems(items) && t == [] + PrintString(items) + after
    ensures |t| > 1 && (t[1] == QUOTE || t[1] == BACKSLASH || t[1] >= 32)
  {
    if items != [] {
      assert t[1] == PrintItem(items[0])[0] && ValidItem(items[0]);
    }
  }
}
