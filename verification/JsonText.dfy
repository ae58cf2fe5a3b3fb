/**
 JSON texts as sequences of UTF-16 code units: the values one can write, every way of writing them
 (RFC 8259, sections 2 to 7), and what it means that no object repeats a key.
 */
module JsonText {
  import opened Wrappers

  type Text = seq<int>

  const QUOTE := 34
  const PLUS := 43
  const COMMA := 44
  const MINUS := 45
  const DOT := 46
  const SLASH := 47
  const ZERO := 48
  const COLON := 58
  const UPPER_E := 69
  const LEFT_BRACKET := 91
  const BACKSLASH := 92
  const RIGHT_BRACKET := 93
  const LOWER_E := 101
  const LEFT_BRACE := 123
  const RIGHT_BRACE := 125

  const TRUE: Text := [116, 114, 117, 101]
  const FALSE: Text := [102, 97, 108, 115, 101]
  const NULL: Text := [110, 117, 108, 108]

  predicate Digit(u: int) {
    48 <= u <= 57
  }

  predicate Digits(s: Text) {
    s != [] && forall i :: 0 <= i < |s| ==> Digit(s[i])
  }

  predicate HexDigit(u: int) {
    Digit(u) || 65 <= u <= 70 || 97 <= u <= 102
  }

  function HexValue(u: int): int
    requires HexDigit(u)
  {
    if Digit(u) then u - 48 else if u <= 70 then u - 55 else u - 87
  }

  /** White space of the grammar. */
  predicate JsonSpace(u: int) {
    u == 9 || u == 10 || u == 13 || u == 32
  }

  predicate Spaces(s: Text) {
    forall i :: 0 <= i < |s| ==> JsonSpace(s[i])
  }

  // ---------------------------------------------------------------- strings

  /** One code unit of a string, written as itself, with a letter escape, or with four hex digits. */
  datatype Item = Raw(unit: int) | Letter(letter: int) | Unicode(a: int, b: int, c: int, d: int)

  /** What a letter escape stands for. */
  function LetterMeaning(letter: int): Option<int> {
    if letter == QUOTE || letter == BACKSLASH || letter == SLASH then Some(letter)
    else if letter == 98 then Some(8)
    else if letter == 102 then Some(12)
    else if letter == 110 then Some(10)
    else if letter == 114 then Some(13)
    else if letter == 116 then Some(9)
    else None
  }

  predicate ValidItem(item: Item) {
    match item
    case Raw(unit) => unit >= 32 && unit != QUOTE && unit != BACKSLASH
    case Letter(letter) => LetterMeaning(letter).Some?
    case Unicode(a, b, c, d) => HexDigit(a) && HexDigit(b) && HexDigit(c) && HexDigit(d)
  }

  function PrintItem(item: Item): Text {
    match item
    case Raw(unit) => [unit]
    case Letter(letter) => [BACKSLASH, letter]
    case Unicode(a, b, c, d) => [BACKSLASH, 117, a, b, c, d]
  }

  function Meaning(item: Item): int
    requires ValidItem(item)
  {
    match item
    case Raw(unit) => unit
    case Letter(letter) => LetterMeaning(letter).value
    case Unicode(a, b, c, d) => ((HexValue(a) * 16 + HexValue(b)) * 16 + HexValue(c)) * 16 + HexValue(d)
  }

  predicate ValidItems(items: seq<Item>) {
    forall i :: 0 <= i < |items| ==> ValidItem(items[i])
  }

  function PrintItems(items: seq<Item>): Text {
    if items == [] then [] else PrintItem(items[0]) + PrintItems(items[1..])
  }

  function PrintString(items: seq<Item>): Text {
    [QUOTE] + (PrintItems(items) + [QUOTE])
  }

  /** The string itself: what its items stand for. */
  function Meanings(items: seq<Item>): Text
    requires ValidItems(items)
  {
    if items == [] then [] else [Meaning(items[0])] + Meanings(items[1..])
  }

  // ---------------------------------------------------------------- values

  datatype Exponent = Exponent(marker: int, sign: Option<int>, digits: Text)

  datatype Number = Number(negative: bool, integer: Text, fraction: Option<Text>, exponent: Option<Exponent>)

  predicate ValidNumber(n: Number) {
    && Digits(n.integer) && (|n.integer| > 1 ==> n.integer[0] != ZERO)
    && (n.fraction.Some? ==> Digits(n.fraction.value))
    && (n.exponent.Some? ==>
          && (n.exponent.value.marker == LOWER_E || n.exponent.value.marker == UPPER_E)
          && (n.exponent.value.sign.Some? ==>
                n.exponent.value.sign.value == PLUS || n.exponent.value.sign.value == MINUS)
          && Digits(n.exponent.value.digits))
  }

  function PrintExponent(e: Exponent): Text {
    [e.marker] + ((if e.sign.Some? then [e.sign.value] else []) + e.digits)
  }

  function PrintNumber(n: Number): Text {
    (if n.negative then [MINUS] else [])
    + (n.integer
       + ((if n.fraction.Some? then [DOT] + n.fraction.value else [])
          + (if n.exponent.Some? then PrintExponent(n.exponent.value) else [])))
  }

  /** A value as it is written, with the white space around everything inside it. */
  datatype Value =
    | Str(items: seq<Item>)
    | Num(number: Number)
    | Word(word: Text)
    | Arr(inside: Text, elements: Elements)   // `inside` is the space in an empty array
    | Obj(within: Text, members: Members)

  datatype Elements = NoElements | Element(before: Text, value: Value, after: Text, rest: Elements)

  datatype Members =
    | NoMembers
    | Member(beforeKey: Text, key: seq<Item>, afterKey: Text, beforeValue: Text, item: Value, afterValue: Text,
             others: Members)

  predicate ValidValue(v: Value) {
    match v
    case Str(items) => ValidItems(items)
    case Num(n) => ValidNumber(n)
    case Word(word) => word == TRUE || word == FALSE || word == NULL
    case Arr(inside, elements) => Spaces(inside) && ValidElements(elements)
    case Obj(within, members) => Spaces(within) && ValidMembers(members)
  }

  predicate ValidElements(e: Elements) {
    match e
    case NoElements => true
    case Element(before, value, after, rest) =>
      Spaces(before) && ValidValue(value) && Spaces(after) && ValidElements(rest)
  }

  predicate ValidMembers(m: Members) {
    match m
    case NoMembers => true
    case Member(beforeKey, key, afterKey, beforeValue, item, afterValue, others) =>
      Spaces(beforeKey) && ValidItems(key) && Spaces(afterKey) && Spaces(beforeValue) && ValidValue(item)
      && Spaces(afterValue) && ValidMembers(others)
  }

  function Print(v: Value): Text {
    match v
    case Str(items) => PrintString(items)
    case Num(n) => PrintNumber(n)
    case Word(word) => word
    case Arr(inside, elements) =>
      [LEFT_BRACKET] + ((if elements.NoElements? then inside else PrintElements(elements)) + [RIGHT_BRACKET])
    case Obj(within, members) =>
      [LEFT_BRACE] + ((if members.NoMembers? then within else PrintMembers(members)) + [RIGHT_BRACE])
  }

  function PrintElements(e: Elements): Text {
    match e
    case NoElements => []
    case Element(before, value, after, rest) =>
      before + (Print(value) + (after + if rest.NoElements? then [] else [COMMA] + PrintElements(rest)))
  }

  function PrintMembers(m: Members): Text {
    match m
    case NoMembers => []
    case Member(beforeKey, key, afterKey, beforeValue, item, afterValue, others) =>
      beforeKey + (PrintString(key) + (afterKey + ([COLON] + (beforeValue + (Print(item) + (afterValue
      + if others.NoMembers? then [] else [COMMA] + PrintMembers(others)))))))
  }

  // ---------------------------------------------------------------- distinct keys

  /** No object in `v`, at any depth, has two members whose keys are the same string. */
  predicate DistinctKeys(v: Value)
    requires ValidValue(v)
  {
    match v
    case Arr(_, elements) => DistinctInElements(elements)
    case Obj(_, members) => DistinctInMembers(members, {})
    case _ => true
  }

  predicate DistinctInElements(e: Elements)
    requires ValidElements(e)
  {
    match e
    case NoElements => true
    case Element(_, value, _, rest) => DistinctKeys(value) && DistinctInElements(rest)
  }

  /** ... and none of these members has a key among `taken`. */
  predicate DistinctInMembers(m: Members, taken: set<Text>)
    requires ValidMembers(m)
  {
    match m
    case NoMembers => true
    case Member(_, key, _, _, item, _, others) =>
      Meanings(key) !in taken && DistinctKeys(item) && DistinctInMembers(others, taken + {Meanings(key)})
  }

  /** The keys of the members, unescaped, in order. */
  function Keys(m: Members): seq<Text>
    requires ValidMembers(m)
  {
    match m
    case NoMembers => []
    case Member(_, key, _, _, _, _, others) => [Meanings(key)] + Keys(others)
  }

  /** The values of the members. */
  function Items(m: Members): seq<Value> {
    match m
    case NoMembers => []
    case Member(_, _, _, _, item, _, others) => [item] + Items(others)
  }

  predicate PairwiseDistinct(keys: seq<Text>) {
    forall i, j :: 0 <= i < j < |keys| ==> keys[i] != keys[j]
  }

  predicate NoneIn(keys: seq<Text>, taken: set<Text>) {
    forall i :: 0 <= i < |keys| ==> keys[i] !in taken
  }

  predicate AllDistinctKeys(values: seq<Value>)
    requires forall i :: 0 <= i < |values| ==> ValidValue(values[i])
  {
    forall i :: 0 <= i < |values| ==> DistinctKeys(values[i])
  }

  lemma NoRepeatedKey(key: Text, keys: seq<Text>, taken: set<Text>)
    ensures PairwiseDistinct([key] + keys) && NoneIn([key] + keys, taken)
        <==> key !in taken && NoneIn(keys, taken + {key}) && PairwiseDistinct(keys)
  {
    var all := [key] + keys;
    assert all[0] == key && forall i :: 0 <= i < |keys| ==> all[i + 1] == keys[i];
    assert forall i :: 0 < i < |all| ==> all[i] == keys[i - 1];
  }

  /** Collecting keys as one goes finds a repetition exactly if the keys are not pairwise distinct. */
  lemma {:induction false} DistinctInMembersExactly(m: Members, taken: set<Text>)
    requires ValidMembers(m)
    ensures forall i :: 0 <= i < |Items(m)| ==> ValidValue(Items(m)[i])
    ensures DistinctInMembers(m, taken) <==>
      NoneIn(Keys(m), taken) && PairwiseDistinct(Keys(m)) && AllDistinctKeys(Items(m))
    decreases m
  {
    hide DistinctKeys, Meanings, NoneIn, PairwiseDistinct;
    match m
    case NoMembers => NoKeys(taken);
    case Member(_, key, _, _, item, _, others) =>
      DistinctInMembersExactly(others, taken + {Meanings(key)});
      NoRepeatedKey(Meanings(key), Keys(others), taken);
      assert Items(m)[0] == item && forall i :: 0 <= i < |Items(others)| ==> Items(m)[i + 1] == Items(others)[i];
  }

  lemma NoKeys(taken: set<Text>)
    ensures NoneIn([], taken) && PairwiseDistinct([])
  {
  }
}
