/** The JSON values, the text the printer makes of them, and what the tolerant parser reads
    out of any text, as functions. */
module JsonText {
  import opened Basics

  /** A 16-bit char; a string may hold unpaired surrogates. */
  type Unit = c: nat | c < 0x1_0000
  type Text = seq<Unit>

  /** Float stands for whatever the platform makes of a number token with a fraction, an
      exponent or an inner sign.  An object keeps its fields in insertion order. */
  datatype Json =
    | Null
    | Bool(b: bool)
    | Num(n: int)
    | Str(s: Text)
    | Arr(items: seq<Json>)
    | Obj(fields: seq<Field>)
    | Float(token: Text)

  datatype Field = Field(key: Text, value: Json)

  const QUOTE: Unit := 0x22
  const BACKSLASH: Unit := 0x5C
  const SLASH: Unit := 0x2F
  const COMMA: Unit := 0x2C
  const COLON: Unit := 0x3A
  const LBRACE: Unit := 0x7B
  const RBRACE: Unit := 0x7D
  const LBRACKET: Unit := 0x5B
  const RBRACKET: Unit := 0x5D
  const MINUS: Unit := 0x2D
  const PLUS: Unit := 0x2B
  const DOT: Unit := 0x2E
  const ZERO: Unit := 0x30
  const LOWER_A: Unit := 0x61
  const LOWER_B: Unit := 0x62
  const LOWER_E: Unit := 0x65
  const LOWER_F: Unit := 0x66
  const LOWER_N: Unit := 0x6E
  const LOWER_R: Unit := 0x72
  const LOWER_T: Unit := 0x74
  const LOWER_U: Unit := 0x75
  const UPPER_A: Unit := 0x41
  const UPPER_E: Unit := 0x45
  const BACKSPACE: Unit := 0x08
  const TAB: Unit := 0x09
  const NEWLINE: Unit := 0x0A
  const FORM_FEED: Unit := 0x0C
  const RETURN: Unit := 0x0D
  const SPACE: Unit := 0x20

  const NULL_WORD: Text := [LOWER_N, LOWER_U, 0x6C, 0x6C]
  const TRUE_WORD: Text := [LOWER_T, LOWER_R, LOWER_U, LOWER_E]
  const FALSE_WORD: Text := [LOWER_F, LOWER_A, 0x6C, 0x73, LOWER_E]

  const LONG_MIN: int := -0x8000_0000_0000_0000
  const LONG_MAX: int := 0x7FFF_FFFF_FFFF_FFFF
  const INT_MIN: int := -0x8000_0000
  const INT_MAX: int := 0x7FFF_FFFF

  /** A double as the printer tells it apart: not finite, or none because the token is
      malformed; integral and below 10^15 in absolute value; any other, which is named by the
      text that the platform prints for it. */
  datatype Double = NotFinite | Whole(n: int) | Proper(text: Text)

  /** What the platform reads a token as. */
  type Platform = Text -> Double

  // ---------- printing ----------

  predicate NoFloat(v: Json) {
    match v
    case Float(_) => false
    case Arr(items) => forall w <- items :: NoFloat(w)
    case Obj(fields) => forall f <- fields :: NoFloat(f.value)
    case _ => true
  }

  function HexUnit(d: nat): Unit
    requires d < 16
  {
    if d < 10 then ZERO + d else LOWER_A + d - 10
  }

  function EscapeUnit(c: Unit): Text {
    if c == QUOTE then [BACKSLASH, QUOTE]
    else if c == BACKSLASH then [BACKSLASH, BACKSLASH]
    else if c == NEWLINE then [BACKSLASH, LOWER_N]
    else if c == RETURN then [BACKSLASH, LOWER_R]
    else if c == TAB then [BACKSLASH, LOWER_T]
    else if c == BACKSPACE then [BACKSLASH, LOWER_B]
    else if c == FORM_FEED then [BACKSLASH, LOWER_F]
    else if c < SPACE then [BACKSLASH, LOWER_U, ZERO, ZERO, HexUnit(c / 16), HexUnit(c % 16)]
    else [c]
  }

  /** The units of a string, escaped, and the closing quote. */
  function StringTail(s: Text): Text {
    if s == [] then [QUOTE] else EscapeUnit(s[0]) + StringTail(s[1..])
  }

  function QuotedText(s: Text): Text {
    [QUOTE] + StringTail(s)
  }

  function DecimalText(n: nat): Text {
    if n < 10 then [ZERO + n] else DecimalText(n / 10) + [ZERO + n % 10]
  }

  function NumberText(n: int): Text {
    if n < 0 then [MINUS] + DecimalText(-n) else DecimalText(n)
  }

  function DoubleText(d: Double): Text {
    match d
    case NotFinite => NULL_WORD
    case Whole(n) => NumberText(n)
    case Proper(text) => text
  }

  function ValueText(host: Platform, v: Json): Text
    decreases v, 1
  {
    match v
    case Null => NULL_WORD
    case Bool(b) => if b then TRUE_WORD else FALSE_WORD
    case Num(n) => NumberText(n)
    case Str(s) => QuotedText(s)
    case Arr(items) => [LBRACKET] + ItemsTail(host, items)
    case Obj(fields) => [LBRACE] + FieldsTail(host, fields)
    case Float(token) => DoubleText(host(token))
  }

  /** The items of a list and its closing bracket. */
  function ItemsTail(host: Platform, items: seq<Json>): (t: Text)
    decreases items, 0
  {
    if items == [] then [RBRACKET]
    else ValueText(host, items[0]) + (if |items| == 1 then [RBRACKET] else [COMMA] + ItemsTail(host, items[1..]))
  }

  /** The fields of an object and its closing brace. */
  function FieldsTail(host: Platform, fields: seq<Field>): Text
    decreases fields, 0, 1
  {
    if fields == [] then [RBRACE]
    else QuotedText(fields[0].key) + ([COLON] + FieldValueTail(host, fields))
  }

  /** The same, from the first field's value on. */
  function FieldValueTail(host: Platform, fields: seq<Field>): Text
    requires fields != []
    decreases fields, 0, 0
  {
    ValueText(host, fields[0].value) + (if |fields| == 1 then [RBRACE] else [COMMA] + FieldsTail(host, fields[1..]))
  }

  // ---------- reading characters and numbers ----------

  predicate IsWhitespace(c: Unit) {
    || 0x09 <= c <= 0x0D || 0x1C <= c <= 0x20 || c == 0xA0 || c == 0x1680
    || 0x2000 <= c <= 0x200A || c == 0x2028 || c == 0x2029 || c == 0x202F || c == 0x205F || c == 0x3000
  }

  const DIGIT_BLOCKS := 36

  /** The zero of the i-th block of decimal digits after the ASCII ones. */
  function BlockZero(i: nat): Unit {
    match i
    case 0 => 0x660 case 1 => 0x6F0 case 2 => 0x7C0 case 3 => 0x966 case 4 => 0x9E6 case 5 => 0xA66
    case 6 => 0xAE6 case 7 => 0xB66 case 8 => 0xBE6 case 9 => 0xC66 case 10 => 0xCE6 case 11 => 0xD66
    case 12 => 0xDE6 case 13 => 0xE50 case 14 => 0xED0 case 15 => 0xF20 case 16 => 0x1040
    case 17 => 0x1090 case 18 => 0x17E0 case 19 => 0x1810 case 20 => 0x1946 case 21 => 0x19D0
    case 22 => 0x1A80 case 23 => 0x1A90 case 24 => 0x1B50 case 25 => 0x1BB0 case 26 => 0x1C40
    case 27 => 0x1C50 case 28 => 0xA620 case 29 => 0xA8D0 case 30 => 0xA900 case 31 => 0xA9D0
    case 32 => 0xA9F0 case 33 => 0xAA50 case 34 => 0xABF0 case 35 => 0xFF10
    case _ => 0xFFFF
  }

  function DigitInBlocks(c: Unit, i: nat): Option<nat>
    decreases DIGIT_BLOCKS - i
  {
    if i >= DIGIT_BLOCKS then None
    else if 0 <= c as int - BlockZero(i) < 10 then Some(c - BlockZero(i))
    else DigitInBlocks(c, i + 1)
  }

  /** The value of a decimal digit of any script. */
  function DigitValue(c: Unit): Option<nat> {
    if ZERO <= c < ZERO + 10 then Some(c - ZERO)
    else if c < 0x80 then None
    else DigitInBlocks(c, 0)
  }

  predicate IsDigit(c: Unit) {
    DigitValue(c).Some?
  }

  /** The value of a digit or letter in a radix up to 36. */
  function DigitOf(c: Unit, radix: nat): Option<nat> {
    var d :=
      if IsDigit(c) then DigitValue(c).value
      else if LOWER_A <= c < LOWER_A + 26 then c - LOWER_A + 10
      else if UPPER_A <= c < UPPER_A + 26 then c - UPPER_A + 10
      else if 0xFF41 <= c < 0xFF41 + 26 then c - 0xFF41 + 10
      else if 0xFF21 <= c < 0xFF21 + 26 then c - 0xFF21 + 10
      else radix;
    if d < radix then Some(d) else None
  }

  function ReadDigits(t: Text, radix: nat, acc: nat): Option<nat> {
    if t == [] then Some(acc)
    else match DigitOf(t[0], radix)
      case Some(d) => ReadDigits(t[1..], radix, acc * radix + d)
      case None => None
  }

  function ReadSigned(t: Text, radix: nat, negative: bool, lo: int, hi: int): (r: Option<int>)
    ensures r.Some? ==> lo <= r.value <= hi
  {
    match ReadDigits(t, radix, 0)
    case None => None
    case Some(v) =>
      var n: int := if negative then 0 - v as int else v;
      if lo <= n <= hi then Some(n) else None
  }

  /** A signed numeral with no surrounding text, if it denotes a value between lo and hi. */
  function ParseInt(t: Text, radix: nat, lo: int, hi: int): (r: Option<int>)
    ensures r.Some? ==> lo <= r.value <= hi
  {
    if t == [] then None
    else if t[0] < ZERO then
      if |t| == 1 || (t[0] != MINUS && t[0] != PLUS) then None
      else ReadSigned(t[1..], radix, t[0] == MINUS, lo, hi)
    else ReadSigned(t, radix, false, lo, hi)
  }

  // ---------- parsing ----------

  datatype Parsed<+T> = Parsed(value: T, pos: nat)

  function SkipWs(s: Text, pos: nat): (p: nat)
    requires pos <= |s|
    ensures pos <= p <= |s|
    ensures p < |s| ==> !IsWhitespace(s[p])
    decreases |s| - pos
  {
    if pos < |s| && IsWhitespace(s[pos]) then SkipWs(s, pos + 1) else pos
  }

  /** Steps over a keyword if it is there, and stays put if it is not. */
  function Expect(s: Text, pos: nat, word: Text): (p: nat)
    requires pos <= |s|
    ensures pos <= p <= |s|
  {
    if pos + |word| <= |s| && s[pos..pos + |word|] == word then pos + |word| else pos
  }

  function Unescape(c: Unit): Unit {
    if c == LOWER_N then NEWLINE
    else if c == LOWER_R then RETURN
    else if c == LOWER_T then TAB
    else if c == LOWER_B then BACKSPACE
    else if c == LOWER_F then FORM_FEED
    else c
  }

  function HexEscape(t: Text): Text {
    var code := ParseInt(t, 16, INT_MIN, INT_MAX);
    if code.Some? then [code.value % 0x1_0000] else []
  }

  /** The rest of a string literal, from just after its opening quote. */
  function ParseChars(s: Text, pos: nat, acc: Text): (r: Parsed<Text>)
    requires pos <= |s|
    ensures pos <= r.pos <= |s|
    decreases |s| - pos
  {
    if pos == |s| then Parsed(acc, pos)
    else if s[pos] == QUOTE then Parsed(acc, pos + 1)
    else if s[pos] == BACKSLASH then ParseEscape(s, pos + 1, acc)
    else ParseChars(s, pos + 1, acc + [s[pos]])
  }

  /** The same, from just after a backslash. */
  function ParseEscape(s: Text, pos: nat, acc: Text): (r: Parsed<Text>)
    requires pos <= |s|
    ensures pos <= r.pos <= |s|
    decreases |s| - pos
  {
    if pos == |s| then Parsed(acc, pos)
    else if s[pos] != LOWER_U then ParseChars(s, pos + 1, acc + [Unescape(s[pos])])
    else if pos + 4 < |s| then ParseChars(s, pos + 5, acc + HexEscape(s[pos + 1..pos + 5]))
    else ParseChars(s, pos + 1, acc)
  }

  function ParseString(s: Text, pos: nat): (r: Parsed<Text>)
    requires pos <= |s|
    ensures pos <= r.pos <= |s|
  {
    var p := SkipWs(s, pos);
    if p == |s| || s[p] != QUOTE then Parsed([], p) else ParseChars(s, p + 1, [])
  }

  predicate IsFloatPart(c: Unit) {
    c == DOT || c == LOWER_E || c == UPPER_E || c == MINUS || c == PLUS
  }

  datatype Scan = Scan(end: nat, isFloat: bool)

  /** The loop that finds the end of a number token. */
  function ScanNumber(s: Text, pos: nat, isFloat: bool): (r: Scan)
    requires pos <= |s|
    ensures pos <= r.end <= |s|
    decreases |s| - pos
  {
    if pos == |s| then Scan(pos, isFloat)
    else if IsDigit(s[pos]) then ScanNumber(s, pos + 1, isFloat)
    else if IsFloatPart(s[pos]) then ScanNumber(s, pos + 1, true)
    else Scan(pos, isFloat)
  }

  function TokenValue(t: Text, isFloat: bool): Json {
    if t == [] then Null
    else if isFloat then Float(t)
    else match ParseInt(t, 10, LONG_MIN, LONG_MAX)
      case Some(n) => Num(n)
      case None => Null
  }

  function ParseNumber(s: Text, pos: nat): (r: Parsed<Json>)
    requires pos <= |s|
    ensures pos <= r.pos <= |s|
  {
    var p := SkipWs(s, pos);
    var q := if p < |s| && (s[p] == MINUS || s[p] == PLUS) then p + 1 else p;
    var r := ScanNumber(s, q, false);
    Parsed(TokenValue(s[p..r.end], r.isFloat), r.end)
  }

  /** Stores a value under a key the way an insertion-ordered map does. */
  function Put(fields: seq<Field>, key: Text, value: Json): seq<Field> {
    if fields == [] then [Field(key, value)]
    else if fields[0].key == key then [Field(key, value)] + fields[1..]
    else [fields[0]] + Put(fields[1..], key, value)
  }

  function ParseValue(s: Text, pos: nat): (r: Parsed<Json>)
    requires pos <= |s|
    ensures pos <= r.pos <= |s|
    decreases |s| - pos, 3
  {
    var p := SkipWs(s, pos);
    if p == |s| then Parsed(Null, p) else ParseAt(s, p)
  }

  /** The value that starts with the unit at pos. */
  function ParseAt(s: Text, pos: nat): (r: Parsed<Json>)
    requires pos < |s|
    ensures pos <= r.pos <= |s|
    decreases |s| - pos, 2
  {
    if s[pos] == LBRACE then ParseObject(s, pos)
    else if s[pos] == LBRACKET then ParseArray(s, pos)
    else if s[pos] == QUOTE then var t := ParseString(s, pos); Parsed(Str(t.value), t.pos)
    else if s[pos] == LOWER_T then Parsed(Bool(true), Expect(s, pos, TRUE_WORD))
    else if s[pos] == LOWER_F then Parsed(Bool(false), Expect(s, pos, FALSE_WORD))
    else if s[pos] == LOWER_N then Parsed(Null, Expect(s, pos, NULL_WORD))
    else ParseNumber(s, pos)
  }

  function ParseObject(s: Text, pos: nat): (r: Parsed<Json>)
    requires pos < |s|
    ensures pos < r.pos <= |s|
    decreases |s| - pos, 1
  {
    var p := SkipWs(s, pos + 1);
    if p < |s| && s[p] == RBRACE then Parsed(Obj([]), p + 1)
    else var r := ParseFields(s, p, []); Parsed(Obj(r.value), r.pos)
  }

  /** The loop over the fields of an object. */
  function ParseFields(s: Text, pos: nat, acc: seq<Field>): (r: Parsed<seq<Field>>)
    requires pos <= |s|
    ensures pos <= r.pos <= |s|
    decreases |s| - pos, 5
  {
    if pos == |s| then Parsed(acc, pos)
    else
      var f := ParseField(s, pos);
      var fields := Put(acc, f.value.key, f.value.value);
      var e := SkipWs(s, f.pos);
      if e < |s| && s[e] == COMMA then ParseFields(s, e + 1, fields)
      else if e < |s| && s[e] == RBRACE then Parsed(fields, e + 1)
      else Parsed(fields, e)
  }

  /** A key, an optional colon and a value. */
  function ParseField(s: Text, pos: nat): (r: Parsed<Field>)
    requires pos <= |s|
    ensures pos <= r.pos <= |s|
    decreases |s| - pos, 4
  {
    var key := ParseString(s, SkipWs(s, pos));
    var p := SkipWs(s, key.pos);
    var q := if p < |s| && s[p] == COLON then p + 1 else p;
    var value := ParseValue(s, q);
    Parsed(Field(key.value, value.value), value.pos)
  }

  function ParseArray(s: Text, pos: nat): (r: Parsed<Json>)
    requires pos < |s|
    ensures pos < r.pos <= |s|
    decreases |s| - pos, 1
  {
    var p := SkipWs(s, pos + 1);
    if p < |s| && s[p] == RBRACKET then Parsed(Arr([]), p + 1)
    else var r := ParseItems(s, p, []); Parsed(Arr(r.value), r.pos)
  }

  /** The loop over the items of an array. */
  function ParseItems(s: Text, pos: nat, acc: seq<Json>): (r: Parsed<seq<Json>>)
    requires pos <= |s|
    ensures pos <= r.pos <= |s|
    decreases |s| - pos, 4
  {
    if pos == |s| then Parsed(acc, pos)
    else
      var value := ParseValue(s, pos);
      var items := acc + [value.value];
      var e := SkipWs(s, value.pos);
      if e < |s| && s[e] == COMMA then ParseItems(s, e + 1, items)
      else if e < |s| && s[e] == RBRACKET then Parsed(items, e + 1)
      else Parsed(items, e)
  }

  /** decode: the fields of the top-level object, or none if the text starts no object. */
  function Decode(text: Text): seq<Field> {
    match ParseValue(text, SkipWs(text, 0)).value
    case Obj(fields) => fields
    case _ => []
  }

  function Encode(host: Platform, v: Json): Text {
    ValueText(host, v)
  }
}
