/** The grammar of sections 2 to 7 of RFC 8259, as a relation between a stretch of a text and
    the value that it denotes, and that the parser reads every text of the grammar as that
    value.  A number with a fraction or an exponent denotes its own text. */
module JsonGrammar {
  import opened Basics
  import opened JsonText

  predicate KeysDistinct(fields: seq<Field>) {
    forall i, j :: 0 <= i < j < |fields| ==> fields[i].key != fields[j].key
  }

  /** Integers fit 64 bits and no object has two fields with one key, at any depth. */
  predicate Sane(v: Json) {
    match v
    case Num(n) => LONG_MIN <= n <= LONG_MAX
    case Arr(items) => forall w <- items :: Sane(w)
    case Obj(fields) => KeysDistinct(fields) && forall f <- fields :: Sane(f.value)
    case _ => true
  }

  // ---------- the grammar ----------

  predicate At(s: Text, pos: nat, w: Text) {
    pos + |w| <= |s| && forall i :: 0 <= i < |w| ==> s[pos + i] == w[i]
  }

  /** Insignificant white space (section 2). */
  predicate IsBlank(c: Unit) {
    c == SPACE || c == TAB || c == NEWLINE || c == RETURN
  }

  predicate Blank(s: Text, a: nat, b: nat) {
    a <= b <= |s| && forall i :: a <= i < b ==> IsBlank(s[i])
  }

  predicate AsciiDigit(c: Unit) {
    ZERO <= c < ZERO + 10
  }

  function DigitsValue(t: Text): nat
    requires forall i :: 0 <= i < |t| ==> AsciiDigit(t[i])
  {
    if t == [] then 0
    else
      assert AsciiDigit(t[|t| - 1]);
      10 * DigitsValue(t[..|t| - 1]) + (t[|t| - 1] - ZERO)
  }

  /** An int: no leading zeros (section 6). */
  predicate Digits(s: Text, a: nat, b: nat) {
    a < b <= |s| && (forall i :: a <= i < b ==> AsciiDigit(s[i])) && (s[a] == ZERO ==> b == a + 1)
  }

  predicate Integer(s: Text, a: nat, b: nat, n: int) {
    if a < |s| && s[a] == MINUS then Digits(s, a + 1, b) && n == 0 - DigitsValue(s[a + 1..b]) as int
    else Digits(s, a, b) && n == DigitsValue(s[a..b])
  }

  predicate AsciiDigits(s: Text, a: nat, b: nat) {
    a < b <= |s| && forall i :: a <= i < b ==> AsciiDigit(s[i])
  }

  predicate Fraction(s: Text, a: nat, b: nat) {
    a < |s| && s[a] == DOT && AsciiDigits(s, a + 1, b)
  }

  predicate IsSign(c: Unit) {
    c == MINUS || c == PLUS
  }

  predicate Exponent(s: Text, a: nat, b: nat) {
    && a < |s| && (s[a] == LOWER_E || s[a] == UPPER_E)
    && AsciiDigits(s, if a + 1 < |s| && IsSign(s[a + 1]) then a + 2 else a + 1, b)
  }

  /** An int up to i, a fraction up to f and an exponent, of which one may be missing. */
  predicate Parts(s: Text, a: nat, i: nat, f: nat, b: nat) {
    && Digits(s, if a < |s| && s[a] == MINUS then a + 1 else a, i) && i < b
    && (i == f || Fraction(s, i, f)) && (f == b || Exponent(s, f, b))
  }

  ghost predicate Floating(s: Text, a: nat, b: nat) {
    exists i, f :: Parts(s, a, i, f, b)
  }

  /** The value of a hexadecimal digit in either case. */
  function HexValue(c: Unit): Option<nat> {
    if AsciiDigit(c) then Some(c - ZERO)
    else if LOWER_A <= c < LOWER_A + 6 then Some(c - LOWER_A + 10)
    else if UPPER_A <= c < UPPER_A + 6 then Some(c - UPPER_A + 10)
    else None
  }

  predicate HexFour(s: Text, a: nat, u: Unit) {
    && a + 4 <= |s| && (forall i :: a <= i < a + 4 ==> HexValue(s[i]).Some?)
    && u == ((HexValue(s[a]).value * 16 + HexValue(s[a + 1]).value) * 16 + HexValue(s[a + 2]).value) * 16
            + HexValue(s[a + 3]).value
  }

  /** The two-character escapes. */
  predicate Escapes(e: Unit, u: Unit) {
    || ((e == QUOTE || e == BACKSLASH || e == SLASH) && u == e)
    || (e == LOWER_B && u == BACKSPACE) || (e == LOWER_F && u == FORM_FEED) || (e == LOWER_N && u == NEWLINE)
    || (e == LOWER_R && u == RETURN) || (e == LOWER_T && u == TAB)
  }

  /** One unit of a string (section 7): as it is, or escaped. */
  predicate Char(s: Text, a: nat, b: nat, u: Unit) {
    && a < b <= |s|
    && (if s[a] == BACKSLASH then
          (b == a + 2 && Escapes(s[a + 1], u)) || (b == a + 6 && s[a + 1] == LOWER_U && HexFour(s, a + 2, u))
        else b == a + 1 && u == s[a] && u >= SPACE && u != QUOTE)
  }

  ghost predicate Chars(s: Text, a: nat, b: nat, t: Text)
    decreases |t|
  {
    if t == [] then a == b
    else exists c :: a < c <= b && Char(s, a, c, t[0]) && Chars(s, c, b, t[1..])
  }

  ghost predicate Quoted(s: Text, a: nat, b: nat, t: Text) {
    a + 1 < b <= |s| && s[a] == QUOTE && s[b - 1] == QUOTE && Chars(s, a + 1, b - 1, t)
  }

  /** The stretch of s from a to b denotes v (section 3). */
  ghost predicate Value(s: Text, a: nat, b: nat, v: Json)
    decreases v, 4
  {
    match v
    case Null => Word(s, a, b, NULL_WORD)
    case Bool(x) => Word(s, a, b, if x then TRUE_WORD else FALSE_WORD)
    case Num(n) => Integer(s, a, b, n)
    case Str(t) => Quoted(s, a, b, t)
    case Arr(items) => a < b <= |s| && s[a] == LBRACKET && Array(s, a + 1, b, items)
    case Obj(fields) => a < b <= |s| && s[a] == LBRACE && Object(s, a + 1, b, fields)
    case Float(token) => a <= b <= |s| && Floating(s, a, b) && token == s[a..b]
  }

  predicate Word(s: Text, a: nat, b: nat, w: Text) {
    At(s, a, w) && b == a + |w|
  }

  predicate Closes(s: Text, f: nat, b: nat, bracket: Unit) {
    f < |s| && s[f] == bracket && b == f + 1
  }

  /** An array from behind its opening bracket (section 5). */
  ghost predicate Array(s: Text, a: nat, b: nat, items: seq<Json>)
    decreases items, 3
  {
    exists c :: Blank(s, a, c) && (if items == [] then Closes(s, c, b, RBRACKET) else Items(s, c, b, items))
  }

  ghost predicate Items(s: Text, a: nat, b: nat, items: seq<Json>)
    requires items != []
    decreases items, 0
  {
    exists e :: a < e && Value(s, a, e, items[0]) && ItemsEnd(s, e, b, items[1..])
  }

  /** The rest of an array behind an item. */
  ghost predicate ItemsEnd(s: Text, e: nat, b: nat, rest: seq<Json>)
    decreases rest, 2
  {
    exists f :: Blank(s, e, f) && (if rest == [] then Closes(s, f, b, RBRACKET) else MoreItems(s, f, b, rest))
  }

  ghost predicate MoreItems(s: Text, f: nat, b: nat, rest: seq<Json>)
    requires rest != []
    decreases rest, 1
  {
    f < |s| && s[f] == COMMA && exists g :: Blank(s, f + 1, g) && Items(s, g, b, rest)
  }

  /** An object from behind its opening brace (section 4). */
  ghost predicate Object(s: Text, a: nat, b: nat, fields: seq<Field>)
    decreases fields, 3
  {
    exists c :: Blank(s, a, c) && (if fields == [] then Closes(s, c, b, RBRACE) else Members(s, c, b, fields))
  }

  ghost predicate Members(s: Text, a: nat, b: nat, fields: seq<Field>)
    requires fields != []
    decreases fields, 0
  {
    exists e :: a < e && Member(s, a, e, fields[0]) && MembersEnd(s, e, b, fields[1..])
  }

  ghost predicate MembersEnd(s: Text, e: nat, b: nat, rest: seq<Field>)
    decreases rest, 2
  {
    exists f :: Blank(s, e, f) && (if rest == [] then Closes(s, f, b, RBRACE) else MoreMembers(s, f, b, rest))
  }

  ghost predicate MoreMembers(s: Text, f: nat, b: nat, rest: seq<Field>)
    requires rest != []
    decreases rest, 1
  {
    f < |s| && s[f] == COMMA && exists g :: Blank(s, f + 1, g) && Members(s, g, b, rest)
  }

  /** A name, a colon and a value. */
  ghost predicate Member(s: Text, a: nat, b: nat, m: Field)
    decreases m, 1
  {
    exists e :: Quoted(s, a, e, m.key) && MemberValue(s, e, b, m)
  }

  ghost predicate MemberValue(s: Text, e: nat, b: nat, m: Field)
    decreases m, 0
  {
    exists f: nat, g: nat :: Blank(s, e, f) && f < |s| && s[f] == COLON && Blank(s, f + 1, g) && Value(s, g, b, m.value)
  }

  /** A whole text that denotes a value. */
  ghost predicate Denotes(s: Text, v: Json) {
    exists a, b :: Blank(s, 0, a) && Value(s, a, b, v) && Blank(s, b, |s|)
  }

  // ---------- what reading makes of a value ----------

  /** Integers of more than 64 bits become null; of several fields with one key the last value
      stays, in the place of the first. */
  function Taken(v: Json): Json
    decreases v, 1
  {
    match v
    case Num(n) => if LONG_MIN <= n <= LONG_MAX then v else Null
    case Arr(items) => Arr(TakenItems(items))
    case Obj(fields) => Obj(TakenFields([], fields))
    case _ => v
  }

  function TakenItems(items: seq<Json>): (r: seq<Json>)
    ensures |r| == |items|
    decreases items, 0
  {
    if items == [] then [] else [Taken(items[0])] + TakenItems(items[1..])
  }

  /** The fields, one after the other, on top of those in acc. */
  function TakenFields(acc: seq<Field>, fields: seq<Field>): seq<Field>
    decreases fields, 0
  {
    if fields == [] then acc
    else TakenFields(Put(acc, fields[0].key, Taken(fields[0].value)), fields[1..])
  }

  // ---------- taking the grammar apart ----------

  lemma OpenArray(s: Text, a: nat, b: nat, items: seq<Json>) returns (c: nat)
    requires Array(s, a, b, items)
    ensures Blank(s, a, c) && (if items == [] then Closes(s, c, b, RBRACKET) else Items(s, c, b, items))
  {
    c :| Blank(s, a, c) && (if items == [] then Closes(s, c, b, RBRACKET) else Items(s, c, b, items));
  }

  lemma OpenItems(s: Text, a: nat, b: nat, items: seq<Json>) returns (e: nat)
    requires items != [] && Items(s, a, b, items)
    ensures a < e && Value(s, a, e, items[0]) && ItemsEnd(s, e, b, items[1..])
  {
    e :| a < e && Value(s, a, e, items[0]) && ItemsEnd(s, e, b, items[1..]);
  }

  lemma OpenItemsEnd(s: Text, e: nat, b: nat, rest: seq<Json>) returns (f: nat)
    requires ItemsEnd(s, e, b, rest)
    ensures Blank(s, e, f) && (if rest == [] then Closes(s, f, b, RBRACKET) else MoreItems(s, f, b, rest))
    ensures f < |s| && s[f] == (if rest == [] then RBRACKET else COMMA)
  {
    f :| Blank(s, e, f) && (if rest == [] then Closes(s, f, b, RBRACKET) else MoreItems(s, f, b, rest));
  }

  lemma OpenMoreItems(s: Text, f: nat, b: nat, rest: seq<Json>) returns (g: nat)
    requires rest != [] && MoreItems(s, f, b, rest)
    ensures f < |s| && Blank(s, f + 1, g) && Items(s, g, b, rest)
  {
    g :| Blank(s, f + 1, g) && Items(s, g, b, rest);
  }

  lemma OpenObject(s: Text, a: nat, b: nat, fields: seq<Field>) returns (c: nat)
    requires Object(s, a, b, fields)
    ensures Blank(s, a, c) && (if fields == [] then Closes(s, c, b, RBRACE) else Members(s, c, b, fields))
  {
    c :| Blank(s, a, c) && (if fields == [] then Closes(s, c, b, RBRACE) else Members(s, c, b, fields));
  }

  lemma OpenMembers(s: Text, a: nat, b: nat, fields: seq<Field>) returns (e: nat)
    requires fields != [] && Members(s, a, b, fields)
    ensures a < e && Member(s, a, e, fields[0]) && MembersEnd(s, e, b, fields[1..])
  {
    e :| a < e && Member(s, a, e, fields[0]) && MembersEnd(s, e, b, fields[1..]);
  }

  lemma OpenMembersEnd(s: Text, e: nat, b: nat, rest: seq<Field>) returns (f: nat)
    requires MembersEnd(s, e, b, rest)
    ensures Blank(s, e, f) && (if rest == [] then Closes(s, f, b, RBRACE) else MoreMembers(s, f, b, rest))
    ensures f < |s| && s[f] == (if rest == [] then RBRACE else COMMA)
  {
    f :| Blank(s, e, f) && (if rest == [] then Closes(s, f, b, RBRACE) else MoreMembers(s, f, b, rest));
  }

  lemma OpenMoreMembers(s: Text, f: nat, b: nat, rest: seq<Field>) returns (g: nat)
    requires rest != [] && MoreMembers(s, f, b, rest)
    ensures f < |s| && Blank(s, f + 1, g) && Members(s, g, b, rest)
  {
    g :| Blank(s, f + 1, g) && Members(s, g, b, rest);
  }

  lemma OpenMember(s: Text, a: nat, b: nat, m: Field) returns (e: nat)
    requires Member(s, a, b, m)
    ensures Quoted(s, a, e, m.key) && MemberValue(s, e, b, m)
  {
    e :| Quoted(s, a, e, m.key) && MemberValue(s, e, b, m);
  }

  lemma OpenMemberValue(s: Text, e: nat, b: nat, m: Field) returns (f: nat, g: nat)
    requires MemberValue(s, e, b, m)
    ensures Blank(s, e, f) && f < |s| && s[f] == COLON && Blank(s, f + 1, g) && Value(s, g, b, m.value)
  {
    f, g :| Blank(s, e, f) && f < |s| && s[f] == COLON && Blank(s, f + 1, g) && Value(s, g, b, m.value);
  }

  lemma OpenChars(s: Text, a: nat, b: nat, t: Text) returns (c: nat)
    requires t != [] && Chars(s, a, b, t)
    ensures a < c <= b && Char(s, a, c, t[0]) && Chars(s, c, b, t[1..])
  {
    c :| a < c <= b && Char(s, a, c, t[0]) && Chars(s, c, b, t[1..]);
  }

  // ---------- reading white space ----------

  lemma {:induction false} SkipBlank(s: Text, a: nat, b: nat)
    requires Blank(s, a, b) && (b < |s| ==> !IsWhitespace(s[b]))
    ensures SkipWs(s, a) == b
    decreases b - a
  {
    if a == b {
    } else {
      assert IsBlank(s[a]);
      SkipBlank(s, a + 1, b);
    }
  }

  // ---------- reading strings ----------

  lemma HexDigitRead(c: Unit)
    requires HexValue(c).Some?
    ensures DigitOf(c, 16) == Some(HexValue(c).value) && HexValue(c).value < 16 && c >= ZERO
  {
  }

  lemma ReadOne(t: Text, radix: nat, acc: nat, d: nat)
    requires t != [] && DigitOf(t[0], radix) == Some(d)
    ensures ReadDigits(t, radix, acc) == ReadDigits(t[1..], radix, acc * radix + d)
  {
  }

  lemma ReadFour(t: Text, a: nat, b: nat, c: nat, d: nat)
    requires |t| == 4 && DigitOf(t[0], 16) == Some(a) && DigitOf(t[1], 16) == Some(b)
    requires DigitOf(t[2], 16) == Some(c) && DigitOf(t[3], 16) == Some(d)
    ensures ReadDigits(t, 16, 0) == Some(((a * 16 + b) * 16 + c) * 16 + d)
  {
    ReadOne(t, 16, 0, a);
    ReadOne(t[1..], 16, a, b);
    ReadOne(t[2..], 16, a * 16 + b, c);
    ReadOne(t[3..], 16, (a * 16 + b) * 16 + c, d);
    assert t[1..][1..] == t[2..] && t[2..][1..] == t[3..] && t[3..][1..] == [];
  }

  lemma HexRead(s: Text, a: nat, u: Unit)
    requires HexFour(s, a, u)
    ensures HexEscape(s[a..a + 4]) == [u]
  {
    var t := s[a..a + 4];
    assert t[0] == s[a] && t[1] == s[a + 1] && t[2] == s[a + 2] && t[3] == s[a + 3];
    HexDigitRead(t[0]);
    HexDigitRead(t[1]);
    HexDigitRead(t[2]);
    HexDigitRead(t[3]);
    ReadFour(t, HexValue(t[0]).value, HexValue(t[1]).value, HexValue(t[2]).value, HexValue(t[3]).value);
  }

  /** Reading one unit of a string yields the unit and leaves the cursor behind it. */
  lemma CharRead(s: Text, a: nat, b: nat, u: Unit, acc: Text)
    requires Char(s, a, b, u) && b < |s|
    ensures ParseChars(s, a, acc) == ParseChars(s, b, acc + [u])
  {
    if s[a] == BACKSLASH && s[a + 1] == LOWER_U && b == a + 6 {
      HexRead(s, a + 2, u);
      assert ParseChars(s, a, acc) == ParseEscape(s, a + 1, acc);
    } else if s[a] == BACKSLASH {
      assert Unescape(s[a + 1]) == u;
      assert ParseChars(s, a, acc) == ParseEscape(s, a + 1, acc);
    }
  }

  lemma {:induction false} CharsRead(s: Text, a: nat, b: nat, t: Text, acc: Text)
    requires Chars(s, a, b, t) && a <= b < |s| && s[b] == QUOTE
    ensures ParseChars(s, a, acc) == Parsed(acc + t, b + 1)
    decreases |t|
  {
    if t == [] {
      assert acc + t == acc;
    } else {
      var c := OpenChars(s, a, b, t);
      CharsRead(s, c, b, t[1..], acc + [t[0]]);
      CharRead(s, a, c, t[0], acc);
      Pushed(acc, t);
    }
  }

  lemma Pushed(acc: Text, t: Text)
    requires t != []
    ensures acc + [t[0]] + t[1..] == acc + t
  {
  }

  lemma QuotedRead(s: Text, a: nat, b: nat, t: Text)
    requires Quoted(s, a, b, t)
    ensures ParseString(s, a) == Parsed(t, b)
  {
    CharsRead(s, a + 1, b - 1, t, []);
    assert [] + t == t;
    assert SkipWs(s, a) == a;
  }

  // ---------- reading numbers ----------

  lemma {:induction false} ReadAppend(t: Text, c: Unit, acc: nat, v: nat, d: nat)
    requires ReadDigits(t, 10, acc) == Some(v) && DigitOf(c, 10) == Some(d)
    ensures ReadDigits(t + [c], 10, acc) == Some(v * 10 + d)
    decreases |t|
  {
    if t == [] {
      assert t + [c] == [c];
      ReadOne([c], 10, acc, d);
    } else {
      var e := DigitOf(t[0], 10).value;
      ReadOne(t, 10, acc, e);
      assert (t + [c])[1..] == t[1..] + [c];
      ReadOne(t + [c], 10, acc, e);
      ReadAppend(t[1..], c, acc * 10 + e, v, d);
    }
  }

  lemma DigitRead(c: Unit)
    requires AsciiDigit(c)
    ensures DigitOf(c, 10) == Some(c - ZERO) && IsDigit(c)
  {
  }

  lemma {:induction false} DigitsRead(t: Text)
    requires forall i :: 0 <= i < |t| ==> AsciiDigit(t[i])
    ensures ReadDigits(t, 10, 0) == Some(DigitsValue(t))
  {
    if t == [] {
    } else {
      var c := t[|t| - 1];
      DigitsRead(t[..|t| - 1]);
      DigitRead(c);
      ReadAppend(t[..|t| - 1], c, 0, DigitsValue(t[..|t| - 1]), c - ZERO);
      assert t == t[..|t| - 1] + [c];
    }
  }

  /** The text of a value ends here: what follows cannot be taken for more of a number. */
  predicate EndsAt(s: Text, pos: nat) {
    pos < |s| ==> !IsDigit(s[pos]) && !IsFloatPart(s[pos])
  }

  predicate NumberUnits(s: Text, a: nat, b: nat) {
    a <= b <= |s| && forall i :: a <= i < b ==> AsciiDigit(s[i]) || IsFloatPart(s[i])
  }

  predicate HasFloatPart(s: Text, a: nat, b: nat)
    requires b <= |s|
  {
    exists i :: a <= i < b && IsFloatPart(s[i])
  }

  lemma {:induction false} ScanTo(s: Text, pos: nat, end: nat, isFloat: bool)
    requires NumberUnits(s, pos, end) && EndsAt(s, end)
    ensures ScanNumber(s, pos, isFloat) == Scan(end, isFloat || HasFloatPart(s, pos, end))
    decreases end - pos
  {
    if pos == end {
    } else if AsciiDigit(s[pos]) {
      DigitRead(s[pos]);
      ScanTo(s, pos + 1, end, isFloat);
      assert HasFloatPart(s, pos, end) <==> HasFloatPart(s, pos + 1, end);
    } else {
      assert !IsDigit(s[pos]) && HasFloatPart(s, pos, end);
      ScanTo(s, pos + 1, end, true);
    }
  }

  lemma DigitsParsed(t: Text, lo: int, hi: int)
    requires t != [] && forall i :: 0 <= i < |t| ==> AsciiDigit(t[i])
    ensures ParseInt(t, 10, lo, hi) == if lo <= DigitsValue(t) <= hi then Some(DigitsValue(t)) else None
    ensures ParseInt([MINUS] + t, 10, lo, hi) ==
      if lo <= 0 - DigitsValue(t) as int <= hi then Some(0 - DigitsValue(t) as int) else None
  {
    DigitsRead(t);
    assert AsciiDigit(t[0]);
    assert ([MINUS] + t)[1..] == t;
  }

  /** An integer token is read as the integer that it denotes, or as null if that has more than
      64 bits. */
  lemma NumberRead(s: Text, a: nat, b: nat, n: int)
    requires Integer(s, a, b, n) && EndsAt(s, b)
    ensures ParseNumber(s, a) == Parsed(Taken(Num(n)), b) && (s[a] == MINUS || AsciiDigit(s[a]))
  {
    var start := if s[a] == MINUS then a + 1 else a;
    var t := s[start..b];
    assert forall i :: 0 <= i < |t| ==> AsciiDigit(t[i]);
    ScanTo(s, start, b, false);
    assert s[a] == MINUS ==> s[a..b] == [MINUS] + t;
    TokenRead(s[a..b], t, n);
    assert AsciiDigit(s[start]) && SkipWs(s, a) == a;
  }

  lemma TokenRead(token: Text, t: Text, n: int)
    requires t != [] && forall i :: 0 <= i < |t| ==> AsciiDigit(t[i])
    requires (token == t && n == DigitsValue(t)) || (token == [MINUS] + t && n == 0 - DigitsValue(t) as int)
    ensures TokenValue(token, false) == Taken(Num(n))
  {
    DigitsParsed(t, LONG_MIN, LONG_MAX);
  }

  /** The units of a number with a fraction or an exponent. */
  lemma PartsScanned(s: Text, a: nat, i: nat, f: nat, b: nat)
    requires Parts(s, a, i, f, b)
    ensures var start := if a < |s| && s[a] == MINUS then a + 1 else a;
      start < i < b <= |s| && NumberUnits(s, start, b) && HasFloatPart(s, start, b) && AsciiDigit(s[start])
  {
    assert IsFloatPart(s[i]);
  }

  /** Such a number is taken whole, whatever the platform makes of it. */
  lemma FloatRead(s: Text, a: nat, b: nat)
    requires a <= b <= |s| && Floating(s, a, b) && EndsAt(s, b)
    ensures ParseNumber(s, a) == Parsed(Float(s[a..b]), b) && a < b && (s[a] == MINUS || AsciiDigit(s[a]))
  {
    var i, f :| Parts(s, a, i, f, b);
    PartsScanned(s, a, i, f, b);
    ScanTo(s, if s[a] == MINUS then a + 1 else a, b, false);
    assert SkipWs(s, a) == a;
  }

  // ---------- reading values ----------

  /** No value starts with white space, or with what could close an array. */
  lemma ValueStarts(s: Text, a: nat, b: nat, v: Json)
    requires Value(s, a, b, v)
    ensures a < b <= |s| && !IsWhitespace(s[a]) && s[a] != RBRACKET && s[a] != RBRACE
  {
    match v
    case Num(n) => assert AsciiDigit(s[if s[a] == MINUS then a + 1 else a]);
    case Float(_) =>
      var i, f :| Parts(s, a, i, f, b);
      PartsScanned(s, a, i, f, b);
    case Null => assert s[a] == NULL_WORD[0];
    case Bool(x) => assert s[a] == (if x then TRUE_WORD else FALSE_WORD)[0];
    case _ =>
  }

  /** What may follow a value ends it. */
  lemma BlankEnds(s: Text, e: nat, f: nat)
    requires Blank(s, e, f) && (f < |s| ==> s[f] in {COMMA, RBRACKET, RBRACE})
    ensures EndsAt(s, e) && SkipWs(s, e) == f
  {
    SkipBlank(s, e, f);
    if e < f {
      assert IsBlank(s[e]);
    }
  }

  lemma WordRead(s: Text, a: nat, b: nat, v: Json)
    requires (v.Null? || v.Bool?) && Value(s, a, b, v)
    ensures ParseValue(s, a) == Parsed(v, b)
  {
    var w := if v.Null? then NULL_WORD else if v.b then TRUE_WORD else FALSE_WORD;
    WordExpected(s, a, w);
    assert s[a] == w[0];
    assert SkipWs(s, a) == a;
  }

  lemma WordExpected(s: Text, a: nat, w: Text)
    requires At(s, a, w)
    ensures Expect(s, a, w) == a + |w|
  {
    assert s[a..a + |w|] == w;
  }

  /** Whatever denotes a value is read as what reading makes of that, whatever blanks precede it. */
  lemma {:induction false} ValueRead(s: Text, o: nat, a: nat, b: nat, v: Json)
    requires Blank(s, o, a) && Value(s, a, b, v) && EndsAt(s, b)
    ensures ParseValue(s, o) == Parsed(Taken(v), b)
    decreases v, 4
  {
    ValueStarts(s, a, b, v);
    SkipBlank(s, o, a);
    assert ParseValue(s, o) == ParseAt(s, a);
    match v
    case Null => WordRead(s, a, b, v);
    case Bool(x) => WordRead(s, a, b, v);
    case Num(n) => NumberRead(s, a, b, n);
    case Float(_) => FloatRead(s, a, b);
    case Str(t) => QuotedRead(s, a, b, t);
    case Arr(items) => ArrayRead(s, a, b, items);
    case Obj(fields) => ObjectRead(s, a, b, fields);
  }

  lemma {:induction false} ArrayRead(s: Text, a: nat, b: nat, items: seq<Json>)
    requires a < b <= |s| && s[a] == LBRACKET && Array(s, a + 1, b, items)
    ensures ParseAt(s, a) == Parsed(Arr(TakenItems(items)), b)
    decreases items, 3
  {
    var c := OpenArray(s, a + 1, b, items);
    if items == [] {
      SkipBlank(s, a + 1, c);
    } else {
      ItemsStart(s, c, b, items);
      SkipBlank(s, a + 1, c);
      assert Blank(s, c, c) && [] + TakenItems(items) == TakenItems(items);
      ItemsRead(s, c, c, b, items, []);
    }
    ArrayAssembled(s, a, c, b, items);
  }

  lemma ItemsStart(s: Text, c: nat, b: nat, items: seq<Json>)
    requires items != [] && Items(s, c, b, items)
    ensures c < |s| && !IsWhitespace(s[c]) && s[c] != RBRACKET
  {
    var e := OpenItems(s, c, b, items);
    ValueStarts(s, c, e, items[0]);
  }

  lemma ArrayAssembled(s: Text, a: nat, c: nat, b: nat, items: seq<Json>)
    requires a < |s| && s[a] == LBRACKET && SkipWs(s, a + 1) == c < |s|
    requires items == [] ==> Closes(s, c, b, RBRACKET)
    requires items != [] ==> s[c] != RBRACKET && ParseItems(s, c, []) == Parsed(TakenItems(items), b)
    ensures ParseAt(s, a) == Parsed(Arr(TakenItems(items)), b)
  {
    assert ParseAt(s, a) == ParseArray(s, a);
  }

  /** One pass of the item loop. */
  lemma ItemStep(s: Text, o: nat, acc: seq<Json>, v: Json, e: nat, f: nat)
    requires o < e <= f < |s| && (s[f] == COMMA || s[f] == RBRACKET)
    requires ParseValue(s, o) == Parsed(v, e) && SkipWs(s, e) == f
    ensures ParseItems(s, o, acc)
         == if s[f] == COMMA then ParseItems(s, f + 1, acc + [v]) else Parsed(acc + [v], f + 1)
  {
  }

  /** The loop's first pass, f being the comma or bracket that ends it. */
  lemma {:induction false} ItemsPass(s: Text, o: nat, a: nat, b: nat, items: seq<Json>, acc: seq<Json>)
    returns (f: nat, g: nat)
    requires items != [] && Blank(s, o, a) && Items(s, a, b, items)
    ensures f < |s| && var next := acc + [Taken(items[0])];
      ParseItems(s, o, acc) == if s[f] == COMMA then ParseItems(s, f + 1, next) else Parsed(next, f + 1)
    ensures |items| == 1 ==> s[f] == RBRACKET && b == f + 1
    ensures |items| > 1 ==> s[f] == COMMA && Blank(s, f + 1, g) && Items(s, g, b, items[1..])
    decreases items, 0
  {
    var e := OpenItems(s, a, b, items);
    f := OpenItemsEnd(s, e, b, items[1..]);
    BlankEnds(s, e, f);
    ValueRead(s, o, a, e, items[0]);
    ItemStep(s, o, acc, Taken(items[0]), e, f);
    g := 0;
    if |items| > 1 {
      g := OpenMoreItems(s, f, b, items[1..]);
    }
  }

  lemma ItemsJoin(acc: seq<Json>, items: seq<Json>)
    requires items != []
    ensures TakenItems(items) == [Taken(items[0])] + TakenItems(items[1..])
    ensures acc + [Taken(items[0])] + TakenItems(items[1..]) == acc + TakenItems(items)
  {
  }

  lemma {:induction false} ItemsRead(s: Text, o: nat, a: nat, b: nat, items: seq<Json>, acc: seq<Json>)
    requires items != [] && Blank(s, o, a) && Items(s, a, b, items)
    ensures ParseItems(s, o, acc) == Parsed(acc + TakenItems(items), b)
    decreases items, 1
  {
    var f, g := ItemsPass(s, o, a, b, items, acc);
    ItemsJoin(acc, items);
    if |items| > 1 {
      ItemsRead(s, f + 1, g, b, items[1..], acc + [Taken(items[0])]);
    } else {
      assert acc + [Taken(items[0])] == acc + [Taken(items[0])] + TakenItems(items[1..]);
    }
  }

  lemma {:induction false} ObjectRead(s: Text, a: nat, b: nat, fields: seq<Field>)
    requires a < b <= |s| && s[a] == LBRACE && Object(s, a + 1, b, fields)
    ensures ParseAt(s, a) == Parsed(Obj(TakenFields([], fields)), b)
    decreases fields, 3
  {
    var c := OpenObject(s, a + 1, b, fields);
    if fields == [] {
      SkipBlank(s, a + 1, c);
    } else {
      MembersStart(s, c, b, fields);
      SkipBlank(s, a + 1, c);
      assert Blank(s, c, c);
      MembersRead(s, c, c, b, fields, []);
    }
    ObjectAssembled(s, a, c, b, fields);
  }

  lemma MembersStart(s: Text, c: nat, b: nat, fields: seq<Field>)
    requires fields != [] && Members(s, c, b, fields)
    ensures c < |s| && s[c] == QUOTE
  {
    var e := OpenMembers(s, c, b, fields);
    var k := OpenMember(s, c, e, fields[0]);
  }

  lemma ObjectAssembled(s: Text, a: nat, c: nat, b: nat, fields: seq<Field>)
    requires a < |s| && s[a] == LBRACE && SkipWs(s, a + 1) == c < |s|
    requires fields == [] ==> Closes(s, c, b, RBRACE)
    requires fields != [] ==> s[c] == QUOTE && ParseFields(s, c, []) == Parsed(TakenFields([], fields), b)
    ensures ParseAt(s, a) == Parsed(Obj(TakenFields([], fields)), b)
  {
    assert ParseAt(s, a) == ParseObject(s, a);
  }

  /** The field as reading takes it. */
  function TakenField(m: Field): Field {
    Field(m.key, Taken(m.value))
  }

  lemma {:induction false} MemberRead(s: Text, o: nat, a: nat, b: nat, m: Field)
    requires Blank(s, o, a) && Member(s, a, b, m) && EndsAt(s, b)
    ensures ParseField(s, o) == Parsed(TakenField(m), b) && o < b
    decreases m, 5
  {
    var e := OpenMember(s, a, b, m);
    QuotedRead(s, a, e, m.key);
    SkipBlank(s, o, a);
    var f, g := OpenMemberValue(s, e, b, m);
    ColonRead(s, e, f, g, b, m.value);
    MemberAssembled(s, o, a, TakenField(m), e, f, b);
  }

  lemma {:induction false} ColonRead(s: Text, e: nat, f: nat, g: nat, b: nat, v: Json)
    requires Blank(s, e, f) && f < |s| && s[f] == COLON && Blank(s, f + 1, g) && Value(s, g, b, v) && EndsAt(s, b)
    ensures SkipWs(s, e) == f && ParseValue(s, f + 1) == Parsed(Taken(v), b) && f < b
    decreases v, 5
  {
    SkipBlank(s, e, f);
    ValueRead(s, f + 1, g, b, v);
  }

  lemma MemberAssembled(s: Text, o: nat, a: nat, m: Field, e: nat, f: nat, b: nat)
    requires o <= a <= |s| && SkipWs(s, o) == a && ParseString(s, a) == Parsed(m.key, e) && e <= |s|
    requires SkipWs(s, e) == f < |s| && s[f] == COLON && ParseValue(s, f + 1) == Parsed(m.value, b)
    ensures ParseField(s, o) == Parsed(m, b)
  {
  }

  /** One pass of the field loop. */
  lemma MemberStep(s: Text, o: nat, acc: seq<Field>, m: Field, e: nat, f: nat)
    requires o < e <= f < |s| && (s[f] == COMMA || s[f] == RBRACE)
    requires ParseField(s, o) == Parsed(m, e) && SkipWs(s, e) == f
    ensures var next := Put(acc, m.key, m.value);
      ParseFields(s, o, acc) == if s[f] == COMMA then ParseFields(s, f + 1, next) else Parsed(next, f + 1)
  {
  }

  /** The loop's first pass, f being the comma or brace that ends it. */
  lemma {:induction false} FirstMember(s: Text, o: nat, a: nat, e: nat, f: nat, m: Field, acc: seq<Field>)
    requires Blank(s, o, a) && a < e && Member(s, a, e, m)
    requires Blank(s, e, f) && f < |s| && (s[f] == COMMA || s[f] == RBRACE)
    ensures var next := Put(acc, m.key, Taken(m.value));
      ParseFields(s, o, acc) == if s[f] == COMMA then ParseFields(s, f + 1, next) else Parsed(next, f + 1)
    decreases m, 6
  {
    BlankEnds(s, e, f);
    MemberRead(s, o, a, e, m);
    MemberStep(s, o, acc, TakenField(m), e, f);
  }

  lemma {:induction false} MembersPass(s: Text, o: nat, a: nat, b: nat, fields: seq<Field>, acc: seq<Field>)
    returns (f: nat, g: nat)
    requires fields != [] && Blank(s, o, a) && Members(s, a, b, fields)
    ensures f < |s| && var next := Put(acc, fields[0].key, Taken(fields[0].value));
      ParseFields(s, o, acc) == if s[f] == COMMA then ParseFields(s, f + 1, next) else Parsed(next, f + 1)
    ensures |fields| == 1 ==> s[f] == RBRACE && b == f + 1
    ensures |fields| > 1 ==> s[f] == COMMA && Blank(s, f + 1, g) && Members(s, g, b, fields[1..])
    decreases fields, 0
  {
    var e := OpenMembers(s, a, b, fields);
    f := OpenMembersEnd(s, e, b, fields[1..]);
    FirstMember(s, o, a, e, f, fields[0], acc);
    g := 0;
    if |fields| > 1 {
      g := OpenMoreMembers(s, f, b, fields[1..]);
    }
  }

  lemma {:induction false} MembersRead(s: Text, o: nat, a: nat, b: nat, fields: seq<Field>, acc: seq<Field>)
    requires fields != [] && Blank(s, o, a) && Members(s, a, b, fields)
    ensures ParseFields(s, o, acc) == Parsed(TakenFields(acc, fields), b)
    decreases fields, 1
  {
    var f, g := MembersPass(s, o, a, b, fields, acc);
    var next := Put(acc, fields[0].key, Taken(fields[0].value));
    TakenStep(acc, fields, next);
    if |fields| == 1 {
    } else {
      MembersRead(s, f + 1, g, b, fields[1..], next);
    }
  }

  lemma TakenStep(acc: seq<Field>, fields: seq<Field>, next: seq<Field>)
    requires fields != [] && next == Put(acc, fields[0].key, Taken(fields[0].value))
    ensures TakenFields(acc, fields) == TakenFields(next, fields[1..])
    ensures |fields| == 1 ==> TakenFields(acc, fields) == next
  {
  }

  // ---------- values that are taken as they are ----------

  lemma {:induction false} PutNew(acc: seq<Field>, key: Text, value: Json)
    requires forall f <- acc :: f.key != key
    ensures Put(acc, key, value) == acc + [Field(key, value)]
  {
    if acc == [] {
    } else {
      PutNew(acc[1..], key, value);
      assert [acc[0]] + (acc[1..] + [Field(key, value)]) == acc + [Field(key, value)];
    }
  }

  /** The keys of fields are distinct, and none is in acc. */
  predicate NewKeys(acc: seq<Field>, fields: seq<Field>) {
    KeysDistinct(fields) && forall g <- acc, f <- fields :: g.key != f.key
  }

  lemma NewKeysNext(acc: seq<Field>, fields: seq<Field>)
    requires fields != [] && NewKeys(acc, fields)
    ensures (forall g <- acc :: g.key != fields[0].key) && NewKeys(acc + [fields[0]], fields[1..])
  {
    var rest := fields[1..];
    assert fields == [fields[0]] + rest;
    forall i, j | 0 <= i < j < |rest| ensures rest[i].key != rest[j].key {
      assert rest[i] == fields[i + 1] && rest[j] == fields[j + 1];
    }
    forall f <- rest ensures f.key != fields[0].key {
      var i :| 0 <= i < |rest| && rest[i] == f;
      assert fields[i + 1] == f;
    }
  }

  /** With distinct keys and 64-bit integers throughout, a value is taken as it is. */
  lemma {:induction false} SaneTaken(v: Json)
    requires Sane(v)
    ensures Taken(v) == v
    decreases v, 1
  {
    match v
    case Arr(items) => SaneItemsTaken(items);
    case Obj(fields) =>
      SaneFieldsTaken([], fields);
      assert [] + fields == fields;
    case _ =>
  }

  lemma {:induction false} SaneItemsTaken(items: seq<Json>)
    requires forall w <- items :: Sane(w)
    ensures TakenItems(items) == items
    decreases items, 0
  {
    if items == [] {
    } else {
      SaneTaken(items[0]);
      SaneItemsTaken(items[1..]);
    }
  }

  lemma {:induction false} SaneFieldsTaken(acc: seq<Field>, fields: seq<Field>)
    requires NewKeys(acc, fields) && forall f <- fields :: Sane(f.value)
    ensures TakenFields(acc, fields) == acc + fields
    decreases fields, 0
  {
    if fields == [] {
    } else {
      NewKeysNext(acc, fields);
      SaneTaken(fields[0].value);
      PutNew(acc, fields[0].key, fields[0].value);
      SaneFieldsTaken(acc + [fields[0]], fields[1..]);
      assert acc + [fields[0]] + fields[1..] == acc + fields;
    }
  }

  // ---------- reading texts ----------

  /** Every text of the grammar that denotes an object is decoded to what reading makes of that
      object, however it is spaced and escaped; with distinct keys and 64-bit integers at every
      depth to that object itself. */
  lemma DecodeDenoted(s: Text, fields: seq<Field>)
    requires Denotes(s, Obj(fields))
    ensures Decode(s) == TakenFields([], fields)
    ensures Sane(Obj(fields)) ==> Decode(s) == fields
  {
    var a, b :| Blank(s, 0, a) && Value(s, a, b, Obj(fields)) && Blank(s, b, |s|);
    DecodeAt(s, a, b, fields);
  }

  /** The same for a stretch at the front of a text, whatever follows it. */
  lemma DecodeAt(s: Text, a: nat, b: nat, fields: seq<Field>)
    requires Blank(s, 0, a) && Value(s, a, b, Obj(fields))
    ensures Decode(s) == TakenFields([], fields)
    ensures Sane(Obj(fields)) ==> Decode(s) == fields
  {
    SkipBlank(s, 0, a);
    ObjectRead(s, a, b, fields);
    assert ParseValue(s, a) == ParseAt(s, a);
    if Sane(Obj(fields)) {
      SaneFieldsTaken([], fields);
      assert [] + fields == fields;
    }
  }
}
