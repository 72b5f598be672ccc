/** What the grammar does not say: which escapes the printer uses, what becomes of repeated keys,
    and what the tolerant parser makes of texts that are not of the grammar. */
module JsonTolerance {
  import opened Basics
  import opened JsonText
  import opened JsonGrammar

  // ---------- printing ----------

  /** What must be escaped is, and nothing else; the short forms are used where there are any. */
  lemma EscapesExact(u: Unit)
    ensures var t := EscapeUnit(u);
      && (t == [u] <==> u >= 0x20 && u != 0x22 && u != 0x5C)
      && (|t| == 2 <==> u in {0x22, 0x5C, 0x08, 0x09, 0x0A, 0x0C, 0x0D})
      && (|t| == 6 <==> u < 0x20 && u !in {0x08, 0x09, 0x0A, 0x0C, 0x0D})
  {
  }

  /** Hexadecimal digits are printed in lower case. */
  lemma HexLower(d: nat)
    requires d < 16
    ensures HexUnit(d) == "0123456789abcdef"[d] as int
  {
  }

  // ---------- white space ----------

  /** The code points of white space, by their numbers in the Unicode charts. */
  const SPACES: set<nat> := {
    0x0009, 0x000A, 0x000B, 0x000C, 0x000D, 0x001C, 0x001D, 0x001E, 0x001F, 0x0020, 0x00A0, 0x1680, 0x2000, 0x2001,
    0x2002, 0x2003, 0x2004, 0x2005, 0x2006, 0x2007, 0x2008, 0x2009, 0x200A, 0x2028, 0x2029, 0x202F, 0x205F, 0x3000}

  lemma SpacesSkipped(s: Text, a: nat)
    requires a < |s|
    ensures SkipWs(s, a) == a <==> s[a] !in SPACES
  {
  }

  // ---------- repeated keys ----------

  /** Storing a value changes the one under its key, where that is, or adds a field at the end. */
  lemma {:induction false} PutExact(fields: seq<Field>, key: Text, value: Json)
    requires KeysDistinct(fields)
    ensures var r := Put(fields, key, value);
      && |r| == |fields| + (if exists f :: f in fields && f.key == key then 0 else 1)
      && (forall i :: 0 <= i < |fields| ==> r[i] == if fields[i].key == key then Field(key, value) else fields[i])
      && (|r| > |fields| ==> r[|fields|] == Field(key, value))
  {
    if fields == [] {
    } else {
      var rest := fields[1..];
      assert fields == [fields[0]] + rest;
      forall i, j | 0 <= i < j < |rest| ensures rest[i].key != rest[j].key {
        assert rest[i] == fields[i + 1] && rest[j] == fields[j + 1];
      }
      PutExact(rest, key, value);
      if fields[0].key == key {
        forall i | 1 <= i < |fields| ensures fields[i].key != key {
          assert fields[0].key != fields[i].key;
        }
      }
    }
  }

  lemma {:induction false} TakenAppend(acc: seq<Field>, fields: seq<Field>, m: Field)
    ensures TakenFields(acc, fields + [m]) == Put(TakenFields(acc, fields), m.key, Taken(m.value))
    decreases |fields|
  {
    if fields == [] {
      assert fields + [m] == [m] && [m][1..] == [];
    } else {
      assert (fields + [m])[1..] == fields[1..] + [m];
      TakenAppend(Put(acc, fields[0].key, Taken(fields[0].value)), fields[1..], m);
    }
  }

  /** The last field with its key, and the first one. */
  predicate LastField(fields: seq<Field>, i: nat) {
    i < |fields| && forall j :: i < j < |fields| ==> fields[j].key != fields[i].key
  }

  predicate FirstWith(fields: seq<Field>, i: nat, key: Text) {
    i < |fields| && fields[i].key == key && forall j :: 0 <= j < i ==> fields[j].key != key
  }

  predicate HasKey(fields: seq<Field>, key: Text) {
    exists i :: 0 <= i < |fields| && fields[i].key == key
  }

  /** Each key comes before another if it first appeared before it. */
  ghost predicate InOrder(fields: seq<Field>, r: seq<Field>) {
    forall k, l, i, j :: 0 <= k < l < |r| && FirstWith(fields, i, r[k].key) && FirstWith(fields, j, r[l].key) ==> i < j
  }

  /** Fields that have been taken: each key once, with its last value, in the order of the keys'
      first appearance. */
  ghost predicate Merged(fields: seq<Field>, r: seq<Field>) {
    && KeysDistinct(r) && (forall key :: HasKey(fields, key) <==> HasKey(r, key))
    && (forall i :: 0 <= i < |fields| && LastField(fields, i) ==> TakenField(fields[i]) in r)
    && InOrder(fields, r)
  }

  lemma KeyNext(fields: seq<Field>, m: Field, key: Text)
    ensures HasKey(fields + [m], key) <==> HasKey(fields, key) || key == m.key
  {
    var more := fields + [m];
    assert more[|fields|] == m && forall i :: 0 <= i < |fields| ==> more[i] == fields[i];
  }

  lemma SameKeys(r: seq<Field>, p: seq<Field>, key: Text)
    requires |p| >= |r| && forall i :: 0 <= i < |r| ==> p[i].key == r[i].key
    requires |p| == (if HasKey(r, key) then |r| else |r| + 1) && (|p| > |r| ==> p[|r|].key == key)
    ensures forall k :: HasKey(p, k) <==> HasKey(r, k) || k == key
  {
    forall k | HasKey(r, k) || k == key ensures HasKey(p, k) {
      if HasKey(r, k) {
        var i :| 0 <= i < |r| && r[i].key == k;
        assert p[i].key == k;
      } else {
        assert p[|r|].key == k;
      }
    }
    forall k | HasKey(p, k) ensures HasKey(r, k) || k == key {
      var i :| 0 <= i < |p| && p[i].key == k;
      assert i < |r| ==> r[i].key == k;
    }
  }

  lemma PutKeys(r: seq<Field>, key: Text, value: Json)
    requires KeysDistinct(r)
    ensures KeysDistinct(Put(r, key, value)) && Field(key, value) in Put(r, key, value)
    ensures forall f :: f in r && f.key != key ==> f in Put(r, key, value)
    ensures forall k :: HasKey(Put(r, key, value), k) <==> HasKey(r, k) || k == key
  {
    PutExact(r, key, value);
    var p := Put(r, key, value);
    SameKeys(r, p, key);
    if HasKey(r, key) {
      var i :| 0 <= i < |r| && r[i].key == key;
      assert p[i] == Field(key, value);
    } else {
      assert p[|r|] == Field(key, value);
    }
    forall f | f in r && f.key != key ensures f in p {
      var i :| 0 <= i < |r| && r[i] == f;
      assert p[i] == f;
    }
  }

  lemma FirstBefore(fields: seq<Field>, m: Field, i: nat, key: Text)
    requires FirstWith(fields + [m], i, key)
    ensures if HasKey(fields, key) then FirstWith(fields, i, key) else i == |fields|
  {
    var more := fields + [m];
    assert forall j :: 0 <= j < |fields| ==> more[j] == fields[j];
  }

  lemma OrderNext(fields: seq<Field>, r: seq<Field>, m: Field)
    requires Merged(fields, r)
    ensures InOrder(fields + [m], Put(r, m.key, Taken(m.value)))
  {
    PutExact(r, m.key, Taken(m.value));
    KeysInOrder(fields, r, m, Put(r, m.key, Taken(m.value)));
  }

  lemma KeysInOrder(fields: seq<Field>, r: seq<Field>, m: Field, p: seq<Field>)
    requires Merged(fields, r) && |r| <= |p| <= |r| + 1 && (forall i :: 0 <= i < |r| ==> p[i].key == r[i].key)
    requires |p| > |r| ==> p[|r|].key == m.key && !HasKey(r, m.key)
    ensures InOrder(fields + [m], p)
  {
    forall k, l, i, j | 0 <= k < l < |p| && FirstWith(fields + [m], i, p[k].key) && FirstWith(fields + [m], j, p[l].key)
      ensures i < j
    {
      FirstBefore(fields, m, i, p[k].key);
      FirstBefore(fields, m, j, p[l].key);
      assert p[k].key == r[k].key && HasKey(r, p[k].key);
      if l < |r| {
        assert p[l].key == r[l].key && HasKey(r, p[l].key);
      } else {
        assert !HasKey(r, p[l].key);
      }
    }
  }

  /** In the fields that reading makes of some fields each key occurs once, with its last value,
      in the place of its first. */
  lemma {:induction false} MergeMeaning(fields: seq<Field>)
    ensures Merged(fields, TakenFields([], fields))
  {
    if fields == [] {
    } else {
      var front, m := fields[..|fields| - 1], fields[|fields| - 1];
      assert fields == front + [m];
      MergeMeaning(front);
      TakenAppend([], front, m);
      MergeNext(front, TakenFields([], front), m);
    }
  }

  lemma MergeNext(fields: seq<Field>, r: seq<Field>, m: Field)
    requires Merged(fields, r)
    ensures Merged(fields + [m], Put(r, m.key, Taken(m.value)))
  {
    var p, more := Put(r, m.key, Taken(m.value)), fields + [m];
    PutKeys(r, m.key, Taken(m.value));
    OrderNext(fields, r, m);
    forall key ensures HasKey(more, key) <==> HasKey(p, key) {
      KeyNext(fields, m, key);
    }
    forall i | 0 <= i < |more| && LastField(more, i) ensures TakenField(more[i]) in p {
      if i < |fields| {
        assert more[|fields|] == m && more[i] == fields[i];
        assert forall j :: i < j < |fields| ==> more[j] == fields[j];
        assert LastField(fields, i);
      }
    }
  }

  // ---------- broken strings ----------

  /** An escape that the grammar does not know stands for the unit behind the backslash. */
  lemma UnknownEscape(s: Text, a: nat, acc: Text)
    requires a + 2 <= |s| && s[a] == BACKSLASH
    requires s[a + 1] !in {LOWER_B, LOWER_F, LOWER_N, LOWER_R, LOWER_T, LOWER_U}
    ensures ParseChars(s, a, acc) == ParseChars(s, a + 2, acc + [s[a + 1]])
  {
    assert ParseChars(s, a, acc) == ParseEscape(s, a + 1, acc);
  }

  /** An escape by number adds nothing if fewer than four units are left for it, or if one behind
      the first of the four is not a hexadecimal digit. */
  lemma BrokenUnicode(s: Text, a: nat, acc: Text)
    requires a + 2 <= |s| && s[a] == BACKSLASH && s[a + 1] == LOWER_U
    ensures |s| < a + 6 ==> ParseChars(s, a, acc) == ParseChars(s, a + 2, acc)
    ensures a + 6 <= |s| && (exists i :: a + 3 <= i < a + 6 && DigitOf(s[i], 16).None?) ==>
      ParseChars(s, a, acc) == ParseChars(s, a + 6, acc)
  {
    assert ParseChars(s, a, acc) == ParseEscape(s, a + 1, acc);
    if a + 6 <= |s| {
      var t := s[a + 2..a + 6];
      if i :| a + 3 <= i < a + 6 && DigitOf(s[i], 16).None? {
        assert t[i - a - 2] == s[i] && t[1..][i - a - 3] == s[i];
        BadDigits(t, 16, 0, i - a - 2);
        BadDigits(t[1..], 16, 0, i - a - 3);
        assert HexEscape(t) == [] && acc + [] == acc;
      }
    }
  }

  lemma {:induction false} BadDigits(t: Text, radix: nat, acc: nat, i: nat)
    requires i < |t| && DigitOf(t[i], radix).None?
    ensures ReadDigits(t, radix, acc).None?
    decreases |t|
  {
    match DigitOf(t[0], radix)
    case None =>
    case Some(d) =>
      assert i > 0 && t[1..][i - 1] == t[i];
      BadDigits(t[1..], radix, acc * radix + d, i - 1);
      ReadOne(t, radix, acc, d);
  }

  /** A string that nothing ends goes on to the end of the text. */
  lemma {:induction false} Unterminated(s: Text, a: nat, acc: Text)
    requires a <= |s| && forall i :: a <= i < |s| ==> s[i] != QUOTE && s[i] != BACKSLASH
    ensures ParseChars(s, a, acc) == Parsed(acc + s[a..], |s|)
    decreases |s| - a
  {
    if a == |s| {
      assert acc + s[a..] == acc;
    } else {
      Unterminated(s, a + 1, acc + [s[a]]);
      assert acc + [s[a]] + s[a + 1..] == acc + s[a..];
    }
  }

  // ---------- broken values ----------

  /** What starts like one of the three words counts as that one, but only a whole word is
      consumed. */
  lemma HalfWord(s: Text, a: nat)
    requires a < |s|
    ensures s[a] == LOWER_T && !At(s, a, TRUE_WORD) ==> ParseValue(s, a) == Parsed(Bool(true), a)
    ensures s[a] == LOWER_F && !At(s, a, FALSE_WORD) ==> ParseValue(s, a) == Parsed(Bool(false), a)
    ensures s[a] == LOWER_N && !At(s, a, NULL_WORD) ==> ParseValue(s, a) == Parsed(Null, a)
  {
    if s[a] == LOWER_T || s[a] == LOWER_F || s[a] == LOWER_N {
      assert SkipWs(s, a) == a;
      NotThere(s, a, TRUE_WORD);
      NotThere(s, a, FALSE_WORD);
      NotThere(s, a, NULL_WORD);
    }
  }

  lemma NotThere(s: Text, a: nat, w: Text)
    requires a <= |s|
    ensures !At(s, a, w) ==> Expect(s, a, w) == a
  {
    if a + |w| <= |s| && s[a..a + |w|] == w {
      forall i | 0 <= i < |w| ensures s[a + i] == w[i] {
        assert s[a..a + |w|][i] == w[i];
      }
    }
  }

  /** A token of digits, points, signs and exponent letters is always taken whole; it is read as
      an integer if there are digits only, behind a sign perhaps. */
  lemma TokenWhole(s: Text, a: nat, b: nat)
    requires a < b <= |s| && EndsAt(s, b)
    requires var start := if IsSign(s[a]) then a + 1 else a; NumberUnits(s, start, b)
    ensures var start := if IsSign(s[a]) then a + 1 else a;
      ParseNumber(s, a) == Parsed(TokenValue(s[a..b], HasFloatPart(s, start, b)), b)
  {
    assert SkipWs(s, a) == a;
    ScanTo(s, if IsSign(s[a]) then a + 1 else a, b, false);
  }

  /** A plus sign before an integer changes nothing. */
  lemma PlusRead(s: Text, a: nat, b: nat, n: int)
    requires a < |s| && s[a] == PLUS && Digits(s, a + 1, b) && EndsAt(s, b) && n == DigitsValue(s[a + 1..b])
    ensures ParseNumber(s, a) == Parsed(Taken(Num(n)), b)
  {
    assert s[a..b] == [PLUS] + s[a + 1..b];
    assert NumberUnits(s, a + 1, b) && !HasFloatPart(s, a + 1, b) by {
      assert forall i :: a + 1 <= i < b ==> !IsFloatPart(s[i]);
    }
    TokenWhole(s, a, b);
    PlusToken(s[a + 1..b]);
  }

  lemma PlusToken(t: Text)
    requires t != [] && forall i :: 0 <= i < |t| ==> AsciiDigit(t[i])
    ensures TokenValue([PLUS] + t, false) == Taken(Num(DigitsValue(t)))
  {
    assert ([PLUS] + t)[1..] == t;
    DigitsRead(t);
  }

  // ---------- broken lists and objects ----------

  /** Where neither a comma nor the closing bracket follows an item, the list ends. */
  lemma ListCutShort(s: Text, o: nat, acc: seq<Json>)
    requires o < |s|
    requires var e := SkipWs(s, ParseValue(s, o).pos); e < |s| ==> s[e] != COMMA && s[e] != RBRACKET
    ensures ParseItems(s, o, acc) == Parsed(acc + [ParseValue(s, o).value], SkipWs(s, ParseValue(s, o).pos))
  {
  }

  /** Where neither a comma nor the closing brace follows a field, the object ends. */
  lemma ObjectCutShort(s: Text, o: nat, acc: seq<Field>)
    requires o < |s|
    requires var e := SkipWs(s, ParseField(s, o).pos); e < |s| ==> s[e] != COMMA && s[e] != RBRACE
    ensures var m := ParseField(s, o).value;
      ParseFields(s, o, acc) == Parsed(Put(acc, m.key, m.value), SkipWs(s, ParseField(s, o).pos))
  {
  }

  /** The colon between a name and its value may be missing. */
  lemma MissingColon(s: Text, a: nat, e: nat, f: nat, b: nat, key: Text, v: Json)
    requires Quoted(s, a, e, key) && Blank(s, e, f) && Value(s, f, b, v) && EndsAt(s, b) && s[f] != COLON
    ensures ParseField(s, a) == Parsed(Field(key, Taken(v)), b)
  {
    QuotedRead(s, a, e, key);
    ValueStarts(s, f, b, v);
    SkipBlank(s, e, f);
    assert SkipWs(s, a) == a && Blank(s, f, f);
    ValueRead(s, f, f, b, v);
  }

  /** A text decodes to fields only if it starts with an opening brace, white space apart. */
  lemma NotAnObject(s: Text)
    ensures var p := SkipWs(s, 0); p == |s| || s[p] != LBRACE ==> Decode(s) == []
  {
    var p := SkipWs(s, 0);
    assert SkipWs(s, p) == p;
    if p < |s| && s[p] != LBRACE {
      NoBrace(s, p);
    }
  }

  lemma NoBrace(s: Text, p: nat)
    requires p < |s| && SkipWs(s, p) == p && s[p] != LBRACE
    ensures !ParseValue(s, p).value.Obj?
  {
    assert ParseValue(s, p) == ParseAt(s, p);
    if s[p] == LBRACKET {
      assert ParseAt(s, p) == ParseArray(s, p);
    } else {
      assert !ParseNumber(s, p).value.Obj?;
    }
  }
}
