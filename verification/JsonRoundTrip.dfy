/** Reading back what was printed yields the value that was printed: the printer's text is a text
    of the grammar, and the parser reads those. */
module JsonRoundTrip {
  import opened Basics
  import opened JsonText
  import opened JsonGrammar

  // ---------- text in place ----------

  lemma AtSplit(s: Text, pos: nat, a: Text, b: Text)
    requires At(s, pos, a + b)
    ensures At(s, pos, a) && At(s, pos + |a|, b)
  {
    forall i | 0 <= i < |a| ensures s[pos + i] == a[i] {
      assert (a + b)[i] == a[i];
    }
    forall i | 0 <= i < |b| ensures s[pos + |a| + i] == b[i] {
      assert (a + b)[|a| + i] == b[i];
    }
  }

  lemma AtSlice(s: Text, pos: nat, w: Text)
    requires At(s, pos, w)
    ensures s[pos..pos + |w|] == w
  {
  }

  lemma AtUnit(s: Text, pos: nat, w: Text, i: nat)
    requires At(s, pos, w) && i < |w|
    ensures s[pos + i] == w[i]
  {
  }

  /** A text that is followed by a unit, which ends the whole or precedes a further text. */
  lemma AtThree(s: Text, pos: nat, whole: Text, a: Text, stop: Unit, b: Text)
    requires At(s, pos, whole) && whole == a + ([stop] + b)
    ensures At(s, pos, a) && pos + |a| < |s| && s[pos + |a|] == stop && At(s, pos + |a| + 1, b)
    ensures |whole| == |a| + 1 + |b|
  {
    AtSplit(s, pos, a, [stop] + b);
    AtSplit(s, pos + |a|, [stop], b);
    AtUnit(s, pos + |a|, [stop], 0);
  }

  // ---------- printed strings ----------

  lemma HexPrinted(d: nat)
    requires d < 16
    ensures HexValue(HexUnit(d)) == Some(d)
  {
  }

  /** A printed unit is a unit of the grammar. */
  lemma CharPrinted(s: Text, pos: nat, u: Unit)
    requires At(s, pos, EscapeUnit(u))
    ensures Char(s, pos, pos + |EscapeUnit(u)|, u)
  {
    var w := EscapeUnit(u);
    AtUnit(s, pos, w, 0);
    if |w| >= 2 {
      AtUnit(s, pos, w, 1);
    }
    if |w| == 6 {
      AtUnit(s, pos, w, 2);
      AtUnit(s, pos, w, 3);
      AtUnit(s, pos, w, 4);
      AtUnit(s, pos, w, 5);
      HexPrinted(0);
      HexPrinted(u / 16);
      HexPrinted(u % 16);
      assert HexFour(s, pos + 2, u);
    }
  }

  lemma {:induction false} CharsPrinted(s: Text, pos: nat, t: Text)
    requires At(s, pos, StringTail(t))
    ensures |StringTail(t)| > 0
    ensures var b := pos + |StringTail(t)| - 1; Chars(s, pos, b, t) && s[b] == QUOTE
    decreases |t|
  {
    if t == [] {
      AtUnit(s, pos, [QUOTE], 0);
    } else {
      var w := EscapeUnit(t[0]);
      AtSplit(s, pos, w, StringTail(t[1..]));
      CharPrinted(s, pos, t[0]);
      CharsPrinted(s, pos + |w|, t[1..]);
    }
  }

  lemma QuotedPrinted(s: Text, pos: nat, t: Text)
    requires At(s, pos, QuotedText(t))
    ensures Quoted(s, pos, pos + |QuotedText(t)|, t)
  {
    AtUnit(s, pos, QuotedText(t), 0);
    AtSplit(s, pos, [QUOTE], StringTail(t));
    CharsPrinted(s, pos + 1, t);
  }

  // ---------- printed numbers ----------

  /** Decimal printing: the digits, without leading zeros, of the number. */
  lemma {:induction false} DecimalPrinted(n: nat)
    ensures var t := DecimalText(n);
      && t != [] && (forall i :: 0 <= i < |t| ==> AsciiDigit(t[i])) && DigitsValue(t) == n
      && (t[0] == ZERO ==> n == 0 && |t| == 1)
  {
    if n >= 10 {
      DecimalPrinted(n / 10);
      var t := DecimalText(n);
      assert t[..|t| - 1] == DecimalText(n / 10) && t[0] == DecimalText(n / 10)[0];
    } else {
      assert DecimalText(n)[..0] == [];
    }
  }

  lemma DigitsPrinted(s: Text, pos: nat, n: nat)
    requires At(s, pos, DecimalText(n))
    ensures var b := pos + |DecimalText(n)|; Digits(s, pos, b) && DigitsValue(s[pos..b]) == n
  {
    DecimalPrinted(n);
    var t := DecimalText(n);
    AtSlice(s, pos, t);
    forall i | pos <= i < pos + |t| ensures AsciiDigit(s[i]) {
      assert s[i] == t[i - pos];
    }
    assert s[pos] == t[0];
  }

  lemma IntegerPrinted(s: Text, pos: nat, n: int)
    requires At(s, pos, NumberText(n))
    ensures Integer(s, pos, pos + |NumberText(n)|, n)
  {
    if n < 0 {
      AtSplit(s, pos, [MINUS], DecimalText(-n));
      AtUnit(s, pos, [MINUS], 0);
      DigitsPrinted(s, pos + 1, -n);
    } else {
      DigitsPrinted(s, pos, n);
      assert AsciiDigit(s[pos]);
    }
  }

  // ---------- printed doubles ----------

  /** What platforms have in common: integral doubles of that kind are below 10^15, others are
      printed with a fraction, and the text of a double is read as that double again. */
  ghost predicate Regular(host: Platform) {
    forall t {:trigger RegularDouble(host, host(t))} :: RegularDouble(host, host(t))
  }

  ghost predicate RegularDouble(host: Platform, d: Double) {
    match d
    case NotFinite => true
    case Whole(n) => -1_000_000_000_000_000 < n < 1_000_000_000_000_000
    case Proper(text) => Floating(text, 0, |text|) && host(text) == d
  }

  /** What a value becomes when it is printed and read: doubles that are not finite become
      nulls and integral ones integers. */
  function Normal(host: Platform, v: Json): Json {
    match v
    case Float(token) =>
      (match host(token) case NotFinite => Null case Whole(n) => Num(n) case Proper(text) => Float(text))
    case Arr(items) => Arr(NormalItems(host, items))
    case Obj(fields) => Obj(NormalFields(host, fields))
    case _ => v
  }

  function NormalItems(host: Platform, items: seq<Json>): (r: seq<Json>)
    ensures |r| == |items|
  {
    if items == [] then [] else [Normal(host, items[0])] + NormalItems(host, items[1..])
  }

  function NormalField(host: Platform, f: Field): Field {
    Field(f.key, Normal(host, f.value))
  }

  function NormalFields(host: Platform, fields: seq<Field>): (r: seq<Field>)
    ensures |r| == |fields|
  {
    if fields == [] then [] else [NormalField(host, fields[0])] + NormalFields(host, fields[1..])
  }

  lemma PartsMoved(t: Text, s: Text, pos: nat, i: nat, f: nat)
    requires At(s, pos, t) && Parts(t, 0, i, f, |t|)
    ensures Parts(s, pos, pos + i, pos + f, pos + |t|)
  {
    assert forall k :: 0 <= k < |t| ==> s[pos + k] == t[k];
    assert forall k :: pos <= k < pos + |t| ==> s[k] == t[k - pos];
  }

  lemma FloatPrinted(host: Platform, s: Text, pos: nat, token: Text)
    requires Regular(host) && At(s, pos, DoubleText(host(token)))
    ensures Value(s, pos, pos + |DoubleText(host(token))|, Normal(host, Float(token)))
  {
    assert RegularDouble(host, host(token));
    match host(token)
    case NotFinite =>
    case Whole(n) => IntegerPrinted(s, pos, n);
    case Proper(t) => ProperPrinted(s, pos, t);
  }

  lemma ProperPrinted(s: Text, pos: nat, t: Text)
    requires At(s, pos, t) && Floating(t, 0, |t|)
    ensures Value(s, pos, pos + |t|, Float(t))
  {
    var i, f :| Parts(t, 0, i, f, |t|);
    PartsMoved(t, s, pos, i, f);
    AtSlice(s, pos, t);
  }

  // ---------- printed values ----------

  /** The values that hold no others. */
  predicate IsLeaf(v: Json) {
    !v.Arr? && !v.Obj?
  }

  lemma LeafPrinted(host: Platform, s: Text, pos: nat, v: Json)
    requires Regular(host) && IsLeaf(v) && At(s, pos, ValueText(host, v))
    ensures Value(s, pos, pos + |ValueText(host, v)|, Normal(host, v))
  {
    match v
    case Null => WordPrinted(s, pos, v);
    case Bool(_) => WordPrinted(s, pos, v);
    case Num(n) => NumPrinted(s, pos, n);
    case Str(t) => StrPrinted(s, pos, t);
    case Float(token) => FloatPrinted(host, s, pos, token);
  }

  lemma NumPrinted(s: Text, pos: nat, n: int)
    requires At(s, pos, NumberText(n))
    ensures Value(s, pos, pos + |NumberText(n)|, Num(n))
  {
    IntegerPrinted(s, pos, n);
  }

  lemma StrPrinted(s: Text, pos: nat, t: Text)
    requires At(s, pos, QuotedText(t))
    ensures Value(s, pos, pos + |QuotedText(t)|, Str(t))
  {
    QuotedPrinted(s, pos, t);
  }

  lemma WordPrinted(s: Text, pos: nat, v: Json)
    requires v.Null? || v.Bool?
    requires var w := if v.Null? then NULL_WORD else if v.b then TRUE_WORD else FALSE_WORD; At(s, pos, w)
    ensures var w := if v.Null? then NULL_WORD else if v.b then TRUE_WORD else FALSE_WORD;
      Value(s, pos, pos + |w|, v)
  {
  }

  /** The text that is printed for a value denotes what the value normally becomes. */
  lemma {:induction false} ValuePrinted(host: Platform, s: Text, pos: nat, v: Json)
    requires Regular(host) && At(s, pos, ValueText(host, v))
    ensures Value(s, pos, pos + |ValueText(host, v)|, Normal(host, v))
    decreases v, 3
  {
    match v
    case Arr(items) => ArrayPrinted(host, s, pos, items);
    case Obj(fields) => ObjectPrinted(host, s, pos, fields);
    case _ => LeafPrinted(host, s, pos, v);
  }

  lemma ArrayMade(s: Text, pos: nat, b: nat, items: seq<Json>)
    requires pos < b <= |s| && s[pos] == LBRACKET
    requires if items == [] then Closes(s, pos + 1, b, RBRACKET) else Items(s, pos + 1, b, items)
    ensures Value(s, pos, b, Arr(items))
  {
    assert Blank(s, pos + 1, pos + 1);
    assert Array(s, pos + 1, b, items);
  }

  lemma {:induction false} ArrayPrinted(host: Platform, s: Text, pos: nat, items: seq<Json>)
    requires Regular(host) && At(s, pos, [LBRACKET] + ItemsTail(host, items))
    ensures Value(s, pos, pos + 1 + |ItemsTail(host, items)|, Arr(NormalItems(host, items)))
    decreases items, 2
  {
    AtSplit(s, pos, [LBRACKET], ItemsTail(host, items));
    AtUnit(s, pos, [LBRACKET], 0);
    if items == [] {
      AtUnit(s, pos + 1, [RBRACKET], 0);
    } else {
      ItemsPrinted(host, s, pos + 1, items);
    }
    ArrayMade(s, pos, pos + 1 + |ItemsTail(host, items)|, NormalItems(host, items));
  }

  /** Where the pieces of a non-empty list of items stand in the text. */
  lemma ItemsPlaced(host: Platform, s: Text, pos: nat, items: seq<Json>)
    requires items != []
    requires At(s, pos, ItemsTail(host, items))
    ensures var e := pos + |ValueText(host, items[0])|;
      && At(s, pos, ValueText(host, items[0])) && e < |s|
      && (|items| == 1 ==> s[e] == RBRACKET && |ItemsTail(host, items)| == e + 1 - pos)
      && (|items| > 1 ==> && s[e] == COMMA && At(s, e + 1, ItemsTail(host, items[1..]))
                          && |ItemsTail(host, items)| == e + 1 - pos + |ItemsTail(host, items[1..])|)
  {
    var first := ValueText(host, items[0]);
    if |items| == 1 {
      assert [RBRACKET] == [RBRACKET] + [];
      AtThree(s, pos, ItemsTail(host, items), first, RBRACKET, []);
    } else {
      AtThree(s, pos, ItemsTail(host, items), first, COMMA, ItemsTail(host, items[1..]));
    }
  }

  lemma ItemsMade(s: Text, pos: nat, e: nat, b: nat, v: Json, rest: seq<Json>)
    requires pos < e < |s| && Value(s, pos, e, v)
    requires if rest == [] then s[e] == RBRACKET && b == e + 1 else s[e] == COMMA && Items(s, e + 1, b, rest)
    ensures Items(s, pos, b, [v] + rest)
  {
    assert Blank(s, e, e) && Blank(s, e + 1, e + 1);
    assert rest != [] ==> MoreItems(s, e, b, rest);
    assert ItemsEnd(s, e, b, rest);
    assert ([v] + rest)[1..] == rest;
  }

  lemma {:induction false} ItemsPrinted(host: Platform, s: Text, pos: nat, items: seq<Json>)
    requires Regular(host) && items != [] && At(s, pos, ItemsTail(host, items))
    ensures Items(s, pos, pos + |ItemsTail(host, items)|, NormalItems(host, items))
    decreases items, 0
  {
    var e := pos + |ValueText(host, items[0])|;
    var b := pos + |ItemsTail(host, items)|;
    ItemsPlaced(host, s, pos, items);
    ValuePrinted(host, s, pos, items[0]);
    ValueStarts(s, pos, e, Normal(host, items[0]));
    var rest := NormalItems(host, items[1..]);
    if |items| > 1 {
      ItemsPrinted(host, s, e + 1, items[1..]);
      assert Items(s, e + 1, b, rest);
    } else {
      assert rest == [];
    }
    ItemsMade(s, pos, e, b, Normal(host, items[0]), rest);
    assert NormalItems(host, items) == [Normal(host, items[0])] + rest;
  }

  lemma {:induction false} ObjectPrinted(host: Platform, s: Text, pos: nat, fields: seq<Field>)
    requires Regular(host) && At(s, pos, [LBRACE] + FieldsTail(host, fields))
    ensures Value(s, pos, pos + 1 + |FieldsTail(host, fields)|, Obj(NormalFields(host, fields)))
    decreases fields, 2
  {
    AtSplit(s, pos, [LBRACE], FieldsTail(host, fields));
    AtUnit(s, pos, [LBRACE], 0);
    var b := pos + 1 + |FieldsTail(host, fields)|;
    assert Blank(s, pos + 1, pos + 1);
    if fields == [] {
      AtUnit(s, pos + 1, [RBRACE], 0);
      assert Closes(s, pos + 1, b, RBRACE);
    } else {
      MembersPrinted(host, s, pos + 1, fields);
    }
    assert Object(s, pos + 1, b, NormalFields(host, fields));
  }

  /** Where the pieces of a non-empty list of fields stand in the text. */
  lemma FieldsPlaced(host: Platform, s: Text, pos: nat, fields: seq<Field>)
    requires fields != []
    requires At(s, pos, FieldsTail(host, fields))
    ensures var p := pos + |QuotedText(fields[0].key)|;
      && At(s, pos, QuotedText(fields[0].key)) && p < |s| && s[p] == COLON
      && At(s, p + 1, FieldValueTail(host, fields))
      && |FieldsTail(host, fields)| == p + 1 - pos + |FieldValueTail(host, fields)|
  {
    AtThree(s, pos, FieldsTail(host, fields), QuotedText(fields[0].key), COLON, FieldValueTail(host, fields));
  }

  lemma FieldValuePlaced(host: Platform, s: Text, pos: nat, fields: seq<Field>) returns (e: nat)
    requires fields != [] && At(s, pos, FieldValueTail(host, fields))
    ensures At(s, pos, ValueText(host, fields[0].value)) && e == pos + |ValueText(host, fields[0].value)| < |s|
    ensures |fields| == 1 ==> s[e] == RBRACE && |FieldValueTail(host, fields)| == e + 1 - pos
    ensures |fields| > 1 ==> && s[e] == COMMA && At(s, e + 1, FieldsTail(host, fields[1..]))
                             && |FieldValueTail(host, fields)| == e + 1 - pos + |FieldsTail(host, fields[1..])|
  {
    var first := ValueText(host, fields[0].value);
    e := pos + |first|;
    if |fields| == 1 {
      assert [RBRACE] == [RBRACE] + [];
      AtThree(s, pos, FieldValueTail(host, fields), first, RBRACE, []);
    } else {
      AtThree(s, pos, FieldValueTail(host, fields), first, COMMA, FieldsTail(host, fields[1..]));
    }
  }

  /** Where the first of some fields has its colon and where it ends. */
  lemma MemberPlaced(host: Platform, s: Text, pos: nat, fields: seq<Field>) returns (p: nat, e: nat)
    requires fields != [] && At(s, pos, FieldsTail(host, fields))
    ensures At(s, pos, QuotedText(fields[0].key)) && p == pos + |QuotedText(fields[0].key)| < |s| && s[p] == COLON
    ensures At(s, p + 1, ValueText(host, fields[0].value)) && e == p + 1 + |ValueText(host, fields[0].value)| < |s|
    ensures |fields| == 1 ==> s[e] == RBRACE && |FieldsTail(host, fields)| == e + 1 - pos
    ensures |fields| > 1 ==> && s[e] == COMMA && At(s, e + 1, FieldsTail(host, fields[1..]))
                             && |FieldsTail(host, fields)| == e + 1 - pos + |FieldsTail(host, fields[1..])|
  {
    FieldsPlaced(host, s, pos, fields);
    p := pos + |QuotedText(fields[0].key)|;
    e := FieldValuePlaced(host, s, p + 1, fields);
  }

  lemma {:induction false} MemberPrinted(host: Platform, s: Text, pos: nat, p: nat, e: nat, m: Field)
    requires Regular(host)
    requires At(s, pos, QuotedText(m.key)) && p == pos + |QuotedText(m.key)| < |s| && s[p] == COLON
    requires At(s, p + 1, ValueText(host, m.value)) && e == p + 1 + |ValueText(host, m.value)|
    ensures Member(s, pos, e, NormalField(host, m)) && pos < e
    decreases m, 4
  {
    QuotedPrinted(s, pos, m.key);
    ValuePrinted(host, s, p + 1, m.value);
    MemberMade(s, pos, p, e, NormalField(host, m));
  }

  lemma MemberMade(s: Text, pos: nat, p: nat, e: nat, m: Field)
    requires Quoted(s, pos, p, m.key) && p < |s| && s[p] == COLON && Value(s, p + 1, e, m.value)
    ensures Member(s, pos, e, m)
  {
    assert Blank(s, p, p) && Blank(s, p + 1, p + 1);
    assert MemberValue(s, p, e, m);
  }

  lemma {:induction false} MembersPrinted(host: Platform, s: Text, pos: nat, fields: seq<Field>)
    requires Regular(host) && fields != [] && At(s, pos, FieldsTail(host, fields))
    ensures Members(s, pos, pos + |FieldsTail(host, fields)|, NormalFields(host, fields))
    decreases fields, 1
  {
    var p, e := MemberPlaced(host, s, pos, fields);
    var b := pos + |FieldsTail(host, fields)|;
    MemberPrinted(host, s, pos, p, e, fields[0]);
    var rest := NormalFields(host, fields[1..]);
    if |fields| > 1 {
      MembersPrinted(host, s, e + 1, fields[1..]);
      assert Members(s, e + 1, b, rest);
    } else {
      assert rest == [];
    }
    MembersMade(s, pos, e, b, NormalField(host, fields[0]), rest);
    assert NormalFields(host, fields) == [NormalField(host, fields[0])] + rest;
  }

  lemma MembersMade(s: Text, pos: nat, e: nat, b: nat, m: Field, rest: seq<Field>)
    requires pos < e < |s| && Member(s, pos, e, m)
    requires if rest == [] then s[e] == RBRACE && b == e + 1 else s[e] == COMMA && Members(s, e + 1, b, rest)
    ensures Members(s, pos, b, [m] + rest)
  {
    assert Blank(s, e, e) && Blank(s, e + 1, e + 1);
    assert rest != [] ==> MoreMembers(s, e, b, rest);
    assert MembersEnd(s, e, b, rest);
    assert ([m] + rest)[1..] == rest;
  }

  /** What the printer makes of an object is a text of the grammar, and denotes what the object
      normally becomes. */
  lemma EncodeDenotes(host: Platform, fields: seq<Field>)
    requires Regular(host)
    ensures Denotes(Encode(host, Obj(fields)), Normal(host, Obj(fields)))
  {
    var t := Encode(host, Obj(fields));
    ValuePrinted(host, t, 0, Obj(fields));
    assert Blank(t, 0, 0) && Blank(t, |t|, |t|);
  }

  // ---------- the round trip ----------

  lemma NormalFieldsAt(host: Platform, fields: seq<Field>, i: nat)
    requires i < |fields|
    ensures NormalFields(host, fields)[i] == NormalField(host, fields[i])
  {
    if i == 0 {
    } else {
      NormalFieldsAt(host, fields[1..], i - 1);
    }
  }

  lemma {:induction false} NormalSane(host: Platform, v: Json)
    requires Regular(host) && Sane(v)
    ensures Sane(Normal(host, v)) && Normal(host, Normal(host, v)) == Normal(host, v)
    ensures NoFloat(v) ==> Normal(host, v) == v
    decreases v, 1
  {
    match v
    case Float(token) => assert RegularDouble(host, host(token));
    case Arr(items) => ItemsNormalSane(host, items);
    case Obj(fields) =>
      FieldsNormalSane(host, fields);
      forall i | 0 <= i < |fields| ensures NormalFields(host, fields)[i].key == fields[i].key {
        NormalFieldsAt(host, fields, i);
      }
    case _ =>
  }

  lemma {:induction false} ItemsNormalSane(host: Platform, items: seq<Json>)
    requires Regular(host) && forall w <- items :: Sane(w)
    ensures var r := NormalItems(host, items); (forall w <- r :: Sane(w)) && NormalItems(host, r) == r
    ensures (forall w <- items :: NoFloat(w)) ==> NormalItems(host, items) == items
    decreases items, 0
  {
    if items == [] {
    } else {
      NormalSane(host, items[0]);
      ItemsNormalSane(host, items[1..]);
      assert NormalItems(host, items)[1..] == NormalItems(host, items[1..]);
    }
  }

  lemma {:induction false} FieldsNormalSane(host: Platform, fields: seq<Field>)
    requires Regular(host) && forall f <- fields :: Sane(f.value)
    ensures var r := NormalFields(host, fields); (forall f <- r :: Sane(f.value)) && NormalFields(host, r) == r
    ensures (forall f <- fields :: NoFloat(f.value)) ==> NormalFields(host, fields) == fields
    decreases fields, 0
  {
    if fields == [] {
    } else {
      NormalSane(host, fields[0].value);
      FieldsNormalSane(host, fields[1..]);
      assert NormalFields(host, fields)[1..] == NormalFields(host, fields[1..]);
    }
  }

  /** decode(encode(v)) is what v normally becomes, for every object of nested objects with
      distinct keys, lists, arbitrary 16-bit strings, 64-bit integers, doubles, booleans and
      nulls, whatever text follows; without doubles that is v itself. */
  lemma RoundTrip(host: Platform, fields: seq<Field>, tail: Text)
    requires Regular(host) && Sane(Obj(fields))
    ensures Decode(Encode(host, Obj(fields)) + tail) == NormalFields(host, fields)
    ensures NoFloat(Obj(fields)) ==> NormalFields(host, fields) == fields
  {
    var t := Encode(host, Obj(fields));
    var s := t + tail;
    assert At(s, 0, t) && Blank(s, 0, 0);
    ValuePrinted(host, s, 0, Obj(fields));
    NormalSane(host, Obj(fields));
    DecodeAt(s, 0, |t|, NormalFields(host, fields));
  }

  // ---------- what the parser makes of any text ----------

  lemma {:induction false} PutKeepsKeys(fields: seq<Field>, key: Text, value: Json)
    requires KeysDistinct(fields)
    ensures KeysDistinct(Put(fields, key, value))
    ensures forall f <- Put(fields, key, value) :: f.key == key || f in fields
    ensures forall f <- Put(fields, key, value) :: f in fields || f.value == value
  {
    if fields == [] {
    } else {
      PutKeepsKeys(fields[1..], key, value);
      if fields[0].key != key {
        var rest := Put(fields[1..], key, value);
        forall j | 0 <= j < |rest| ensures rest[j].key != fields[0].key {
          assert rest[j] in rest;
          if rest[j].key != key {
            var i :| 0 <= i < |fields[1..]| && fields[1..][i] == rest[j];
            assert fields[i + 1] == rest[j];
          }
        }
      }
    }
  }

  lemma {:induction false} ValueSane(s: Text, pos: nat)
    requires pos <= |s|
    ensures Sane(ParseValue(s, pos).value)
    decreases |s| - pos, 3
  {
    var p := SkipWs(s, pos);
    if p < |s| {
      if s[p] == LBRACE {
        FieldsSane(s, SkipWs(s, p + 1), []);
        assert Sane(ParseObject(s, p).value);
      } else if s[p] == LBRACKET {
        ItemsSane(s, SkipWs(s, p + 1), []);
        assert Sane(ParseArray(s, p).value);
      }
      assert Sane(ParseAt(s, p).value);
    }
  }

  lemma PutSane(acc: seq<Field>, f: Field)
    requires Sane(Obj(acc)) && Sane(f.value)
    ensures Sane(Obj(Put(acc, f.key, f.value)))
  {
    PutKeepsKeys(acc, f.key, f.value);
  }

  lemma {:induction false} FieldsSane(s: Text, pos: nat, acc: seq<Field>)
    requires pos <= |s| && Sane(Obj(acc))
    ensures Sane(Obj(ParseFields(s, pos, acc).value))
    decreases |s| - pos, 5
  {
    if pos >= |s| {
    } else {
      var f := ParseField(s, pos);
      FieldSane(s, pos);
      PutSane(acc, f.value);
      var e := SkipWs(s, f.pos);
      if e < |s| && s[e] == COMMA {
        FieldsSane(s, e + 1, Put(acc, f.value.key, f.value.value));
      }
    }
  }

  lemma {:induction false} FieldSane(s: Text, pos: nat)
    requires pos <= |s|
    ensures Sane(ParseField(s, pos).value.value)
    decreases |s| - pos, 4
  {
    var key := ParseString(s, SkipWs(s, pos));
    var p := SkipWs(s, key.pos);
    ValueSane(s, if p < |s| && s[p] == COLON then p + 1 else p);
  }

  lemma {:induction false} ItemsSane(s: Text, pos: nat, acc: seq<Json>)
    requires pos <= |s| && Sane(Arr(acc))
    ensures Sane(Arr(ParseItems(s, pos, acc).value))
    decreases |s| - pos, 4
  {
    if pos >= |s| {
    } else {
      ValueSane(s, pos);
      var value := ParseValue(s, pos);
      var e := SkipWs(s, value.pos);
      if e < |s| && s[e] == COMMA {
        ItemsSane(s, e + 1, acc + [value.value]);
      }
    }
  }

  /** On every text at all, well-formed or not: the decoded value has distinct keys and 64-bit
      integers throughout; printing it and decoding again gives what it normally becomes, and
      doing so once more changes nothing. */
  lemma DecodeStable(host: Platform, text: Text)
    requires Regular(host)
    ensures Sane(Obj(Decode(text)))
    ensures var again := Decode(Encode(host, Obj(Decode(text))));
      && again == NormalFields(host, Decode(text)) && Decode(Encode(host, Obj(again))) == again
      && (NoFloat(Obj(Decode(text))) ==> again == Decode(text))
  {
    ValueSane(text, SkipWs(text, 0));
    var fields := Decode(text);
    NormalSane(host, Obj(fields));
    RoundTrip(host, fields, []);
    RoundTrip(host, NormalFields(host, fields), []);
    assert forall t: Text :: t + [] == t;
  }
}
