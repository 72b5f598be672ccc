/** The printer over its string builder and the parser over its cursor, step by step, each
    proved to compute the function that JsonText defines. */
module JsonMachine {
  import opened JsonText
  import T = JsonText

  class Printer {
    const host: Platform
    var sb: Text

    constructor (host: Platform)
      ensures sb == [] && this.host == host
    {
      this.host := host;
      sb := [];
    }

    method Append(t: Text)
      modifies this
      ensures sb == old(sb) + t
    {
      sb := sb + t;
    }

    method WriteValue(v: Json)
      modifies this
      ensures sb == old(sb) + ValueText(host, v)
      decreases v, 1
    {
      match v
      case Null => Append(NULL_WORD);
      case Bool(b) => Append(if b then TRUE_WORD else FALSE_WORD);
      case Num(n) => Append(NumberText(n));
      case Str(s) => WriteString(s);
      case Arr(items) => WriteArray(items);
      case Obj(fields) => WriteObject(fields);
      case Float(token) => WriteNumber(host(token));
    }

    method WriteNumber(d: Double)
      modifies this
      ensures sb == old(sb) + DoubleText(d)
    {
      match d
      case NotFinite => Append(NULL_WORD);
      case Whole(n) => Append(NumberText(n));
      case Proper(text) => Append(text);
    }

    /** What is written for one field, and for one item. */
    static ghost function FieldUnit(host: Platform, first: bool, f: Field): Text
    {
      (if first then [] else [COMMA]) + (QuotedText(f.key) + ([COLON] + ValueText(host, f.value)))
    }

    static ghost function ItemUnit(host: Platform, first: bool, v: Json): Text
    {
      (if first then [] else [COMMA]) + ValueText(host, v)
    }

    method WriteObject(fields: seq<Field>)
      modifies this
      ensures sb == old(sb) + ([LBRACE] + FieldsTail(host, fields))
      decreases fields, 0
    {
      ghost var start, units := sb, FieldUnits(host, fields);
      Append([LBRACE]);
      var first := true;
      var i := 0;
      while i < |fields|
        invariant i <= |fields| && first == (i == 0)
        invariant sb == start + [LBRACE] + Concat(units[..i])
      {
        ConcatPush(units, i);
        FieldUnitAt(host, fields, i);
        Regroup(start + [LBRACE], Concat(units[..i]), units[i]);
        WriteField(first, fields[i]);
        first := false;
        i := i + 1;
      }
      Append([RBRACE]);
      FieldsTailUnits(host, start, fields);
      assert units[..i] == units;
    }

    method WriteField(first: bool, f: Field)
      modifies this
      ensures sb == old(sb) + FieldUnit(host, first, f)
      decreases f, 2
    {
      ghost var start := sb;
      if !first {
        Append([COMMA]);
      }
      WriteString(f.key);
      Append([COLON]);
      WriteValue(f.value);
      RegroupFour(start, if first then [] else [COMMA], QuotedText(f.key), [COLON], ValueText(host, f.value));
    }

    method WriteArray(items: seq<Json>)
      modifies this
      ensures sb == old(sb) + ([LBRACKET] + ItemsTail(host, items))
      decreases items, 0
    {
      ghost var start, units := sb, ItemUnits(host, items);
      Append([LBRACKET]);
      var first := true;
      var i := 0;
      while i < |items|
        invariant i <= |items| && first == (i == 0)
        invariant sb == start + [LBRACKET] + Concat(units[..i])
      {
        ConcatPush(units, i);
        ItemUnitAt(host, items, i);
        Regroup(start + [LBRACKET], Concat(units[..i]), units[i]);
        WriteItem(first, items[i]);
        first := false;
        i := i + 1;
      }
      Append([RBRACKET]);
      ItemsTailUnits(host, start, items);
      assert units[..i] == units;
    }

    method WriteItem(first: bool, v: Json)
      modifies this
      ensures sb == old(sb) + ItemUnit(host, first, v)
      decreases v, 2
    {
      ghost var start := sb;
      if !first {
        Append([COMMA]);
      }
      WriteValue(v);
      Regroup(start, if first then [] else [COMMA], ValueText(host, v));
    }

    method WriteString(s: Text)
      modifies this
      ensures sb == old(sb) + QuotedText(s)
    {
      ghost var total := old(sb) + QuotedText(s);
      Append([QUOTE]);
      var i := 0;
      assert s[0..] == s;
      Regroup(old(sb), [QUOTE], StringTail(s));
      while i < |s|
        invariant i <= |s|
        invariant sb + StringTail(s[i..]) == total
      {
        StringTailStep(s, i);
        Regroup(sb, EscapeUnit(s[i]), StringTail(s[i + 1..]));
        Append(EscapeUnit(s[i]));
        i := i + 1;
      }
      Append([QUOTE]);
    }

    lemma StringTailStep(s: Text, i: nat)
      requires i < |s|
      ensures StringTail(s[i..]) == EscapeUnit(s[i]) + StringTail(s[i + 1..])
    {
      assert s[i..][1..] == s[i + 1..];
    }
  }

  // ---------- the printer's loops ----------

  ghost function FieldUnits(host: Platform, fields: seq<Field>): (u: seq<Text>)
    ensures |u| == |fields|
  {
    if fields == [] then []
    else FieldUnits(host, fields[..|fields| - 1]) + [Printer.FieldUnit(host, |fields| == 1, fields[|fields| - 1])]
  }

  lemma {:induction false} FieldUnitAt(host: Platform, fields: seq<Field>, i: nat)
    requires i < |fields|
    ensures FieldUnits(host, fields)[i] == Printer.FieldUnit(host, i == 0, fields[i])
  {
    if i >= |fields| - 1 {
    } else {
      FieldUnitAt(host, fields[..|fields| - 1], i);
    }
  }

  ghost function ItemUnits(host: Platform, items: seq<Json>): (u: seq<Text>)
    ensures |u| == |items|
  {
    if items == [] then []
    else ItemUnits(host, items[..|items| - 1]) + [Printer.ItemUnit(host, |items| == 1, items[|items| - 1])]
  }

  lemma {:induction false} ItemUnitAt(host: Platform, items: seq<Json>, i: nat)
    requires i < |items|
    ensures ItemUnits(host, items)[i] == Printer.ItemUnit(host, i == 0, items[i])
  {
    if i >= |items| - 1 {
    } else {
      ItemUnitAt(host, items[..|items| - 1], i);
    }
  }

  ghost function Concat(units: seq<Text>): Text {
    if units == [] then [] else Concat(units[..|units| - 1]) + units[|units| - 1]
  }

  lemma ConcatPush(units: seq<Text>, i: nat)
    requires i < |units|
    ensures Concat(units[..i + 1]) == Concat(units[..i]) + units[i]
  {
    assert units[..i + 1][..i] == units[..i];
  }

  lemma {:induction false} ConcatFront(units: seq<Text>, i: nat)
    requires i < |units|
    ensures Concat(units[i..]) == units[i] + Concat(units[i + 1..])
    decreases |units|
  {
    if i < |units| - 1 {
      var front, last := units[..|units| - 1], units[|units| - 1];
      ConcatFront(front, i);
      assert units[i..][..|units| - 1 - i] == front[i..] && units[i + 1..][..|units| - 2 - i] == front[i + 1..];
      Regroup(units[i], Concat(front[i + 1..]), last);
    } else {
      assert units[i..] == [units[i]] && units[i + 1..] == [];
    }
  }

  lemma Regroup(a: Text, b: Text, c: Text)
    ensures a + (b + c) == a + b + c && a + [] == a
  {
  }

  lemma RegroupFour(a: Text, b: Text, c: Text, d: Text, e: Text)
    ensures a + (b + (c + (d + e))) == a + b + c + d + e && a + [] == a
  {
  }

  lemma RegroupUnit(a: Text, b: Text, c: Text, d: Text, e: Text)
    ensures a + (b + (c + d)) + e == a + (b + (c + (d + e)))
  {
  }

  /** The units from the one numbered i on, and then an end. */
  ghost function Rest(units: seq<Text>, i: nat, end: Text): Text
    requires i <= |units|
    decreases |units| - i
  {
    if i == |units| then end else units[i] + Rest(units, i + 1, end)
  }

  lemma {:induction false} RestConcat(units: seq<Text>, i: nat, end: Text)
    requires i <= |units|
    ensures Rest(units, i, end) == Concat(units[i..]) + end
    decreases |units| - i
  {
    if i < |units| {
      RestConcat(units, i + 1, end);
      ConcatFront(units, i);
      Regroup(units[i], Concat(units[i + 1..]), end);
    } else {
      assert units[i..] == [];
    }
  }

  lemma Enclose(start: Text, open: Text, tail: Text, inner: Text, close: Text)
    requires tail == inner + close
    ensures start + (open + tail) == start + open + inner + close
  {
  }

  lemma FieldsTailStep(host: Platform, fields: seq<Field>, i: nat, next: Text)
    requires i < |fields|
    requires next == if i + 1 == |fields| then [RBRACE] else [COMMA] + FieldsTail(host, fields[i + 1..])
    ensures (if i == 0 then [] else [COMMA]) + FieldsTail(host, fields[i..]) ==
      Printer.FieldUnit(host, i == 0, fields[i]) + next
  {
    var f := fields[i];
    assert fields[i..][1..] == fields[i + 1..];
    assert FieldsTail(host, fields[i..]) == QuotedText(f.key) + ([COLON] + (ValueText(host, f.value) + next));
    RegroupUnit(if i == 0 then [] else [COMMA], QuotedText(f.key), [COLON], ValueText(host, f.value), next);
  }

  lemma {:induction false} FieldsRestIsTail(host: Platform, fields: seq<Field>, i: nat)
    requires i < |fields|
    ensures Rest(FieldUnits(host, fields), i, [RBRACE]) ==
      (if i == 0 then [] else [COMMA]) + FieldsTail(host, fields[i..])
    decreases |fields| - i
  {
    if i + 1 >= |fields| {
    } else {
      FieldsRestIsTail(host, fields, i + 1);
    }
    FieldUnitAt(host, fields, i);
    FieldsTailStep(host, fields, i, Rest(FieldUnits(host, fields), i + 1, [RBRACE]));
  }

  lemma FieldsTailUnits(host: Platform, start: Text, fields: seq<Field>)
    ensures start + ([LBRACE] + FieldsTail(host, fields)) ==
      start + [LBRACE] + Concat(FieldUnits(host, fields)) + [RBRACE]
  {
    if fields != [] {
      FieldsRestIsTail(host, fields, 0);
      assert fields[0..] == fields;
    }
    RestConcat(FieldUnits(host, fields), 0, [RBRACE]);
    assert FieldUnits(host, fields)[0..] == FieldUnits(host, fields);
    Enclose(start, [LBRACE], FieldsTail(host, fields), Concat(FieldUnits(host, fields)), [RBRACE]);
  }

  lemma ItemsTailStep(host: Platform, items: seq<Json>, i: nat, next: Text)
    requires i < |items|
    requires next == if i + 1 == |items| then [RBRACKET] else [COMMA] + ItemsTail(host, items[i + 1..])
    ensures (if i == 0 then [] else [COMMA]) + ItemsTail(host, items[i..]) ==
      Printer.ItemUnit(host, i == 0, items[i]) + next
  {
    assert items[i..][1..] == items[i + 1..];
    assert ItemsTail(host, items[i..]) == ValueText(host, items[i]) + next;
    Regroup(if i == 0 then [] else [COMMA], ValueText(host, items[i]), next);
  }

  lemma {:induction false} ItemsRestIsTail(host: Platform, items: seq<Json>, i: nat)
    requires i < |items|
    ensures Rest(ItemUnits(host, items), i, [RBRACKET]) ==
      (if i == 0 then [] else [COMMA]) + ItemsTail(host, items[i..])
    decreases |items| - i
  {
    if i + 1 >= |items| {
    } else {
      ItemsRestIsTail(host, items, i + 1);
    }
    ItemUnitAt(host, items, i);
    ItemsTailStep(host, items, i, Rest(ItemUnits(host, items), i + 1, [RBRACKET]));
  }

  lemma ItemsTailUnits(host: Platform, start: Text, items: seq<Json>)
    ensures start + ([LBRACKET] + ItemsTail(host, items)) ==
      start + [LBRACKET] + Concat(ItemUnits(host, items)) + [RBRACKET]
  {
    if items != [] {
      ItemsRestIsTail(host, items, 0);
      assert items[0..] == items;
    }
    RestConcat(ItemUnits(host, items), 0, [RBRACKET]);
    assert ItemUnits(host, items)[0..] == ItemUnits(host, items);
    Enclose(start, [LBRACKET], ItemsTail(host, items), Concat(ItemUnits(host, items)), [RBRACKET]);
  }

  /** encode */
  method Encode(host: Platform, v: Json) returns (text: Text)
    ensures text == T.Encode(host, v)
  {
    var p := new Printer(host);
    p.WriteValue(v);
    text := p.sb;
  }

  class Parser {
    const s: Text
    var pos: nat

    ghost predicate Valid()
      reads this
    {
      pos <= |s|
    }

    constructor (s: Text)
      ensures this.s == s && pos == 0 && Valid()
    {
      this.s := s;
      pos := 0;
    }

    method SkipWs()
      requires Valid()
      modifies this
      ensures Valid() && pos == T.SkipWs(s, old(pos))
    {
      while pos < |s| && IsWhitespace(s[pos])
        invariant Valid() && T.SkipWs(s, pos) == T.SkipWs(s, old(pos))
      {
        pos := pos + 1;
      }
    }

    method ParseValue() returns (v: Json)
      requires Valid()
      modifies this
      ensures Valid() && Parsed(v, pos) == T.ParseValue(s, old(pos))
      decreases |s| - pos, 3
    {
      SkipWs();
      if pos >= |s| {
        return Null;
      }
      assert Parsed(T.ParseAt(s, pos).value, T.ParseAt(s, pos).pos) == T.ParseValue(s, old(pos));
      v := ParseAt();
    }

    method ParseAt() returns (v: Json)
      requires Valid() && pos < |s|
      modifies this
      ensures Valid() && Parsed(v, pos) == T.ParseAt(s, old(pos))
      decreases |s| - pos, 2
    {
      if s[pos] == LBRACE {
        v := ParseObject();
      } else if s[pos] == LBRACKET {
        v := ParseArray();
      } else if s[pos] == QUOTE {
        var t := ParseString();
        v := Str(t);
      } else if s[pos] == LOWER_T {
        Expect(TRUE_WORD);
        v := Bool(true);
      } else if s[pos] == LOWER_F {
        Expect(FALSE_WORD);
        v := Bool(false);
      } else if s[pos] == LOWER_N {
        Expect(NULL_WORD);
        v := Null;
      } else {
        v := ParseNumber();
      }
    }

    method Expect(word: Text)
      requires Valid()
      modifies this
      ensures Valid() && pos == T.Expect(s, old(pos), word)
    {
      if pos + |word| <= |s| && s[pos..pos + |word|] == word {
        pos := pos + |word|;
      }
    }

    method ParseObject() returns (v: Json)
      requires Valid() && pos < |s|
      modifies this
      ensures Valid() && Parsed(v, pos) == T.ParseObject(s, old(pos))
      decreases |s| - pos, 1
    {
      pos := pos + 1;
      SkipWs();
      if pos < |s| && s[pos] == RBRACE {
        pos := pos + 1;
        return Obj([]);
      }
      var fields := ParseFields();
      v := Obj(fields);
    }

    method ParseFields() returns (out: seq<Field>)
      requires Valid()
      modifies this
      ensures Valid() && Parsed(out, pos) == T.ParseFields(s, old(pos), [])
      decreases |s| - pos, 5
    {
      out := [];
      ghost var goal := T.ParseFields(s, pos, []);
      while pos < |s|
        invariant Valid() && old(pos) <= pos && T.ParseFields(s, pos, out) == goal
        decreases |s| - pos
      {
        var f := ParseField();
        out := Put(out, f.key, f.value);
        SkipWs();
        if pos < |s| && s[pos] == COMMA {
          pos := pos + 1;
          continue;
        }
        if pos < |s| && s[pos] == RBRACE {
          pos := pos + 1;
        }
        return out;
      }
    }

    /** The first half of the loop body. */
    method ParseField() returns (f: Field)
      requires Valid()
      modifies this
      ensures Valid() && Parsed(f, pos) == T.ParseField(s, old(pos))
      decreases |s| - pos, 4
    {
      SkipWs();
      var key := ParseString();
      SkipWs();
      if pos < |s| && s[pos] == COLON {
        pos := pos + 1;
      }
      var value := ParseValue();
      f := Field(key, value);
    }

    method ParseArray() returns (v: Json)
      requires Valid() && pos < |s|
      modifies this
      ensures Valid() && Parsed(v, pos) == T.ParseArray(s, old(pos))
      decreases |s| - pos, 1
    {
      pos := pos + 1;
      SkipWs();
      if pos < |s| && s[pos] == RBRACKET {
        pos := pos + 1;
        return Arr([]);
      }
      var items := ParseItems();
      v := Arr(items);
    }

    method ParseItems() returns (out: seq<Json>)
      requires Valid()
      modifies this
      ensures Valid() && Parsed(out, pos) == T.ParseItems(s, old(pos), [])
      decreases |s| - pos, 5
    {
      out := [];
      ghost var goal := T.ParseItems(s, pos, []);
      while pos < |s|
        invariant Valid() && old(pos) <= pos && T.ParseItems(s, pos, out) == goal
        decreases |s| - pos
      {
        var value := ParseValue();
        out := out + [value];
        SkipWs();
        if pos < |s| && s[pos] == COMMA {
          pos := pos + 1;
          continue;
        }
        if pos < |s| && s[pos] == RBRACKET {
          pos := pos + 1;
        }
        return out;
      }
    }

    method ParseString() returns (t: Text)
      requires Valid()
      modifies this
      ensures Valid() && Parsed(t, pos) == T.ParseString(s, old(pos))
    {
      SkipWs();
      if pos >= |s| || s[pos] != QUOTE {
        return [];
      }
      pos := pos + 1;
      var sb: Text := [];
      ghost var goal := ParseChars(s, pos, []);
      while pos < |s|
        invariant Valid() && ParseChars(s, pos, sb) == goal
        decreases |s| - pos
      {
        var c := s[pos];
        if c == QUOTE {
          pos := pos + 1;
          return sb;
        }
        if c == BACKSLASH {
          pos := pos + 1;
          if pos >= |s| {
            return sb;
          }
          sb := ReadEscape(sb);
        } else {
          sb := sb + [c];
          pos := pos + 1;
        }
      }
      t := sb;
    }

    /** One escape, from just after its backslash. */
    method ReadEscape(before: Text) returns (sb: Text)
      requires Valid() && pos < |s|
      modifies this
      ensures Valid() && old(pos) < pos && ParseChars(s, pos, sb) == ParseEscape(s, old(pos), before)
    {
      sb := before;
      if s[pos] != LOWER_U {
        sb := sb + [Unescape(s[pos])];
      } else if pos + 4 < |s| {
        sb := sb + HexEscape(s[pos + 1..pos + 5]);
        pos := pos + 4;
      }
      pos := pos + 1;
    }

    method ParseNumber() returns (v: Json)
      requires Valid()
      modifies this
      ensures Valid() && Parsed(v, pos) == T.ParseNumber(s, old(pos))
    {
      SkipWs();
      var start := pos;
      if pos < |s| && (s[pos] == MINUS || s[pos] == PLUS) {
        pos := pos + 1;
      }
      var isFloat := false;
      ghost var goal := ScanNumber(s, pos, false);
      while pos < |s|
        invariant Valid() && start <= pos && ScanNumber(s, pos, isFloat) == goal
        decreases |s| - pos
      {
        var c := s[pos];
        if IsDigit(c) {
          pos := pos + 1;
        } else if IsFloatPart(c) {
          isFloat := true;
          pos := pos + 1;
        } else {
          break;
        }
      }
      v := TokenValue(s[start..pos], isFloat);
    }
  }

  /** decode */
  method Decode(text: Text) returns (fields: seq<Field>)
    ensures fields == T.Decode(text)
  {
    var p := new Parser(text);
    p.SkipWs();
    var v := p.ParseValue();
    fields := if v.Obj? then v.fields else [];
  }
}
