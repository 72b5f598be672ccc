/** Exactly which texts are read as integers and as addresses, and as which. */
module AddressReading {
  import opened Basics
  import opened Addresses

  // ---------- stripping ----------

  predicate AllSpaces(s: string) {
    forall c :: c in s ==> IsSpace(c)
  }

  lemma {:induction false} LeftSpaces(s: string) returns (a: string)
    ensures s == a + StripLeft(s) && AllSpaces(a) && (StripLeft(s) != "" ==> !IsSpace(StripLeft(s)[0]))
  {
    if s != "" && IsSpace(s[0]) {
      a := LeftSpaces(s[1..]);
      a := [s[0]] + a;
    } else {
      a := "";
    }
  }

  lemma {:induction false} RightSpaces(s: string) returns (b: string)
    ensures s == StripRight(s) + b && AllSpaces(b)
    ensures StripRight(s) != "" ==> !IsSpace(StripRight(s)[|StripRight(s)| - 1]) && StripRight(s)[0] == s[0]
  {
    if s != "" && IsSpace(s[|s| - 1]) {
      b := RightSpaces(s[..|s| - 1]);
      b := b + [s[|s| - 1]];
    } else {
      b := "";
    }
  }

  /** Stripping takes the spaces off both ends, and nothing else. */
  lemma StripExact(s: string) returns (a: string, b: string)
    ensures s == a + Strip(s) + b && AllSpaces(a) && AllSpaces(b)
    ensures Strip(s) != "" ==> !IsSpace(Strip(s)[0]) && !IsSpace(Strip(s)[|Strip(s)| - 1])
  {
    a := LeftSpaces(s);
    b := RightSpaces(StripLeft(s));
  }

  // ---------- integers ----------

  predicate DigitOrBar(c: char) {
    IsDigit(c) || c == '_'
  }

  /** Digits with single underscores between them. */
  predicate Numeral(s: string) {
    && s != "" && IsDigit(s[0]) && IsDigit(s[|s| - 1]) && (forall i :: 0 <= i < |s| ==> DigitOrBar(s[i]))
    && forall i :: 0 <= i < |s| - 1 ==> s[i] != '_' || s[i + 1] != '_'
  }

  /** Without its last digit, and without the underscore before that, if there is one. */
  function Front(s: string): string
    requires |s| > 1
  {
    if s[|s| - 2] == '_' then s[..|s| - 2] else s[..|s| - 1]
  }

  lemma NumeralFront(s: string)
    requires |s| > 1
    ensures Numeral(s) <==> IsDigit(s[|s| - 1]) && Numeral(Front(s))
  {
    var f := Front(s);
    assert forall i :: 0 <= i < |f| ==> f[i] == s[i];
  }

  /** The digits of a numeral. */
  function Digits(s: string): string {
    if s == "" then "" else if s[0] == '_' then Digits(s[1..]) else [s[0]] + Digits(s[1..])
  }

  function Tens(n: nat): nat { if n == 0 then 1 else 10 * Tens(n - 1) }

  /** The sum of the digits' values, each times its power of ten. */
  function Positional(d: string): int
    requires forall i :: 0 <= i < |d| ==> IsDigit(d[i])
  {
    if d == "" then 0
    else
      assert IsDigit(d[0]) && forall i :: 0 <= i < |d| - 1 ==> d[1..][i] == d[i + 1];
      (d[0] - '0') as int * Tens(|d| - 1) + Positional(d[1..])
  }

  lemma {:induction false} DigitsAre(s: string)
    requires forall i :: 0 <= i < |s| ==> DigitOrBar(s[i])
    ensures forall i :: 0 <= i < |Digits(s)| ==> IsDigit(Digits(s)[i])
  {
    if s == "" {
    } else {
      DigitsAre(s[1..]);
    }
  }

  lemma {:induction false} DigitsAppend(s: string, t: string)
    ensures Digits(s + t) == Digits(s) + Digits(t)
  {
    if s == "" {
      assert s + t == t;
    } else {
      assert (s + t)[1..] == s[1..] + t;
      DigitsAppend(s[1..], t);
    }
  }

  lemma {:induction false} PositionalAppend(d: string, c: char)
    requires (forall i :: 0 <= i < |d| ==> IsDigit(d[i])) && IsDigit(c)
    ensures Positional(d + [c]) == 10 * Positional(d) + (c - '0') as int
  {
    if d == "" {
      assert d + [c] == [c] && [c][1..] == "" && Tens(0) == 1;
    } else {
      assert (d + [c])[1..] == d[1..] + [c];
      PositionalAppend(d[1..], c);
    }
  }

  lemma LastDigits(s: string, f: string, last: string, c: char)
    requires s == f + last && Digits(last) == [c]
    ensures Digits(s) == Digits(f) + [c]
  {
    DigitsAppend(f, last);
  }

  lemma FrontDigits(s: string)
    requires |s| > 1 && IsDigit(s[|s| - 1])
    ensures Digits(s) == Digits(Front(s)) + [s[|s| - 1]]
  {
    var f, c := Front(s), s[|s| - 1];
    OneDigit(c);
    var last := if s[|s| - 2] == '_' then ['_'] + [c] else [c];
    assert |f| + |last| == |s| && f == s[..|f|];
    assert s[|f|..] == last;
    assert s == f + last;
    LastDigits(s, f, last, c);
  }

  lemma OneDigit(c: char)
    requires IsDigit(c)
    ensures Digits([c]) == [c] && Digits(['_'] + [c]) == [c]
  {
    assert [c][1..] == "" && (['_'] + [c])[1..] == [c];
  }

  /** A text is read as a number exactly if it is made of digits, with single underscores between
      them at most, and then as what its digits say. */
  lemma {:induction false} NumeralExact(s: string)
    ensures ReadDigits(s).Some? <==> Numeral(s)
    ensures Numeral(s) ==>
      && (forall i :: 0 <= i < |Digits(s)| ==> IsDigit(Digits(s)[i]))
      && ReadDigits(s) == Some(Positional(Digits(s)))
    decreases |s|
  {
    if s == "" || !IsDigit(s[|s| - 1]) {
    } else if |s| == 1 {
      assert s[1..] == "" && Digits(s) == s && Tens(0) == 1;
    } else {
      NumeralExact(Front(s));
      NumeralFront(s);
      if Numeral(s) {
        DigitsAre(s);
        FrontDigits(s);
        PositionalAppend(Digits(Front(s)), s[|s| - 1]);
      }
    }
  }

  /** A sign may come before a number, and spaces around it. */
  lemma SignsRead(s: string, d: string)
    requires Numeral(d)
    ensures Strip(s) == d ==> ReadInt(s) == ReadDigits(d)
    ensures Strip(s) == "+" + d ==> ReadInt(s) == ReadDigits(d)
    ensures Strip(s) == "-" + d ==> ReadInt(s).Some? && ReadDigits(d) == Some(0 - ReadInt(s).value)
  {
    NumeralExact(d);
    assert ("+" + d)[1..] == d && ("-" + d)[1..] == d;
  }

  /** Whatever else a text may be, it is not read as an integer. */
  lemma OnlyNumerals(s: string)
    ensures ReadInt(s).Some? ==> var t := Strip(s);
      Numeral(t) || (t != "" && t[0] in {'+', '-'} && Numeral(t[1..]))
  {
    var t := Strip(s);
    NumeralExact(t);
    if t != "" {
      NumeralExact(t[1..]);
    }
  }

  // ---------- addresses ----------

  /** A text that splits into a host and a port: in brackets, or around its only colon. */
  predicate Splits(t: string, ip: string, p: string) {
    || (t == "[" + ip + "]:" + p && ']' !in ip)
    || (t == ip + ":" + p && ':' !in ip && ':' !in p && (ip == "" || ip[0] != '['))
  }

  lemma BracketsRead(s: string, ip: string, p: string)
    requires Strip(s) == "[" + ip + "]:" + p && ']' !in ip
    ensures ParseHostPort(s) == WithPort(ip, p)
  {
    var t := Strip(s);
    assert t[|ip| + 1] == ']' && forall j :: 0 <= j < |ip| ==> t[j + 1] == ip[j];
    FirstIndex(t, ']', |ip| + 1);
    assert t[1..|ip| + 1] == ip && t[|ip| + 3..] == p;
  }

  lemma ColonRead(s: string, ip: string, p: string)
    requires Strip(s) == ip + ":" + p && ':' !in ip && ':' !in p && (ip == "" || ip[0] != '[')
    ensures ParseHostPort(s) == WithPort(ip, p)
  {
    var t := Strip(s);
    assert t[|ip|] == ':' && t[..|ip|] == ip && t[|ip| + 1..] == p;
    assert forall k :: |ip| < k < |t| ==> t[k] == p[k - |ip| - 1];
    LastIndex(t, ':', |ip|);
    assert t[0] == if ip == "" then ':' else ip[0];
  }

  lemma SplitRead(s: string, ip: string, p: string)
    requires Splits(Strip(s), ip, p)
    ensures ParseHostPort(s) == WithPort(ip, p)
  {
    if Strip(s) == "[" + ip + "]:" + p && ']' !in ip {
      BracketsRead(s, ip, p);
    } else {
      ColonRead(s, ip, p);
    }
  }

  lemma BracketsSplit(t: string, close: nat)
    requires t != "" && t[0] == '[' && close == IndexOf(t, ']') && close + 1 < |t| && t[close + 1] == ':'
    ensures close > 0 && Splits(t, t[1..close], t[close + 2..])
  {
    CutAtBracket(t, close);
    Before(t, ']', close);
  }

  lemma CutAtBracket(t: string, close: nat)
    requires 0 < close && close + 1 < |t| && t[0] == '[' && t[close] == ']' && t[close + 1] == ':'
    ensures t == "[" + t[1..close] + "]:" + t[close + 2..]
  {
    Pieces(t, 1, close, close + 2);
    assert t[..1] == "[";
    assert t[close..close + 2] == "]:";
  }

  lemma Before(t: string, c: char, i: nat)
    requires 0 < i <= IndexOf(t, c)
    ensures c !in t[1..i]
  {
  }

  lemma Pieces(t: string, a: nat, b: nat, c: nat)
    requires a <= b <= c <= |t|
    ensures t == t[..a] + t[a..b] + t[b..c] + t[c..]
  {
  }

  lemma ColonSplits(t: string, colon: nat)
    requires t != "" && t[0] != '[' && ':' in t && colon == LastIndexOf(t, ':') && ':' !in t[..colon]
    ensures Splits(t, t[..colon], t[colon + 1..])
  {
    CutAtColon(t, colon);
    After(t, ':', colon);
  }

  lemma CutAtColon(t: string, colon: nat)
    requires colon < |t| && t[colon] == ':'
    ensures t == t[..colon] + ":" + t[colon + 1..]
  {
    assert t[colon..colon + 1] == ":";
  }

  lemma After(t: string, c: char, i: nat)
    requires i < |t| && i == LastIndexOf(t, c)
    ensures c !in t[i + 1..]
  {
  }

  lemma ReadSplits(s: string) returns (p: string)
    ensures ParseHostPort(s).Some? ==>
      Splits(Strip(s), ParseHostPort(s).value.0, p) && ReadInt(p) == Some(ParseHostPort(s).value.1)
  {
    var t := Strip(s);
    p := "";
    if ParseHostPort(s).Some? {
      if t[0] == '[' {
        BracketsSplit(t, IndexOf(t, ']'));
        p := t[IndexOf(t, ']') + 2..];
      } else {
        ColonSplits(t, LastIndexOf(t, ':'));
        p := t[LastIndexOf(t, ':') + 1..];
      }
    }
  }

  /** A text is read as an address exactly if, spaces at its ends apart, it splits into that host
      and an integer. */
  lemma ParseExact(s: string, ip: string, n: int)
    ensures ParseHostPort(s) == Some((ip, n)) <==> exists p :: Splits(Strip(s), ip, p) && ReadInt(p) == Some(n)
  {
    if ParseHostPort(s) == Some((ip, n)) {
      var p := ReadSplits(s);
    }
    if p :| Splits(Strip(s), ip, p) && ReadInt(p) == Some(n) {
      SplitRead(s, ip, p);
    }
  }
}
