/** Printing and reading host:port texts. */
module Addresses {
  import opened Basics

  // ---------- texts ----------

  /** The characters that stripping removes. */
  predicate IsSpace(c: char) {
    || '\t' <= c <= '\r' || '\U{1C}' <= c <= ' ' || c == '\U{85}' || c == '\U{A0}' || c == '\U{1680}'
    || '\U{2000}' <= c <= '\U{200A}' || c == '\U{2028}' || c == '\U{2029}' || c == '\U{202F}'
    || c == '\U{205F}' || c == '\U{3000}'
  }

  function StripLeft(s: string): string {
    if s != "" && IsSpace(s[0]) then StripLeft(s[1..]) else s
  }

  function StripRight(s: string): string {
    if s != "" && IsSpace(s[|s| - 1]) then StripRight(s[..|s| - 1]) else s
  }

  function Strip(s: string): string {
    StripRight(StripLeft(s))
  }

  /** The first position of a character, or the length. */
  function IndexOf(s: string, c: char): (i: nat)
    ensures i <= |s| && (forall j :: 0 <= j < i ==> s[j] != c) && (i < |s| ==> s[i] == c)
    ensures c in s <==> i < |s|
  {
    if s == "" || s[0] == c then 0 else 1 + IndexOf(s[1..], c)
  }

  /** The last position of a character, or the length. */
  function LastIndexOf(s: string, c: char): (i: nat)
    ensures i <= |s| && (i < |s| ==> s[i] == c && forall j :: i < j < |s| ==> s[j] != c)
    ensures c in s <==> i < |s|
  {
    if s == "" then 0
    else if s[|s| - 1] == c then |s| - 1
    else
      var i := LastIndexOf(s[..|s| - 1], c);
      if i < |s| - 1 then i else |s|
  }

  // ---------- integers ----------

  function Digit(n: nat): char
    requires n < 10
  {
    '0' + n as char
  }

  predicate IsDigit(c: char) { '0' <= c <= '9' }

  function Decimal(n: nat): (s: string)
    ensures s != "" && forall c :: c in s ==> IsDigit(c)
  {
    if n < 10 then [Digit(n)] else Decimal(n / 10) + [Digit(n % 10)]
  }

  function IntText(n: int): string {
    if n < 0 then "-" + Decimal(-n) else Decimal(n)
  }

  /** Decimal digits, with single underscores allowed between them. */
  function ReadDigits(s: string): Option<int> {
    if s == "" || !IsDigit(s[|s| - 1]) then None
    else
      var d := (s[|s| - 1] - '0') as int;
      if |s| == 1 then Some(d)
      else
        var front := if s[|s| - 2] == '_' then s[..|s| - 2] else s[..|s| - 1];
        match ReadDigits(front)
        case Some(n) => Some(10 * n + d)
        case None => None
  }

  /** An integer literal, surrounded by spaces and signed as it may be. */
  function ReadInt(s: string): Option<int> {
    var t := Strip(s);
    if t != "" && t[0] == '-' then
      match ReadDigits(t[1..])
      case Some(n) => Some(-n)
      case None => None
    else if t != "" && t[0] == '+' then ReadDigits(t[1..])
    else ReadDigits(t)
  }

  // ---------- addresses ----------

  function FmtHostPort(ip: string, port: int): string {
    if ':' in ip then "[" + ip + "]:" + IntText(port) else ip + ":" + IntText(port)
  }

  function WithPort(ip: string, port: string): Option<(string, int)> {
    match ReadInt(port)
    case Some(n) => Some((ip, n))
    case None => None
  }

  function ParseHostPort(s: string): Option<(string, int)> {
    var t := Strip(s);
    if t == "" then None
    else if t[0] == '[' then
      var close := IndexOf(t, ']');
      if close == |t| || close + 1 == |t| || t[close + 1] != ':' then None
      else WithPort(t[1..close], t[close + 2..])
    else if ':' !in t then None
    else
      var colon := LastIndexOf(t, ':');
      if ':' in t[..colon] then None else WithPort(t[..colon], t[colon + 1..])
  }

  // ---------- round trips ----------

  lemma {:induction false} DigitsRead(n: nat)
    ensures ReadDigits(Decimal(n)) == Some(n)
  {
    if n < 10 {
    } else {
      var s := Decimal(n);
      DigitsRead(n / 10);
      assert s[..|s| - 1] == Decimal(n / 10);
      assert s[|s| - 2] in Decimal(n / 10);
    }
  }

  lemma StripSame(s: string)
    requires s != "" && !IsSpace(s[0]) && !IsSpace(s[|s| - 1])
    ensures Strip(s) == s
  {
  }

  lemma IntTextShape(n: int)
    ensures IntText(n) != "" && ':' !in IntText(n) && ']' !in IntText(n)
    ensures !IsSpace(IntText(n)[0]) && IsDigit(IntText(n)[|IntText(n)| - 1])
  {
    var s := IntText(n);
    var d := if n < 0 then Decimal(-n) else Decimal(n);
    assert s[|s| - 1] == d[|d| - 1] && d[|d| - 1] in d && d[0] in d;
    assert forall c :: c in s ==> IsDigit(c) || c == '-';
  }

  /** Every integer is read back from its text. */
  lemma IntReadBack(n: int)
    ensures ReadInt(IntText(n)) == Some(n)
  {
    IntTextShape(n);
    StripSame(IntText(n));
    if n < 0 {
      DigitsRead(-n);
      assert IntText(n)[1..] == Decimal(-n);
    } else {
      DigitsRead(n);
      assert IsDigit(Decimal(n)[0]);
    }
  }

  /** The hosts that survive printing and reading. */
  predicate Readable(ip: string) {
    if ':' in ip then ']' !in ip else ip == "" || (ip[0] != '[' && !IsSpace(ip[0]))
  }

  lemma FirstIndex(s: string, c: char, i: nat)
    requires i < |s| && s[i] == c && forall j :: 0 <= j < i ==> s[j] != c
    ensures IndexOf(s, c) == i
  {
  }

  lemma LastIndex(s: string, c: char, i: nat)
    requires i < |s| && s[i] == c && forall j :: i < j < |s| ==> s[j] != c
    ensures LastIndexOf(s, c) == i
  {
  }

  lemma Bracketed(ip: string, p: string, i: nat)
    requires ip != "" && p != "" && !IsSpace(p[|p| - 1])
    requires i <= |ip| && (forall j :: 0 <= j < i ==> ip[j] != ']') && (i < |ip| ==> ip[i] == ']')
    ensures var s := "[" + ip + "]:" + p;
      Strip(s) == s && s[0] == '[' && IndexOf(s, ']') == i + 1 && s[1..i + 1] == ip[..i] && s[|ip| + 3..] == p
  {
    var s := "[" + ip + "]:" + p;
    StripSame(s);
    assert forall j :: 0 <= j < |ip| ==> s[j + 1] == ip[j];
    assert s[|ip| + 1] == ']';
    FirstIndex(s, ']', i + 1);
  }

  /** What is read from a bracketed text whose first closing bracket is behind i characters. */
  lemma BracketedParse(ip: string, p: string, port: int, i: nat)
    requires ip != "" && p != "" && !IsSpace(p[|p| - 1]) && ReadInt(p) == Some(port)
    requires i <= |ip| && (forall j :: 0 <= j < i ==> ip[j] != ']') && (i < |ip| ==> ip[i] == ']')
    ensures var r := ParseHostPort("[" + ip + "]:" + p);
      if i == |ip| then r == Some((ip, port)) else r.None? || |r.value.0| == i
  {
    var s := "[" + ip + "]:" + p;
    Bracketed(ip, p, i);
    assert s != "" && s[0] == '[' && |ip[..i]| == i;
    assert i == |ip| ==> ip[..i] == ip && s[i + 2] == ':';
  }

  lemma BracketedRead(ip: string, port: int)
    requires ':' in ip
    ensures ParseHostPort(FmtHostPort(ip, port)) == Some((ip, port)) <==> ']' !in ip
  {
    IntTextShape(port);
    IntReadBack(port);
    BracketedParse(ip, IntText(port), port, IndexOf(ip, ']'));
  }

  lemma ColonAt(s: string, ip: string, p: string)
    requires s == ip + ":" + p && ':' !in p && ']' !in p
    ensures |s| == |ip| + 1 + |p| && s[|ip|] == ':' && s[..|ip|] == ip && s[|ip| + 1..] == p
    ensures forall k :: |ip| < k < |s| ==> s[k] != ':' && s[k] != ']'
  {
    assert forall k :: |ip| < k < |s| ==> s[k] == p[k - |ip| - 1];
  }

  lemma PlainRead(ip: string, port: int)
    requires ':' !in ip && Readable(ip)
    ensures ParseHostPort(FmtHostPort(ip, port)) == Some((ip, port))
  {
    var s, p := FmtHostPort(ip, port), IntText(port);
    IntTextShape(port);
    IntReadBack(port);
    assert s == ip + ":" + p && s[|s| - 1] == p[|p| - 1];
    assert s[0] == if ip == "" then ':' else ip[0];
    StripSame(s);
    ColonAt(s, ip, p);
    LastIndex(s, ':', |ip|);
  }

  lemma {:induction false} StripLeftShorter(s: string)
    ensures |StripLeft(s)| <= |s| && (s != "" && IsSpace(s[0]) ==> |StripLeft(s)| < |s|)
  {
    if s == "" || !IsSpace(s[0]) {
    } else {
      StripLeftShorter(s[1..]);
    }
  }

  lemma {:induction false} StripLeftEnd(s: string)
    ensures var t := StripLeft(s); |t| <= |s| && t == s[|s| - |t|..]
  {
    if s == "" || !IsSpace(s[0]) {
    } else {
      StripLeftEnd(s[1..]);
    }
  }

  /** The host that is read from the end of a text cannot be longer than the one printed. */
  lemma TailShort(s: string, n: nat, t: string)
    requires |t| < |s| && t == s[|s| - |t|..]
    requires forall k :: n < k < |s| ==> s[k] != ':' && s[k] != ']'
    requires n < |s| && s[n] == ':'
    ensures ':' in t ==> LastIndexOf(t, ':') < n
    ensures ']' in t ==> IndexOf(t, ']') < n
  {
    var off := |s| - |t|;
    if ':' in t {
      assert s[off + LastIndexOf(t, ':')] == ':';
    }
    if ']' in t {
      assert s[off + IndexOf(t, ']')] == ']';
    }
  }

  lemma HostShort(t: string)
    ensures var r := ParseHostPort(t); var u := Strip(t);
      r.Some? ==> u != "" && (if u[0] == '[' then ']' in u && |r.value.0| < IndexOf(u, ']')
                              else ':' in u && |r.value.0| == LastIndexOf(u, ':'))
  {
  }

  lemma StrippedLost(ip: string, port: int)
    requires ':' !in ip && ip != "" && IsSpace(ip[0])
    ensures ParseHostPort(FmtHostPort(ip, port)) != Some((ip, port))
  {
    var s, p := FmtHostPort(ip, port), IntText(port);
    IntTextShape(port);
    ColonAt(s, ip, p);
    assert s[0] == ip[0] && s[|s| - 1] == p[|p| - 1];
    StripTail(s);
    TailShort(s, |ip|, Strip(s));
    HostShort(s);
  }

  /** A text that starts with a space and ends without one. */
  lemma StripTail(s: string)
    requires s != "" && IsSpace(s[0]) && !IsSpace(s[|s| - 1])
    ensures |Strip(s)| < |s| && Strip(s) == s[|s| - |Strip(s)|..]
  {
    StripLeftEnd(s);
    StripLeftShorter(s);
    var t := StripLeft(s);
    assert t != "" ==> t[|t| - 1] == s[|s| - 1];
  }

  lemma BracketLost(ip: string, port: int)
    requires ':' !in ip && ip != "" && ip[0] == '['
    ensures ParseHostPort(FmtHostPort(ip, port)) != Some((ip, port))
  {
    var s, p := FmtHostPort(ip, port), IntText(port);
    IntTextShape(port);
    ColonAt(s, ip, p);
    assert s[0] == '[' && s[|s| - 1] == p[|p| - 1];
    StripSame(s);
    HostShort(s);
  }

  /** An address is read back from its text, whatever the port, if and only if the host is
      without colon, leading bracket and leading space, or has a colon and no closing bracket. */
  lemma RoundTripExact(ip: string, port: int)
    ensures ParseHostPort(FmtHostPort(ip, port)) == Some((ip, port)) <==> Readable(ip)
  {
    if ':' in ip {
      BracketedRead(ip, port);
    } else if Readable(ip) {
      PlainRead(ip, port);
    } else if IsSpace(ip[0]) {
      StrippedLost(ip, port);
    } else {
      BracketLost(ip, port);
    }
  }

  /** What is read from an unbracketed text, or is an IPv6 address, survives another round. */
  lemma ReadIsReadable(s: string)
    requires ParseHostPort(s).Some?
    requires Strip(s)[0] != '[' || ':' in ParseHostPort(s).value.0
    ensures Readable(ParseHostPort(s).value.0)
  {
    var t := Strip(s);
    StripClean(s);
    if t[0] == '[' {
      var close := IndexOf(t, ']');
      assert t[1..close] == t[..close][1..];
    } else {
      var colon := LastIndexOf(t, ':');
      assert colon > 0 ==> t[..colon][0] == t[0];
    }
  }

  lemma {:induction false} StripLeftClean(s: string)
    ensures StripLeft(s) != "" ==> !IsSpace(StripLeft(s)[0])
  {
    if s == "" || !IsSpace(s[0]) {
    } else {
      StripLeftClean(s[1..]);
    }
  }

  lemma {:induction false} StripRightKeeps(s: string)
    ensures StripRight(s) != "" ==> StripRight(s)[0] == s[0]
  {
    if s == "" || !IsSpace(s[|s| - 1]) {
    } else {
      StripRightKeeps(s[..|s| - 1]);
    }
  }

  lemma StripClean(s: string)
    ensures Strip(s) != "" ==> !IsSpace(Strip(s)[0])
  {
    StripLeftClean(s);
    StripRightKeeps(StripLeft(s));
  }
}
