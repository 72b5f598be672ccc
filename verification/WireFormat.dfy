/** The binary layouts of the packet header and of the control payloads, as fixed-width
    big-endian unsigned fields that are packed and unpacked all or nothing. */
module WireFormat {
  import opened Basics

  /** The widths of a layout's fields in bytes. */
  type Layout = seq<nat>

  const HEADER: Layout := [1, 4, 4, 2, 1]
  const HEADER_SIZE := 12
  const SYNC_REQ: Layout := [8, 1]
  const SYNC_ACK: Layout := [8, 8, 8, 1]
  const COMMIT_V2: Layout := [8, 8]
  const COMMIT_V1: Layout := [8]
  const PUNCH_ROUND: Layout := [8, 8]

  /** The number of values of a field of w bytes. */
  function Limit(w: nat): (n: nat)
    ensures n > 0
  {
    if w == 0 then 1 else 256 * Limit(w - 1)
  }

  /** The last w bytes of a number. */
  function Big(v: nat, w: nat): (b: Bytes)
    ensures |b| == w
  {
    if w == 0 then [] else Big(v / 256, w - 1) + [v % 256]
  }

  function Value(b: Bytes): (v: nat) {
    if b == [] then 0 else 256 * Value(b[..|b| - 1]) + b[|b| - 1]
  }

  predicate Fits(v: int, w: nat) {
    0 <= v < Limit(w)
  }

  function Pack(f: Layout, vs: seq<int>): Option<Bytes>
    requires |f| == |vs|
  {
    if f == [] then Some([])
    else if !Fits(vs[0], f[0]) then None
    else
      match Pack(f[1..], vs[1..])
      case Some(rest) => Some(Big(vs[0], f[0]) + rest)
      case None => None
  }

  function Unpack(f: Layout, b: Bytes): Option<seq<int>> {
    if f == [] then (if b == [] then Some([]) else None)
    else if |b| < f[0] then None
    else
      match Unpack(f[1..], b[f[0]..])
      case Some(rest) => Some([Value(b[..f[0]])] + rest)
      case None => None
  }

  function Size(f: Layout): nat {
    if f == [] then 0 else f[0] + Size(f[1..])
  }

  function UnpackHeader(data: Bytes): Option<seq<int>> {
    if |data| < HEADER_SIZE then None else Unpack(HEADER, data[..HEADER_SIZE])
  }

  function PackPacket(ptype: int, sequence: int, ack: int, payload: Bytes): Option<Bytes> {
    match Pack(HEADER, [ptype, sequence, ack, |payload|, 0])
    case Some(h) => Some(h + payload)
    case None => None
  }

  // ---------- one field ----------

  lemma {:induction false} BigValue(v: nat, w: nat)
    requires v < Limit(w)
    ensures Value(Big(v, w)) == v
  {
    if w == 0 {
    } else {
      BigValue(v / 256, w - 1);
      assert Big(v, w)[..w - 1] == Big(v / 256, w - 1);
    }
  }

  lemma {:induction false} ValueBig(b: Bytes)
    ensures Value(b) < Limit(|b|) && Big(Value(b), |b|) == b
  {
    if b == [] {
    } else {
      ValueBig(b[..|b| - 1]);
      assert b == b[..|b| - 1] + [b[|b| - 1]];
    }
  }

  /** The most significant byte comes first: byte i has the value's i-th digit to the base 256,
      counted from the front. */
  lemma {:induction false} BigEndian(v: nat, w: nat, i: nat)
    requires i < w
    ensures Big(v, w)[i] == v / Limit(w - 1 - i) % 256
  {
    if i == w - 1 {
      assert Limit(0) == 1;
    } else {
      BigEndian(v / 256, w - 1, i);
      DivTwice(v, 256, Limit(w - 2 - i));
    }
  }

  lemma DivTwice(v: nat, a: nat, b: nat)
    requires a > 0 && b > 0
    ensures a * b > 0 && v / a / b == v / (a * b)
  {
    var q := v / a;
    var p := q / b;
    Compose(v, a, q, v % a, b, p, q % b);
    Quotient(v, a * b, p, a * (q % b) + v % a);
  }

  lemma Compose(v: nat, a: nat, q: nat, r: nat, b: nat, p: nat, t: nat)
    requires r < a && v == a * q + r && t < b && q == b * p + t
    ensures 0 <= a * t + r < a * b && v == a * b * p + (a * t + r)
  {
    Expand(a, b, p, t);
    Room(a, b, t);
  }

  lemma Expand(a: nat, b: nat, p: nat, t: nat)
    ensures a * (b * p + t) == a * b * p + a * t
  {
  }

  lemma Room(a: nat, b: nat, t: nat)
    requires t < b
    ensures 0 <= a * t && a * t + a <= a * b
  {
    var d := b - t - 1;
    assert a * (t + 1 + d) == a * t + a + a * d;
  }

  lemma Quotient(v: nat, n: nat, q: nat, r: nat)
    requires r < n && v == n * q + r
    ensures v / n == q
  {
    var k := v / n - q;
    assert n * k == r - v % n;
    assert k >= 1 ==> n * k >= n;
    assert k <= -1 ==> n * k <= 0 - n;
  }

  /** The payloads' sizes in bytes. */
  lemma LayoutSizes()
    ensures Size(HEADER) == 12 && Size(SYNC_REQ) == 9 && Size(SYNC_ACK) == 25
    ensures Size(COMMIT_V2) == 16 && Size(COMMIT_V1) == 8 && Size(PUNCH_ROUND) == 16
  {
    HeaderSize();
    assert SYNC_ACK[1..] == [8, 8, 1] && [8, 8, 1][1..] == [8, 1] && [8, 1][1..] == [1] && [1][1..] == [];
    assert SYNC_REQ[1..] == [1] && COMMIT_V2[1..] == [8] && [8][1..] == [] && COMMIT_V1[1..] == [];
    assert PUNCH_ROUND[1..] == [8];
  }

  // ---------- all layouts ----------

  /** Packing succeeds exactly on the fields' ranges, and then unpacking gives the values back. */
  lemma {:induction false} PackUnpack(f: Layout, vs: seq<int>)
    requires |f| == |vs|
    ensures Pack(f, vs).Some? <==> forall i :: 0 <= i < |f| ==> Fits(vs[i], f[i])
    ensures Pack(f, vs).Some? ==> |Pack(f, vs).value| == Size(f) && Unpack(f, Pack(f, vs).value) == Some(vs)
  {
    if f == [] {
    } else {
      PackUnpack(f[1..], vs[1..]);
      assert forall i :: 0 < i < |f| ==> f[i] == f[1..][i - 1] && vs[i] == vs[1..][i - 1];
      if Pack(f, vs).Some? {
        BigValue(vs[0], f[0]);
        var b := Pack(f, vs).value;
        assert b[..f[0]] == Big(vs[0], f[0]) && b[f[0]..] == Pack(f[1..], vs[1..]).value;
        assert vs == [vs[0]] + vs[1..];
      }
    }
  }

  /** Unpacking succeeds exactly on the layout's size, and then packing gives the bytes back. */
  lemma {:induction false} UnpackPack(f: Layout, b: Bytes)
    ensures Unpack(f, b).Some? <==> |b| == Size(f)
    ensures Unpack(f, b).Some? ==> |Unpack(f, b).value| == |f| && Pack(f, Unpack(f, b).value) == Some(b)
  {
    if f == [] || |b| < f[0] {
    } else {
      UnpackPack(f[1..], b[f[0]..]);
      if Unpack(f, b).Some? {
        ValueBig(b[..f[0]]);
        var vs := Unpack(f, b).value;
        assert vs[1..] == Unpack(f[1..], b[f[0]..]).value;
        assert b == b[..f[0]] + b[f[0]..];
      }
    }
  }

  /** A packet is read back from its bytes, whatever follows its header. */
  lemma PacketRead(ptype: int, sequence: int, ack: int, payload: Bytes)
    ensures var p := PackPacket(ptype, sequence, ack, payload);
      && (p.Some? <==> Fits(ptype, 1) && Fits(sequence, 4) && Fits(ack, 4) && Fits(|payload|, 2))
      && (p.Some? ==> UnpackHeader(p.value) == Some([ptype, sequence, ack, |payload|, 0])
                      && p.value[HEADER_SIZE..] == payload)
  {
    var vs := [ptype, sequence, ack, |payload|, 0];
    PackUnpack(HEADER, vs);
    assert Size(HEADER) == 12 by { HeaderSize(); }
    var p := PackPacket(ptype, sequence, ack, payload);
    if p.Some? {
      assert p.value[..12] == Pack(HEADER, vs).value;
    }
    if Fits(ptype, 1) && Fits(sequence, 4) && Fits(ack, 4) && Fits(|payload|, 2) {
      assert Fits(0, 1) by { assert Limit(1) == 256 * Limit(0); }
      assert forall i :: 0 <= i < 5 ==> Fits(vs[i], HEADER[i]);
    }
    if p.Some? {
      assert Fits(vs[0], HEADER[0]) && Fits(vs[1], HEADER[1]) && Fits(vs[2], HEADER[2]) && Fits(vs[3], HEADER[3]);
    }
  }

  lemma HeaderSize()
    ensures Size(HEADER) == HEADER_SIZE
  {
    assert HEADER[1..] == [4, 4, 2, 1] && HEADER[1..][1..] == [4, 2, 1] && [4, 2, 1][1..] == [2, 1];
    assert [2, 1][1..] == [1] && [1][1..] == [];
  }
}
