/** The same layouts as the other implementation writes and reads them: through a cursor over a
    buffer, with masks and signed integers of fixed width. */
module KotlinCodec {
  import opened Basics
  import opened WireFormat

  // ---------- integers of fixed width ----------

  /** The low w bytes of an integer in two's complement: what a mask keeps. */
  function Low(x: int, w: nat): (r: nat)
    ensures r < Limit(w)
  {
    x % Limit(w)
  }

  /** Those bytes read as a signed integer: what a narrowing conversion makes of x. */
  function Signed(x: int, w: nat): int {
    if 2 * Low(x, w) < Limit(w) then Low(x, w) else Low(x, w) - Limit(w)
  }

  lemma ModShift(x: int, n: nat)
    requires n > 0
    ensures (x - n) % n == x % n
  {
    var q, r := x / n, x % n;
    assert x - n == n * (q - 1) + r;
    ModIs(x - n, n, q - 1, r);
  }

  lemma ModIs(x: int, n: nat, q: int, r: nat)
    requires r < n && x == n * q + r
    ensures x % n == r
  {
    var k := x / n - q;
    assert n * k == r - x % n;
    SmallMultiple(n, k);
  }

  lemma SmallMultiple(n: nat, k: int)
    requires 0 - n < n * k < n
    ensures k == 0
  {
    assert k >= 1 ==> n * k >= n;
    assert k <= -1 ==> n * k <= 0 - n;
  }

  lemma LowLow(x: int, w: nat)
    ensures Low(Low(x, w), w) == Low(x, w)
    ensures Low(Signed(x, w), w) == Low(x, w)
  {
    ModIs(Low(x, w), Limit(w), 0, Low(x, w));
    ModShift(Low(x, w), Limit(w));
  }

  predicate SignedRange(x: int, w: nat) {
    0 - Limit(w) <= 2 * x < Limit(w)
  }

  lemma SignedBack(x: int, w: nat)
    requires SignedRange(x, w)
    ensures Signed(Low(x, w), w) == x
  {
    LowLow(x, w);
    if x >= 0 {
      ModIs(x, Limit(w), 0, x);
    } else {
      ModIs(x, Limit(w), -1, x + Limit(w));
    }
  }

  // ---------- what is written and read ----------

  /** The fields' low bytes, one after the other. */
  function Laid(f: Layout, vs: seq<int>): Bytes
    requires |f| == |vs|
  {
    if f == [] then [] else Laid(f[..|f| - 1], vs[..|f| - 1]) + Big(Low(vs[|f| - 1], f[|f| - 1]), f[|f| - 1])
  }

  /** Fields of eight bytes are read as signed, all others as unsigned. */
  function FieldOf(w: nat, v: nat): int {
    if w == 8 then Signed(v, 8) else v
  }

  function Fields(f: Layout, vs: seq<int>): (r: seq<int>)
    requires |f| == |vs| && forall i :: 0 <= i < |vs| ==> vs[i] >= 0
    ensures |r| == |vs|
  {
    seq(|f|, i requires 0 <= i < |f| => FieldOf(f[i], vs[i]))
  }

  // ---------- agreement ----------

  lemma {:induction false} LaidNext(f: Layout, vs: seq<int>)
    requires |f| == |vs| && f != []
    ensures Laid(f, vs) == Big(Low(vs[0], f[0]), f[0]) + Laid(f[1..], vs[1..])
  {
    if |f| > 1 {
      LaidNext(f[..|f| - 1], vs[..|f| - 1]);
      assert f[..|f| - 1][1..] == f[1..][..|f| - 2] && vs[..|f| - 1][1..] == vs[1..][..|f| - 2];
    } else {
      assert f[..0] == [] && f[1..] == [];
    }
  }

  lemma LaidPush(f: Layout, vs: seq<int>, w: nat, v: int, b: Bytes)
    requires |f| == |vs| && b == Laid(f, vs)
    ensures Laid(f + [w], vs + [v]) == b + Big(Low(v, w), w)
  {
    assert (f + [w])[..|f|] == f && (vs + [v])[..|f|] == vs;
  }

  lemma {:induction false} LaidIsPacked(f: Layout, vs: seq<int>)
    requires |f| == |vs| && forall i :: 0 <= i < |f| ==> Fits(vs[i], f[i])
    ensures Pack(f, vs) == Some(Laid(f, vs))
  {
    if f == [] {
    } else {
      assert forall i :: 0 < i < |f| ==> f[i] == f[1..][i - 1] && vs[i] == vs[1..][i - 1];
      LaidIsPacked(f[1..], vs[1..]);
      LaidNext(f, vs);
      ModIs(vs[0], Limit(f[0]), 0, vs[0]);
    }
  }

  /** Both implementations write the same bytes if and only if every value is in its field's
      range; outside, one reports an error and the other writes the low bytes. */
  lemma WritersAgree(f: Layout, vs: seq<int>)
    requires |f| == |vs|
    ensures Pack(f, vs) == Some(Laid(f, vs)) <==> forall i :: 0 <= i < |f| ==> Fits(vs[i], f[i])
    ensures Pack(f, vs) in {None, Some(Laid(f, vs))}
  {
    PackUnpack(f, vs);
    if forall i :: 0 <= i < |f| ==> Fits(vs[i], f[i]) {
      LaidIsPacked(f, vs);
    }
  }

  lemma UnpackedFit(f: Layout, b: Bytes)
    requires Unpack(f, b).Some?
    ensures var vs := Unpack(f, b).value; |vs| == |f| && forall i :: 0 <= i < |f| ==> Fits(vs[i], f[i])
  {
    UnpackPack(f, b);
    PackUnpack(f, Unpack(f, b).value);
  }

  /** Both implementations read the same values from a payload of the layout's size if and only
      if no eight-byte field has its highest bit set. */
  lemma ReadersAgree(f: Layout, b: Bytes)
    requires |b| == Size(f)
    ensures Unpack(f, b).Some? && |Unpack(f, b).value| == |f| && forall i :: 0 <= i < |f| ==> Unpack(f, b).value[i] >= 0
    ensures var vs := Unpack(f, b).value;
      Fields(f, vs) == vs <==> forall i :: 0 <= i < |f| && f[i] == 8 ==> 2 * vs[i] < Limit(8)
  {
    UnpackPack(f, b);
    UnpackedFit(f, b);
    var vs := Unpack(f, b).value;
    forall i | 0 <= i < |f| ensures FieldOf(f[i], vs[i]) == vs[i] <==> (f[i] == 8 ==> 2 * vs[i] < Limit(8)) {
      ModIs(vs[i], Limit(f[i]), 0, vs[i]);
    }
    if Fields(f, vs) == vs {
      forall i | 0 <= i < |f| && f[i] == 8 ensures 2 * vs[i] < Limit(8) {
        assert Fields(f, vs)[i] == vs[i];
      }
    }
  }

  lemma UnpackLaid(f: Layout, vs: seq<int>)
    requires |f| == |vs|
    ensures Unpack(f, Laid(f, vs)) == Some(seq(|f|, i requires 0 <= i < |f| => Low(vs[i], f[i])))
  {
    var lows: seq<int> := seq(|f|, i requires 0 <= i < |f| => Low(vs[i], f[i]));
    LaidIsPacked(f, lows);
    PackUnpack(f, lows);
    LaidLow(f, vs, lows);
  }

  lemma {:induction false} LaidLow(f: Layout, vs: seq<int>, lows: seq<int>)
    requires |f| == |vs| == |lows| && forall i :: 0 <= i < |f| ==> lows[i] == Low(vs[i], f[i])
    ensures Laid(f, lows) == Laid(f, vs)
  {
    if f == [] {
    } else {
      LaidLow(f[..|f| - 1], vs[..|f| - 1], lows[..|f| - 1]);
      LowLow(vs[|f| - 1], f[|f| - 1]);
    }
  }

  /** What this implementation writes it reads back, signed eight-byte values included. */
  lemma OwnRoundTrip(f: Layout, vs: seq<int>)
    requires |f| == |vs|
    requires forall i :: 0 <= i < |f| ==> if f[i] == 8 then SignedRange(vs[i], 8) else Fits(vs[i], f[i])
    ensures Unpack(f, Laid(f, vs)).Some?
    ensures var r := Unpack(f, Laid(f, vs)).value;
      |r| == |f| && (forall i :: 0 <= i < |r| ==> r[i] >= 0) && Fields(f, r) == vs
  {
    UnpackLaid(f, vs);
    var r := Unpack(f, Laid(f, vs)).value;
    forall i | 0 <= i < |f| ensures FieldOf(f[i], r[i]) == vs[i] {
      if f[i] == 8 {
        SignedBack(vs[i], 8);
      } else {
        ModIs(vs[i], Limit(f[i]), 0, vs[i]);
      }
    }
  }

  // ---------- the buffer ----------

  /** A fixed buffer with a cursor, big-endian. */
  class ByteBuffer {
    const data: array<Byte>
    var pos: nat

    ghost predicate Valid()
      reads this
    {
      pos <= data.Length
    }

    /** What has been written or read so far. */
    ghost function Done(): Bytes
      reads this, data
      requires Valid()
    {
      data[..pos]
    }

    ghost function Rest(): Bytes
      reads this, data
      requires Valid()
    {
      data[pos..]
    }

    constructor Allocate(size: nat)
      ensures Valid() && fresh(data) && data.Length == size && pos == 0
    {
      data := new Byte[size](_ => 0);
      pos := 0;
    }

    constructor Wrap(b: Bytes)
      ensures Valid() && fresh(data) && data[..] == b && pos == 0
    {
      data := new Byte[|b|](i requires 0 <= i < |b| => b[i]);
      pos := 0;
    }

    /** Writes the low w bytes of a value. */
    method Put(v: int, w: nat)
      requires Valid() && pos + w <= data.Length
      modifies this`pos, data
      ensures Valid() && pos == old(pos) + w && Done() == old(Done()) + Big(Low(v, w), w)
    {
      var rest: nat, i: nat := Low(v, w), w;
      ghost var all := Big(rest, w);
      while i > 0
        invariant i <= w && pos == old(pos) && pos + w <= data.Length
        invariant data[..pos] == old(data[..pos])
        invariant forall j :: i <= j < w ==> data[pos + j] == all[j]
        invariant all[..i] == Big(rest, i)
      {
        assert all[..i] == Big(rest / 256, i - 1) + [rest % 256];
        assert all[i - 1] == all[..i][i - 1] && all[..i - 1] == all[..i][..i - 1];
        i := i - 1;
        data[pos + i] := rest % 256;
        rest := rest / 256;
      }
      pos := pos + w;
      assert data[..pos] == old(data[..pos]) + all;
    }

    /** Reads w bytes as a signed integer. */
    method Get(w: nat) returns (v: int)
      requires Valid() && pos + w <= data.Length
      modifies this`pos
      ensures Valid() && pos == old(pos) + w && v == Signed(Value(old(data[pos..pos + w])), w)
    {
      var u: nat, i: nat := 0, 0;
      while i < w
        invariant i <= w && pos == old(pos) && u == Value(data[pos..pos + i])
      {
        assert data[pos..pos + i + 1][..i] == data[pos..pos + i];
        u := 256 * u + data[pos + i];
        i := i + 1;
      }
      v := Signed(u, w);
      pos := pos + w;
    }
  }

  // ---------- the header ----------

  /** Writes one more field of a layout. */
  method PutField(buf: ByteBuffer, ghost f: Layout, ghost vs: seq<int>, w: nat, v: int, ghost low: int)
    requires buf.Valid() && buf.pos + w <= buf.data.Length
    requires |f| == |vs| && buf.Done() == Laid(f, vs) && Low(v, w) == Low(low, w)
    modifies buf`pos, buf.data
    ensures buf.Valid() && buf.pos == old(buf.pos) + w && buf.Done() == Laid(f + [w], vs + [low])
  {
    buf.Put(v, w);
    LaidPush(f, vs, w, low, Laid(f, vs));
  }

  /** A field whose value is masked and narrowed before it is written. */
  method PutMasked(buf: ByteBuffer, ghost f: Layout, ghost vs: seq<int>, w: nat, v: int)
    returns (ghost g: Layout, ghost us: seq<int>)
    requires buf.Valid() && buf.pos + w <= buf.data.Length
    requires |f| == |vs| && buf.Done() == Laid(f, vs)
    modifies buf`pos, buf.data
    ensures buf.Valid() && buf.pos == old(buf.pos) + w
    ensures g == f + [w] && us == vs + [v] && buf.Done() == Laid(g, us)
  {
    LowLow(v, w);
    LowLow(Low(v, w), w);
    PutField(buf, f, vs, w, Signed(Low(v, w), w), v);
    g, us := f + [w], vs + [v];
  }

  /** An eight-byte field, written as it is. */
  method PutLong(buf: ByteBuffer, ghost f: Layout, ghost vs: seq<int>, v: int)
    returns (ghost g: Layout, ghost us: seq<int>)
    requires buf.Valid() && buf.pos + 8 <= buf.data.Length
    requires |f| == |vs| && buf.Done() == Laid(f, vs)
    modifies buf`pos, buf.data
    ensures buf.Valid() && buf.pos == old(buf.pos) + 8
    ensures g == f + [8] && us == vs + [v] && buf.Done() == Laid(g, us)
  {
    PutField(buf, f, vs, 8, v, v);
    g, us := f + [8], vs + [v];
  }

  // ---------- packing ----------

  /** The header's two numbers, behind its type. */
  method PutNumbers(buf: ByteBuffer, ghost ptype: int, sequence: int, ack: int)
    requires buf.Valid() && buf.pos + 8 <= buf.data.Length && buf.Done() == Laid([1], [ptype])
    modifies buf`pos, buf.data
    ensures buf.Valid() && buf.pos == old(buf.pos) + 8
    ensures buf.Done() == Laid([1, 4, 4], [ptype, sequence, ack])
  {
    ghost var fs: Layout, us: seq<int> := [1], [ptype];
    fs, us := PutMasked(buf, fs, us, 4, sequence);
    fs, us := PutMasked(buf, fs, us, 4, ack);
    assert fs == [1, 4, 4] && us == [ptype, sequence, ack];
  }

  method PackHeader(ptype: int, sequence: int, ack: int, length: int, reserved: int) returns (b: Bytes)
    ensures b == Laid(HEADER, [ptype, sequence, ack, length, reserved])
  {
    var buf := new ByteBuffer.Allocate(HEADER_SIZE);
    ghost var fs: Layout, us: seq<int> := [], [];
    fs, us := PutMasked(buf, fs, us, 1, ptype);
    PutNumbers(buf, ptype, sequence, ack);
    fs, us := PutMasked(buf, [1, 4, 4], [ptype, sequence, ack], 2, length);
    fs, us := PutMasked(buf, fs, us, 1, reserved);
    assert fs == HEADER && us == [ptype, sequence, ack, length, reserved];
    b := buf.data[..];
  }

  method PackSyncReq(t1: int, ver: int) returns (b: Bytes)
    ensures b == Laid(SYNC_REQ, [t1, ver])
  {
    var buf := new ByteBuffer.Allocate(9);
    ghost var fs: Layout, us: seq<int> := [], [];
    fs, us := PutLong(buf, fs, us, t1);
    fs, us := PutMasked(buf, fs, us, 1, ver);
    assert fs == SYNC_REQ && us == [t1, ver];
    b := buf.data[..];
  }

  method PackSyncAck(t1: int, t2: int, t3: int, ver: int) returns (b: Bytes)
    ensures b == Laid(SYNC_ACK, [t1, t2, t3, ver])
  {
    var buf := new ByteBuffer.Allocate(25);
    ghost var fs: Layout, us: seq<int> := [], [];
    fs, us := PutLong(buf, fs, us, t1);
    fs, us := PutLong(buf, fs, us, t2);
    fs, us := PutLong(buf, fs, us, t3);
    fs, us := PutMasked(buf, fs, us, 1, ver);
    assert fs == SYNC_ACK && us == [t1, t2, t3, ver];
    b := buf.data[..];
  }

  method PackSyncCommitV2(goAt: int, id: int) returns (b: Bytes)
    ensures b == Laid(COMMIT_V2, [goAt, id])
  {
    var buf := new ByteBuffer.Allocate(16);
    ghost var fs: Layout, us: seq<int> := [], [];
    fs, us := PutLong(buf, fs, us, goAt);
    fs, us := PutLong(buf, fs, us, id);
    assert fs == COMMIT_V2 && us == [goAt, id];
    b := buf.data[..];
  }

  method PackSyncCommitV1(delay: int) returns (b: Bytes)
    ensures b == Laid(COMMIT_V1, [delay])
  {
    var buf := new ByteBuffer.Allocate(8);
    ghost var fs: Layout, us: seq<int> := [], [];
    fs, us := PutLong(buf, fs, us, delay);
    assert fs == COMMIT_V1 && us == [delay];
    b := buf.data[..];
  }

  method PackPunchRound(round: int, goAt: int) returns (b: Bytes)
    ensures b == Laid(PUNCH_ROUND, [round, goAt])
  {
    var buf := new ByteBuffer.Allocate(16);
    ghost var fs: Layout, us: seq<int> := [], [];
    fs, us := PutLong(buf, fs, us, round);
    fs, us := PutLong(buf, fs, us, goAt);
    assert fs == PUNCH_ROUND && us == [round, goAt];
    b := buf.data[..];
  }

  /** A header and the payload behind it. */
  method PackPacket(ptype: int, sequence: int, ack: int, payload: Bytes) returns (b: Bytes)
    ensures b == Laid(HEADER, [ptype, sequence, ack, |payload|, 0]) + payload
  {
    var header := PackHeader(ptype, sequence, ack, |payload|, 0);
    var out := new Byte[|header| + |payload|](i requires 0 <= i < |header| + |payload| =>
      if i < |header| then header[i] else payload[i - |header|]);
    b := out[..];
  }

  // ---------- unpacking ----------

  /** The fields at the front of some bytes; what comes after them is not looked at. */
  function Read(f: Layout, b: Bytes): Option<seq<int>> {
    if f == [] then Some([])
    else if |b| < f[0] then None
    else
      match Read(f[1..], b[f[0]..])
      case Some(rest) => Some([FieldOf(f[0], Value(b[..f[0]]))] + rest)
      case None => None
  }

  lemma {:induction false} ReadSize(f: Layout, b: Bytes)
    ensures Read(f, b).Some? <==> |b| >= Size(f)
    ensures Read(f, b).Some? ==> |Read(f, b).value| == |f|
  {
    if f == [] || |b| < f[0] {
    } else {
      ReadSize(f[1..], b[f[0]..]);
    }
  }

  /** On payloads of the layout's size, reading is unpacking, up to the sign of long fields. */
  lemma {:induction false} ReadIsUnpack(f: Layout, b: Bytes)
    requires |b| == Size(f)
    ensures Unpack(f, b).Some? && |Unpack(f, b).value| == |f| && forall i :: 0 <= i < |f| ==> Unpack(f, b).value[i] >= 0
    ensures Read(f, b) == Some(Fields(f, Unpack(f, b).value))
  {
    UnpackPack(f, b);
    UnpackedFit(f, b);
    if f == [] {
    } else {
      ReadIsUnpack(f[1..], b[f[0]..]);
      var vs := Unpack(f, b).value;
      assert vs[1..] == Unpack(f[1..], b[f[0]..]).value;
      assert Fields(f, vs) == [FieldOf(f[0], vs[0])] + Fields(f[1..], vs[1..]);
    }
  }

  /** Both implementations read the same from a payload of any size if and only if it is too
      short for the layout, or has just its size and no eight-byte field with its highest bit
      set: one of them ignores what follows the fields. */
  lemma ReadersAgreeExactly(f: Layout, b: Bytes)
    ensures Read(f, b) == Unpack(f, b) <==>
      |b| < Size(f) || (|b| == Size(f) && forall i :: 0 <= i < |f| && f[i] == 8 ==> 2 * UnpackedAt(f, b, i) < Limit(8))
  {
    ReadSize(f, b);
    UnpackPack(f, b);
    if |b| == Size(f) {
      ReadIsUnpack(f, b);
      ReadersAgree(f, b);
    }
  }

  function UnpackedAt(f: Layout, b: Bytes, i: nat): int
    requires |b| == Size(f) && i < |f|
  {
    UnpackPack(f, b);
    Unpack(f, b).value[i]
  }

  /** Some fields of a layout have been read, others remain. */
  ghost predicate Pending(all: Layout, b: Bytes, f: Layout, rest: Bytes, got: seq<int>) {
    Read(all, b) == match Read(f, rest) case Some(t) => Some(got + t) case None => None
  }

  lemma PendingNext(all: Layout, b: Bytes, f: Layout, rest: Bytes, got: seq<int>, v: int)
    requires Pending(all, b, f, rest, got) && f != [] && |rest| >= f[0] && v == FieldOf(f[0], Value(rest[..f[0]]))
    ensures Pending(all, b, f[1..], rest[f[0]..], got + [v])
  {
    var t := Read(f[1..], rest[f[0]..]);
    if t.Some? {
      assert got + ([v] + t.value) == got + [v] + t.value;
    }
  }

  lemma PendingAll(f: Layout, b: Bytes)
    ensures Pending(f, b, f, b, [])
  {
    if Read(f, b).Some? {
      assert [] + Read(f, b).value == Read(f, b).value;
    }
  }

  /** Reads one more field of a layout. */
  method GetField(buf: ByteBuffer, w: nat, ghost all: Layout, ghost b: Bytes, ghost f: Layout, ghost got: seq<int>)
    returns (v: int, ghost rest: Layout, ghost now: seq<int>)
    requires buf.Valid() && buf.pos + w <= buf.data.Length && f != [] && f[0] == w
    requires Pending(all, b, f, buf.Rest(), got)
    modifies buf`pos
    ensures buf.Valid() && buf.pos == old(buf.pos) + w && rest == f[1..] && now == got + [v]
    ensures Pending(all, b, rest, buf.Rest(), now)
  {
    ghost var was := buf.Rest();
    v := buf.Get(w);
    assert was[..w] == buf.data[old(buf.pos)..old(buf.pos) + w] && was[w..] == buf.Rest();
    FieldRead(was[..w], w);
    if w != 8 {
      v := Low(v, w);
    }
    rest, now := f[1..], got + [v];
    PendingNext(all, b, f, was, got, v);
  }

  /** The bytes of a field, read as a signed integer and masked if it is not a long one. */
  lemma FieldRead(b: Bytes, w: nat)
    requires |b| == w
    ensures FieldOf(w, Value(b)) == if w == 8 then Signed(Value(b), w) else Low(Signed(Value(b), w), w)
  {
    ValueBig(b);
    ModIs(Value(b), Limit(w), 0, Value(b));
    LowLow(Value(b), w);
  }

  lemma Sizes()
    ensures Size(SYNC_REQ) == 9 && Size(SYNC_ACK) == 25 && Size(COMMIT_V2) == 16
    ensures Size(COMMIT_V1) == 8 && Size(PUNCH_ROUND) == 16
  {
    assert SYNC_REQ[1..] == [1] && [1][1..] == [];
    assert SYNC_ACK[1..] == [8, 8, 1] && [8, 8, 1][1..] == [8, 1] && [8, 1][1..] == [1];
    assert COMMIT_V2[1..] == [8] && [8][1..] == [];
    assert COMMIT_V1[1..] == [];
  }

  lemma HeaderRead(h: Bytes)
    requires |h| == HEADER_SIZE
    ensures Read(HEADER, h) == Unpack(HEADER, h)
  {
    HeaderSize();
    ReadIsUnpack(HEADER, h);
    ReadersAgree(HEADER, h);
  }

  /** The first twelve bytes as a header. */
  method UnpackHeader(data: Bytes) returns (r: Option<seq<int>>)
    ensures r == WireFormat.UnpackHeader(data)
  {
    if |data| < HEADER_SIZE {
      return None;
    }
    ghost var h := data[..HEADER_SIZE];
    HeaderRead(h);
    var buf := Opened(data[..HEADER_SIZE], HEADER);
    r := GetHeader(buf, h);
  }

  method GetHeader(buf: ByteBuffer, ghost h: Bytes) returns (r: Option<seq<int>>)
    requires buf.Valid() && buf.pos == 0 && buf.data.Length == HEADER_SIZE && Pending(HEADER, h, HEADER, buf.Rest(), [])
    modifies buf`pos
    ensures r == Read(HEADER, h)
  {
    ghost var f: Layout, got: seq<int> := HEADER, [];
    var ptype; ptype, f, got := GetField(buf, 1, HEADER, h, f, got);
    var sequence; sequence, f, got := GetField(buf, 4, HEADER, h, f, got);
    var ack; ack, f, got := GetField(buf, 4, HEADER, h, f, got);
    var length; length, f, got := GetField(buf, 2, HEADER, h, f, got);
    var reserved; reserved, f, got := GetField(buf, 1, HEADER, h, f, got);
    assert f == [] && got + [] == [ptype, sequence, ack, length, reserved];
    r := Some([ptype, sequence, ack, length, reserved]);
  }

  /** A buffer before its first field is read. */
  method Opened(payload: Bytes, ghost f: Layout) returns (buf: ByteBuffer)
    ensures fresh(buf) && buf.Valid() && buf.pos == 0 && buf.data.Length == |payload|
    ensures Pending(f, payload, f, buf.Rest(), [])
  {
    buf := new ByteBuffer.Wrap(payload);
    assert buf.Rest() == payload;
    PendingAll(f, payload);
  }

  method UnpackSyncReq(payload: Bytes) returns (r: Option<seq<int>>)
    ensures r == Read(SYNC_REQ, payload)
  {
    ReadSize(SYNC_REQ, payload);
    Sizes();
    if |payload| < 9 {
      return None;
    }
    var buf := Opened(payload, SYNC_REQ);
    r := GetSyncReq(buf, payload);
  }

  method GetSyncReq(buf: ByteBuffer, ghost b: Bytes) returns (r: Option<seq<int>>)
    requires buf.Valid() && buf.pos == 0 && buf.data.Length >= 9 && Pending(SYNC_REQ, b, SYNC_REQ, buf.Rest(), [])
    modifies buf`pos
    ensures r == Read(SYNC_REQ, b)
  {
    ghost var f: Layout, got: seq<int> := SYNC_REQ, [];
    var t1; t1, f, got := GetField(buf, 8, SYNC_REQ, b, f, got);
    var ver; ver, f, got := GetField(buf, 1, SYNC_REQ, b, f, got);
    assert f == [] && got + [] == [t1, ver];
    r := Some([t1, ver]);
  }

  method UnpackSyncAck(payload: Bytes) returns (r: Option<seq<int>>)
    ensures r == Read(SYNC_ACK, payload)
  {
    ReadSize(SYNC_ACK, payload);
    Sizes();
    if |payload| < 25 {
      return None;
    }
    var buf := Opened(payload, SYNC_ACK);
    r := GetSyncAck(buf, payload);
  }

  method GetSyncAck(buf: ByteBuffer, ghost b: Bytes) returns (r: Option<seq<int>>)
    requires buf.Valid() && buf.pos == 0 && buf.data.Length >= 25 && Pending(SYNC_ACK, b, SYNC_ACK, buf.Rest(), [])
    modifies buf`pos
    ensures r == Read(SYNC_ACK, b)
  {
    ghost var f: Layout, got: seq<int> := SYNC_ACK, [];
    var t1; t1, f, got := GetField(buf, 8, SYNC_ACK, b, f, got);
    var t2; t2, f, got := GetField(buf, 8, SYNC_ACK, b, f, got);
    var t3; t3, f, got := GetField(buf, 8, SYNC_ACK, b, f, got);
    var ver; ver, f, got := GetField(buf, 1, SYNC_ACK, b, f, got);
    assert f == [] && got + [] == [t1, t2, t3, ver];
    r := Some([t1, t2, t3, ver]);
  }

  method UnpackSyncCommitV2(payload: Bytes) returns (r: Option<seq<int>>)
    ensures r == Read(COMMIT_V2, payload)
  {
    ReadSize(COMMIT_V2, payload);
    Sizes();
    if |payload| < 16 {
      return None;
    }
    var buf := Opened(payload, COMMIT_V2);
    r := GetSyncCommitV2(buf, payload);
  }

  method GetSyncCommitV2(buf: ByteBuffer, ghost b: Bytes) returns (r: Option<seq<int>>)
    requires buf.Valid() && buf.pos == 0 && buf.data.Length >= 16 && Pending(COMMIT_V2, b, COMMIT_V2, buf.Rest(), [])
    modifies buf`pos
    ensures r == Read(COMMIT_V2, b)
  {
    ghost var f: Layout, got: seq<int> := COMMIT_V2, [];
    var goAt; goAt, f, got := GetField(buf, 8, COMMIT_V2, b, f, got);
    var id; id, f, got := GetField(buf, 8, COMMIT_V2, b, f, got);
    assert f == [] && got + [] == [goAt, id];
    r := Some([goAt, id]);
  }

  method UnpackSyncCommitV1(payload: Bytes) returns (r: Option<seq<int>>)
    ensures r == Read(COMMIT_V1, payload)
  {
    ReadSize(COMMIT_V1, payload);
    Sizes();
    if |payload| < 8 {
      return None;
    }
    var buf := Opened(payload, COMMIT_V1);
    r := GetSyncCommitV1(buf, payload);
  }

  method GetSyncCommitV1(buf: ByteBuffer, ghost b: Bytes) returns (r: Option<seq<int>>)
    requires buf.Valid() && buf.pos == 0 && buf.data.Length >= 8 && Pending(COMMIT_V1, b, COMMIT_V1, buf.Rest(), [])
    modifies buf`pos
    ensures r == Read(COMMIT_V1, b)
  {
    ghost var f: Layout, got: seq<int> := COMMIT_V1, [];
    var delay; delay, f, got := GetField(buf, 8, COMMIT_V1, b, f, got);
    assert f == [] && got + [] == [delay];
    r := Some([delay]);
  }

  method UnpackPunchRound(payload: Bytes) returns (r: Option<seq<int>>)
    ensures r == Read(PUNCH_ROUND, payload)
  {
    ReadSize(PUNCH_ROUND, payload);
    Sizes();
    if |payload| < 16 {
      return None;
    }
    var buf := Opened(payload, PUNCH_ROUND);
    r := GetPunchRound(buf, payload);
  }

  method GetPunchRound(buf: ByteBuffer, ghost b: Bytes) returns (r: Option<seq<int>>)
    requires buf.Valid() && buf.pos == 0 && buf.data.Length >= 16
    requires Pending(PUNCH_ROUND, b, PUNCH_ROUND, buf.Rest(), [])
    modifies buf`pos
    ensures r == Read(PUNCH_ROUND, b)
  {
    ghost var f: Layout, got: seq<int> := PUNCH_ROUND, [];
    var round; round, f, got := GetField(buf, 8, PUNCH_ROUND, b, f, got);
    var goAt; goAt, f, got := GetField(buf, 8, PUNCH_ROUND, b, f, got);
    assert f == [] && got + [] == [round, goAt];
    r := Some([round, goAt]);
  }
}
