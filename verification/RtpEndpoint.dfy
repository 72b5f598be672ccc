/** One end of the reliable UDP byte stream: numbering and queueing of chunks, the AIMD
    window, reordering of received chunks.  The functions say what one locked section of
    the socket does to its state; the class does it in place. */
module RtpEndpoint {
  import opened Basics

  /** The tuning parameters that the stream part of the socket reads. */
  datatype Config = Config(maxPayload: nat, windowMin: nat, windowMax: nat, windowInit: nat, rtoMs: nat) {
    predicate Valid() {
      1 <= maxPayload && 1 <= windowMin <= windowInit <= windowMax
    }
  }

  const DEFAULT_CONFIG := Config(1200, 1, 256, 64, 300)

  /** What a pure ACK carries.  The protocol document defines the field as the cumulative
      acknowledgement; the code sends the number of the chunk that has just arrived. */
  datatype AckRule = Cumulative | Received

  /** Control stands for every packet type that leaves the stream state alone. */
  datatype Packet =
    | Data(seqNo: nat, ack: nat, payload: Bytes)
    | Ack(ack: nat)
    | Fin
    | Control

  datatype Entry = Entry(pkt: Packet, stamp: int)

  datatype Endpoint = Endpoint(
    sendSeq: nat,
    queue: map<nat, Entry>,
    window: nat,
    recvNext: nat,
    recvBuf: Bytes,
    outOfOrder: map<nat, Bytes>,
    closed: bool,
    peerClosed: bool)

  function Fresh(cfg: Config): Endpoint {
    Endpoint(0, map[], cfg.windowInit, 0, [], map[], false, false)
  }

  /** Queue entries are DATA packets filed under their own number. */
  predicate QueueFiled(queue: map<nat, Entry>) {
    forall s <- queue.Keys :: queue[s].pkt.Data? && queue[s].pkt.seqNo == s
  }

  // ---------- sending ----------

  /** The packet that the next chunk becomes. */
  function NextPacket(e: Endpoint, chunk: Bytes): Packet {
    Data(e.sendSeq, e.recvNext, chunk)
  }

  function Number(e: Endpoint, chunk: Bytes, now: int): Endpoint {
    e.(sendSeq := e.sendSeq + 1, queue := e.queue[e.sendSeq := Entry(NextPacket(e, chunk), now)])
  }

  /** The sender leaves its wait loop when this holds. */
  predicate MayTransmit(e: Endpoint) {
    |e.queue| < e.window || e.closed
  }

  predicate IsDue(cfg: Config, entry: Entry, now: int) {
    now - entry.stamp > cfg.rtoMs
  }

  function DueKeys(cfg: Config, e: Endpoint, now: int): set<nat> {
    set s | s in e.queue && IsDue(cfg, e.queue[s], now)
  }

  function DuePackets(cfg: Config, e: Endpoint, now: int): set<Packet> {
    PacketsOf(e.queue, DueKeys(cfg, e, now))
  }

  function PacketsOf(queue: map<nat, Entry>, keys: set<nat>): set<Packet>
    requires keys <= queue.Keys
  {
    set s | s in keys :: queue[s].pkt
  }

  lemma PacketsOfOne(queue: map<nat, Entry>, keys: set<nat>, k: nat)
    requires keys <= queue.Keys && k in queue && k !in keys && QueueFiled(queue)
    ensures PacketsOf(queue, keys + {k}) == PacketsOf(queue, keys) + {queue[k].pkt}
    ensures queue[k].pkt !in PacketsOf(queue, keys)
  {
  }

  lemma RestampOne(queue: map<nat, Entry>, keys: set<nat>, k: nat, now: int)
    requires k in queue && k !in keys
    ensures Restamp(queue, keys, now)[k] == queue[k]
    ensures Restamp(queue, keys + {k}, now) == Restamp(queue, keys, now)[k := queue[k].(stamp := now)]
  {
  }

  function Restamp(queue: map<nat, Entry>, keys: set<nat>, now: int): map<nat, Entry> {
    map s | s in queue :: if s in keys then queue[s].(stamp := now) else queue[s]
  }

  function Tick(cfg: Config, e: Endpoint, now: int): Endpoint {
    var due := DueKeys(cfg, e, now);
    e.(queue := Restamp(e.queue, due, now),
       window := if due == {} then e.window else Max(cfg.windowMin, e.window / 2))
  }

  function Acknowledge(cfg: Config, e: Endpoint, ack: nat): Endpoint {
    var kept := map s | s in e.queue && ack <= s :: e.queue[s];
    var advanced := |set s | s in e.queue && s < ack|;
    e.(queue := kept, window := if advanced == 0 then e.window else Min(cfg.windowMax, e.window + advanced))
  }

  /** What a pass of the retransmission thread does to a queued packet: it resends and restamps
      it exactly when more than the timeout has passed since it was last sent. */
  lemma DueExact(cfg: Config, e: Endpoint, now: int, k: nat)
    requires QueueFiled(e.queue) && k in e.queue
    ensures var sent := e.queue[k].stamp;
      && (e.queue[k].pkt in DuePackets(cfg, e, now) <==> now - sent > cfg.rtoMs)
      && Tick(cfg, e, now).queue[k] == Entry(e.queue[k].pkt, if now - sent > cfg.rtoMs then now else sent)
  {
  }

  lemma ResendExact(cfg: Config, e: Endpoint, now: int, resend: seq<Packet>)
    requires QueueFiled(e.queue) && multiset(resend) == multiset(DuePackets(cfg, e, now))
    ensures forall k <- e.queue.Keys :: e.queue[k].pkt in resend <==> now - e.queue[k].stamp > cfg.rtoMs
  {
    forall k <- e.queue.Keys ensures e.queue[k].pkt in resend <==> now - e.queue[k].stamp > cfg.rtoMs {
      DueExact(cfg, e, now, k);
      assert e.queue[k].pkt in resend <==> e.queue[k].pkt in multiset(resend);
    }
  }

  /** The pass halves the window, down to its minimum, exactly if it resends something. */
  lemma TickWindow(cfg: Config, e: Endpoint, now: int)
    ensures Tick(cfg, e, now).window ==
      if exists k :: k in e.queue && now - e.queue[k].stamp > cfg.rtoMs then Max(cfg.windowMin, e.window / 2)
      else e.window
  {
    var due := DueKeys(cfg, e, now);
    if k :| k in e.queue && now - e.queue[k].stamp > cfg.rtoMs {
      assert k in due;
    } else {
      assert due == {};
    }
  }

  // ---------- receiving ----------

  datatype Drained = Drained(next: nat, buf: Bytes, parked: map<nat, Bytes>)

  /** Moves parked chunks that have become consecutive into the buffer. */
  function Drain(next: nat, buf: Bytes, parked: map<nat, Bytes>): Drained
    decreases |parked|
  {
    if next in parked then
      assert |parked - {next}| < |parked| by { RemoveShrinks(parked, next); }
      Drain(next + 1, buf + parked[next], parked - {next})
    else
      Drained(next, buf, parked)
  }

  lemma RemoveShrinks(m: map<nat, Bytes>, k: nat)
    requires k in m
    ensures |m - {k}| == |m| - 1
  {
    assert (m - {k}).Keys == m.Keys - {k};
  }

  function Absorb(e: Endpoint, seqNo: nat, payload: Bytes): Endpoint {
    if seqNo == e.recvNext then
      var d := Drain(e.recvNext + 1, e.recvBuf + payload, e.outOfOrder);
      e.(recvNext := d.next, recvBuf := d.buf, outOfOrder := d.parked)
    else if seqNo > e.recvNext then
      e.(outOfOrder := e.outOfOrder[seqNo := payload])
    else e
  }

  function Receive(cfg: Config, e: Endpoint, p: Packet): Endpoint {
    if e.closed then e
    else match p
      case Data(seqNo, ack, payload) => Absorb(Acknowledge(cfg, e, ack), seqNo, payload)
      case Ack(ack) => Acknowledge(cfg, e, ack)
      case Fin => e.(peerClosed := true)
      case Control => e
  }

  /** The ACK value for chunk seqNo, given the receive cursor after the chunk was handled. */
  function AckValue(rule: AckRule, seqNo: nat, nextAfter: nat): nat {
    match rule
    case Cumulative => nextAfter
    case Received => seqNo
  }

  function Replies(cfg: Config, rule: AckRule, e: Endpoint, p: Packet): seq<Packet> {
    if e.closed || !p.Data? then []
    else [Ack(AckValue(rule, p.seqNo, Receive(cfg, e, p).recvNext))]
  }

  predicate MayRecv(e: Endpoint) {
    e.recvBuf != [] || e.peerClosed
  }

  function Taken(e: Endpoint, n: nat): Bytes {
    e.recvBuf[..Min(n, |e.recvBuf|)]
  }

  function Take(e: Endpoint, n: nat): Endpoint {
    e.(recvBuf := e.recvBuf[Min(n, |e.recvBuf|)..])
  }

  // ---------- what draining means ----------

  /** The chunks parked under lo, lo+1, .., hi-1, joined. */
  function Joined(parked: map<nat, Bytes>, lo: nat, hi: nat): Bytes
    requires lo <= hi
    requires forall k :: lo <= k < hi ==> k in parked
    decreases hi - lo
  {
    if lo == hi then [] else parked[lo] + Joined(parked, lo + 1, hi)
  }

  lemma JoinedSame(a: map<nat, Bytes>, b: map<nat, Bytes>, lo: nat, hi: nat)
    requires lo <= hi
    requires forall k :: lo <= k < hi ==> k in a && k in b && a[k] == b[k]
    ensures Joined(a, lo, hi) == Joined(b, lo, hi)
    decreases hi - lo
  {
    if lo == hi {
    } else {
      JoinedSame(a, b, lo + 1, hi);
    }
  }

  /** Draining stops at the first number that is not parked, moves exactly the run before it
      into the buffer in order, and leaves every later chunk parked. */
  lemma {:induction false} DrainMeaning(next: nat, buf: Bytes, parked: map<nat, Bytes>)
    ensures var d := Drain(next, buf, parked);
      && next <= d.next && d.next !in parked
      && (forall k :: next <= k < d.next ==> k in parked)
      && d.buf == buf + Joined(parked, next, d.next)
      && d.parked == map k | k in parked && !(next <= k < d.next) :: parked[k]
    decreases |parked|
  {
    if next !in parked {
    } else {
      RemoveShrinks(parked, next);
      var rest := parked - {next};
      DrainMeaning(next + 1, buf + parked[next], rest);
      JoinedSame(rest, parked, next + 1, Drain(next, buf, parked).next);
    }
  }

  // ---------- chunking ----------

  function Flatten(chunks: seq<Bytes>): Bytes {
    if chunks == [] then [] else Flatten(chunks[..|chunks| - 1]) + chunks[|chunks| - 1]
  }

  lemma {:induction false} FlattenSlice(chunks: seq<Bytes>, n: nat)
    requires n < |chunks|
    ensures Flatten(chunks[..n + 1]) == Flatten(chunks[..n]) + chunks[n]
  {
    assert chunks[..n + 1][..n] == chunks[..n];
  }

  lemma {:induction false} FlattenPrefix(chunks: seq<Bytes>, n: nat)
    requires n <= |chunks|
    ensures Flatten(chunks[..n]) <= Flatten(chunks)
    decreases |chunks| - n
  {
    if n == |chunks| {
      assert chunks[..n] == chunks;
    } else {
      FlattenSlice(chunks, n);
      FlattenPrefix(chunks, n + 1);
    }
  }

  /** The chunks one sendall call cuts its data into: nothing lost, nothing reordered, and
      every chunk non-empty and no longer than the payload limit. */
  method Cut(cfg: Config, data: Bytes) returns (chunks: seq<Bytes>)
    requires cfg.Valid()
    ensures Flatten(chunks) == data
    ensures forall c <- chunks :: 1 <= |c| <= cfg.maxPayload
    ensures forall i :: 0 <= i < |chunks| - 1 ==> |chunks[i]| == cfg.maxPayload
  {
    chunks := [];
    var offset := 0;
    while offset < |data|
      invariant 0 <= offset <= |data|
      invariant Flatten(chunks) == data[..offset]
      invariant forall c <- chunks :: 1 <= |c| <= cfg.maxPayload
      invariant offset < |data| ==> forall i :: 0 <= i < |chunks| ==> |chunks[i]| == cfg.maxPayload
      invariant forall i :: 0 <= i < |chunks| - 1 ==> |chunks[i]| == cfg.maxPayload
    {
      var chunk := data[offset..Min(offset + cfg.maxPayload, |data|)];
      assert (chunks + [chunk])[..|chunks|] == chunks;
      assert data[..offset] + chunk == data[..offset + |chunk|];
      chunks := chunks + [chunk];
      offset := offset + |chunk|;
    }
    assert data[..offset] == data;
  }

  // ---------- the socket ----------

  class UdpReliableSocket {
    const cfg: Config
    const rule: AckRule
    var sendSeq: nat
    var sendQueue: map<nat, Entry>
    var window: nat
    var recvNext: nat
    var recvBuf: Bytes
    var outOfOrder: map<nat, Bytes>
    var closed: bool
    var peerClosed: bool

    function State(): Endpoint
      reads this
    {
      Endpoint(sendSeq, sendQueue, window, recvNext, recvBuf, outOfOrder, closed, peerClosed)
    }

    ghost predicate Valid()
      reads this
    {
      QueueFiled(sendQueue) && forall s <- sendQueue.Keys :: s < sendSeq
    }

    constructor (cfg: Config, rule: AckRule)
      ensures this.cfg == cfg && this.rule == rule
      ensures Valid() && State() == Fresh(cfg)
    {
      this.cfg := cfg;
      this.rule := rule;
      sendSeq, sendQueue, window := 0, map[], cfg.windowInit;
      recvNext, recvBuf, outOfOrder := 0, [], map[];
      closed, peerClosed := false, false;
    }

    /** The first locked section of sendall's loop body. */
    method NumberChunk(chunk: Bytes, now: int) returns (pkt: Packet)
      requires Valid()
      modifies this
      ensures Valid() && State() == Number(old(State()), chunk, now)
      ensures pkt == NextPacket(old(State()), chunk)
    {
      var s := sendSeq;
      sendSeq := sendSeq + 1;
      pkt := Data(s, recvNext, chunk);
      sendQueue := sendQueue[s := Entry(pkt, now)];
    }

    method OnPacket(p: Packet) returns (out: seq<Packet>)
      requires Valid()
      modifies this
      ensures Valid() && State() == Receive(cfg, old(State()), p)
      ensures out == Replies(cfg, rule, old(State()), p)
    {
      out := [];
      if closed {
        return;
      }
      match p
      case Data(seqNo, ack, payload) => out := OnData(seqNo, ack, payload);
      case Ack(ack) => OnAck(ack);
      case Fin => peerClosed := true;
      case Control =>
    }

    method OnData(seqNo: nat, ack: nat, payload: Bytes) returns (out: seq<Packet>)
      requires Valid()
      modifies this
      ensures Valid()
      ensures State() == Absorb(Acknowledge(cfg, old(State()), ack), seqNo, payload)
      ensures out == [Ack(AckValue(rule, seqNo, recvNext))]
    {
      OnAck(ack);
      if seqNo == recvNext {
        recvBuf := recvBuf + payload;
        recvNext := recvNext + 1;
        ghost var goal := Drain(recvNext, recvBuf, outOfOrder);
        ghost var queued, width := sendQueue, window;
        while recvNext in outOfOrder
          invariant Drain(recvNext, recvBuf, outOfOrder) == goal
          invariant unchanged(`sendSeq) && unchanged(`closed) && unchanged(`peerClosed)
          invariant sendQueue == queued && window == width
          decreases |outOfOrder|
        {
          RemoveShrinks(outOfOrder, recvNext);
          recvBuf := recvBuf + outOfOrder[recvNext];
          outOfOrder := outOfOrder - {recvNext};
          recvNext := recvNext + 1;
        }
      } else if seqNo > recvNext {
        outOfOrder := outOfOrder[seqNo := payload];
      }
      out := [Ack(AckValue(rule, seqNo, recvNext))];
    }

    method OnAck(ack: nat)
      requires Valid()
      modifies this`sendQueue, this`window
      ensures Valid() && State() == Acknowledge(cfg, old(State()), ack)
    {
      ghost var was := sendQueue;
      var done := set s | s in sendQueue && s < ack;
      var advanced := |done|;
      var todo := done;
      while todo != {}
        invariant todo <= done && unchanged(`window)
        invariant forall s :: s in sendQueue <==> s in was && (ack <= s || s in todo)
        invariant forall s :: s in sendQueue ==> sendQueue[s] == was[s]
      {
        var s :| s in todo;
        sendQueue := sendQueue - {s};
        todo := todo - {s};
      }
      ghost var kept := map s | s in was && ack <= s :: was[s];
      assert sendQueue == kept;
      if advanced > 0 {
        window := Min(cfg.windowMax, window + advanced);
      }
    }

    /** One pass of the retransmission thread. */
    method RetransmitTick(now: int) returns (resend: seq<Packet>)
      requires Valid()
      modifies this`sendQueue, this`window
      ensures Valid() && State() == Tick(cfg, old(State()), now)
      ensures multiset(resend) == multiset(DuePackets(cfg, old(State()), now))
      ensures forall k <- old(sendQueue).Keys ::
        old(sendQueue)[k].pkt in resend <==> now - old(sendQueue)[k].stamp > cfg.rtoMs
    {
      resend := [];
      ghost var queue := sendQueue;
      var keys := sendQueue.Keys;
      ghost var picked: set<nat> := {};
      while keys != {}
        invariant keys <= queue.Keys && unchanged(`window)
        invariant picked <= queue.Keys && picked !! keys
        invariant forall s <- queue.Keys - keys :: s in picked <==> IsDue(cfg, queue[s], now)
        invariant sendQueue == Restamp(queue, picked, now)
        invariant multiset(resend) == multiset(PacketsOf(queue, picked))
        invariant resend == [] <==> picked == {}
      {
        var s :| s in keys;
        keys := keys - {s};
        assert sendQueue[s] == queue[s];
        if IsDue(cfg, sendQueue[s], now) {
          RestampOne(queue, picked, s, now);
          PacketsOfOne(queue, picked, s);
          resend := resend + [sendQueue[s].pkt];
          sendQueue := sendQueue[s := sendQueue[s].(stamp := now)];
          picked := picked + {s};
        }
      }
      assert picked == DueKeys(cfg, old(State()), now);
      ResendExact(cfg, old(State()), now, resend);
      if resend != [] {
        window := Max(cfg.windowMin, window / 2);
      }
    }

    /** recv once it no longer blocks: data is buffered or the peer has closed. */
    method Recv(n: nat) returns (data: Bytes)
      requires MayRecv(State())
      modifies this`recvBuf
      ensures State() == Take(old(State()), n)
      ensures data == Taken(old(State()), n)
    {
      if recvBuf == [] {
        return [];
      }
      var take := Min(n, |recvBuf|);
      data := recvBuf[..take];
      recvBuf := recvBuf[take..];
    }

    method Close() returns (out: seq<Packet>)
      modifies this`closed
      ensures State() == old(State()).(closed := true)
      ensures out == if old(closed) then [] else [Fin]
    {
      out := if closed then [] else [Fin];
      closed := true;
    }
  }
}
