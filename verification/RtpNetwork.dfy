/** Two endpoints of the reliable byte stream over a network that may lose, duplicate and
    reorder packets but never alters one.  Every step is one locked section of one socket
    or one misdeed of the network; the theorems hold for every legal run of steps. */
module RtpNetwork {
  import opened Basics
  import opened RtpEndpoint

  /** An endpoint with what its users see: the chunks it has numbered, the packets its
      sending threads hold while waiting for the window, the bytes recv has returned, and
      whether the retransmission thread has made its last pass. */
  datatype Node = Node(ep: Endpoint, sent: seq<Bytes>, waiting: multiset<Packet>, got: Bytes, ended: bool)

  datatype System = System(l: Node, r: Node, toL: multiset<Packet>, toR: multiset<Packet>)

  function Start(cfg: Config): System {
    var node := Node(Fresh(cfg), [], multiset{}, [], false);
    System(node, node, multiset{}, multiset{})
  }

  function Flip(s: System): System {
    System(s.r, s.l, s.toR, s.toL)
  }

  datatype Action =
    | NumberChunk(chunk: Bytes, now: int)
    | Transmit(pkt: Packet)
    | RetransmitTick(now: int)
    | Deliver(pkt: Packet)
    | Drop(pkt: Packet)
    | Duplicate(pkt: Packet)
    | Recv(n: nat)
    | Signal
    | Close

  /** An action of the left node, or of the network on packets travelling to it;
      for the right node the picture is mirrored. */
  datatype Move = Move(atLeft: bool, act: Action)

  /** The thread looks at the socket between two passes, so one may follow the closing. */
  predicate MayTick(n: Node) {
    !n.ep.closed || !n.ended
  }

  predicate EnabledLeft(cfg: Config, s: System, a: Action) {
    match a
    case NumberChunk(chunk, _) => 1 <= |chunk| <= cfg.maxPayload
    case Transmit(p) => p in s.l.waiting && MayTransmit(s.l.ep)
    case RetransmitTick(_) => MayTick(s.l)
    case Deliver(p) => p in s.toL
    case Drop(p) => p in s.toL
    case Duplicate(p) => p in s.toL
    case Recv(_) => MayRecv(s.l.ep)
    case _ => true
  }

  function StepLeft(cfg: Config, rule: AckRule, s: System, a: Action): System
    requires EnabledLeft(cfg, s, a)
  {
    var ep := s.l.ep;
    match a
    case NumberChunk(chunk, now) =>
      s.(l := s.l.(ep := Number(ep, chunk, now), sent := s.l.sent + [chunk],
                   waiting := s.l.waiting + multiset{NextPacket(ep, chunk)}))
    case Transmit(p) => s.(l := s.l.(waiting := s.l.waiting - multiset{p}), toR := s.toR + multiset{p})
    case RetransmitTick(now) =>
      s.(l := s.l.(ep := Tick(cfg, ep, now), ended := ep.closed), toR := s.toR + multiset(DuePackets(cfg, ep, now)))
    case Deliver(p) =>
      s.(l := s.l.(ep := Receive(cfg, ep, p)), toL := s.toL - multiset{p},
         toR := s.toR + multiset(Replies(cfg, rule, ep, p)))
    case Drop(p) => s.(toL := s.toL - multiset{p})
    case Duplicate(p) => s.(toL := s.toL + multiset{p})
    case Recv(n) => s.(l := s.l.(ep := Take(ep, n), got := s.l.got + Taken(ep, n)))
    case Signal => s.(toR := s.toR + multiset{Control})
    case Close =>
      s.(l := s.l.(ep := ep.(closed := true)), toR := if ep.closed then s.toR else s.toR + multiset{Fin})
  }

  predicate Enabled(cfg: Config, s: System, m: Move) {
    EnabledLeft(cfg, if m.atLeft then s else Flip(s), m.act)
  }

  function Step(cfg: Config, rule: AckRule, s: System, m: Move): System
    requires Enabled(cfg, s, m)
  {
    if m.atLeft then StepLeft(cfg, rule, s, m.act) else Flip(StepLeft(cfg, rule, Flip(s), m.act))
  }

  predicate Legal(cfg: Config, rule: AckRule, s: System, run: seq<Move>)
    decreases |run|
  {
    run == [] || (Enabled(cfg, s, run[0]) && Legal(cfg, rule, Step(cfg, rule, s, run[0]), run[1..]))
  }

  function Run(cfg: Config, rule: AckRule, s: System, run: seq<Move>): System
    requires Legal(cfg, rule, s, run)
    decreases |run|
  {
    if run == [] then s else Run(cfg, rule, Step(cfg, rule, s, run[0]), run[1..])
  }

  // ---------- prefix safety ----------

  predicate Faithful(p: Packet, sent: seq<Bytes>) {
    p.Data? ==> p.seqNo < |sent| && p.payload == sent[p.seqNo]
  }

  ghost predicate AllFaithful(net: multiset<Packet>, sent: seq<Bytes>) {
    forall p :: p in net ==> Faithful(p, sent)
  }

  /** The unacknowledged chunks are a contiguous range that ends at the newest one. */
  ghost predicate QueueContiguous(e: Endpoint) {
    && QueueFiled(e.queue)
    && (forall s <- e.queue.Keys :: s < e.sendSeq)
    && (forall i, j :: i in e.queue && i <= j < e.sendSeq ==> j in e.queue)
  }

  ghost predicate SenderOk(s: Node, net: multiset<Packet>) {
    && |s.sent| == s.ep.sendSeq
    && QueueContiguous(s.ep)
    && (forall k <- s.ep.queue.Keys :: s.ep.queue[k].pkt.payload == s.sent[k])
    && AllFaithful(s.waiting, s.sent)
    && AllFaithful(net, s.sent)
  }

  predicate ReceiverOk(sent: seq<Bytes>, r: Node) {
    && r.ep.recvNext <= |sent|
    && r.got + r.ep.recvBuf == Flatten(sent[..r.ep.recvNext])
    && (forall k <- r.ep.outOfOrder.Keys :: r.ep.recvNext < k < |sent| && r.ep.outOfOrder[k] == sent[k])
  }

  /** The stream from the left node to the right node is intact. */
  ghost predicate Flow(s: System) {
    SenderOk(s.l, s.toR) && ReceiverOk(s.l.sent, s.r)
  }

  ghost predicate Sound(s: System) {
    Flow(s) && Flow(Flip(s))
  }

  lemma JoinedFlatten(sent: seq<Bytes>, parked: map<nat, Bytes>, lo: nat, hi: nat)
    requires lo <= hi <= |sent|
    requires forall k :: lo <= k < hi ==> k in parked && parked[k] == sent[k]
    ensures Flatten(sent[..hi]) == Flatten(sent[..lo]) + Joined(parked, lo, hi)
    decreases hi - lo
  {
    if lo == hi {
    } else {
      JoinedFlatten(sent, parked, lo + 1, hi);
      FlattenSlice(sent, lo);
    }
  }

  /** Taking in a chunk that was really sent keeps the receiver's side of the stream. */
  lemma AbsorbKeeps(sent: seq<Bytes>, r: Node, seqNo: nat)
    requires ReceiverOk(sent, r) && seqNo < |sent|
    ensures ReceiverOk(sent, r.(ep := Absorb(r.ep, seqNo, sent[seqNo])))
    ensures r.ep.recvNext <= Absorb(r.ep, seqNo, sent[seqNo]).recvNext
  {
    var e := r.ep;
    if seqNo == e.recvNext {
      var n := e.recvNext + 1;
      DrainMeaning(n, e.recvBuf + sent[seqNo], e.outOfOrder);
      var d := Drain(n, e.recvBuf + sent[seqNo], e.outOfOrder);
      assert d.next == n || d.next - 1 in e.outOfOrder;
      FlattenSlice(sent, seqNo);
      JoinedFlatten(sent, e.outOfOrder, n, d.next);
      assert r.got + (e.recvBuf + sent[seqNo]) == Flatten(sent[..n]);
      assert r.got + d.buf == Flatten(sent[..n]) + Joined(e.outOfOrder, n, d.next);
    }
  }

  lemma NumberKeepsSender(n: Node, chunk: Bytes, now: int, net: multiset<Packet>)
    requires SenderOk(n, net)
    ensures SenderOk(n.(ep := Number(n.ep, chunk, now), sent := n.sent + [chunk],
                        waiting := n.waiting + multiset{NextPacket(n.ep, chunk)}), net)
  {
  }

  lemma TickKeepsSender(cfg: Config, n: Node, now: int, net: multiset<Packet>)
    requires SenderOk(n, net)
    ensures SenderOk(n.(ep := Tick(cfg, n.ep, now), ended := n.ep.closed), net + multiset(DuePackets(cfg, n.ep, now)))
  {
    var due := DuePackets(cfg, n.ep, now);
    assert forall p :: p in due ==> Faithful(p, n.sent);
    assert Tick(cfg, n.ep, now).queue.Keys == n.ep.queue.Keys;
  }

  lemma ReceiveKeepsSender(cfg: Config, rule: AckRule, n: Node, p: Packet, net: multiset<Packet>)
    requires SenderOk(n, net)
    ensures SenderOk(n.(ep := Receive(cfg, n.ep, p)), net + multiset(Replies(cfg, rule, n.ep, p)))
  {
    var out := Replies(cfg, rule, n.ep, p);
    assert forall q :: q in multiset(out) ==> q in out && Faithful(q, n.sent);
  }

  lemma SenderStep(cfg: Config, rule: AckRule, s: System, a: Action)
    requires EnabledLeft(cfg, s, a) && SenderOk(s.l, s.toR)
    ensures var t := StepLeft(cfg, rule, s, a); SenderOk(t.l, t.toR)
  {
    match a
    case NumberChunk(chunk, now) => NumberKeepsSender(s.l, chunk, now, s.toR);
    case RetransmitTick(now) => TickKeepsSender(cfg, s.l, now, s.toR);
    case Deliver(p) => ReceiveKeepsSender(cfg, rule, s.l, p, s.toR);
    case _ =>
  }

  /** What the left node does as a sender never disturbs what the right node has received. */
  lemma ReceiverKeepsOnGrowth(cfg: Config, rule: AckRule, s: System, a: Action)
    requires EnabledLeft(cfg, s, a) && ReceiverOk(s.l.sent, s.r)
    ensures ReceiverOk(StepLeft(cfg, rule, s, a).l.sent, s.r)
  {
    if a.NumberChunk? {
      assert (s.l.sent + [a.chunk])[..s.r.ep.recvNext] == s.l.sent[..s.r.ep.recvNext];
    }
  }

  lemma ReceiveKeepsReceiver(cfg: Config, sent: seq<Bytes>, r: Node, p: Packet)
    requires ReceiverOk(sent, r) && Faithful(p, sent)
    ensures ReceiverOk(sent, r.(ep := Receive(cfg, r.ep, p)))
    ensures r.ep.recvNext <= Receive(cfg, r.ep, p).recvNext
  {
    if p.Data? && !r.ep.closed {
      AbsorbKeeps(sent, r.(ep := Acknowledge(cfg, r.ep, p.ack)), p.seqNo);
    }
  }

  lemma TakeKeepsReceiver(sent: seq<Bytes>, r: Node, n: nat)
    requires ReceiverOk(sent, r)
    ensures ReceiverOk(sent, r.(ep := Take(r.ep, n), got := r.got + Taken(r.ep, n)))
  {
    assert r.ep.recvBuf == Taken(r.ep, n) + Take(r.ep, n).recvBuf;
  }

  lemma ReceiverStep(cfg: Config, rule: AckRule, s: System, a: Action)
    requires EnabledLeft(cfg, s, a) && ReceiverOk(s.r.sent, s.l) && AllFaithful(s.toL, s.r.sent)
    ensures var t := StepLeft(cfg, rule, s, a);
      ReceiverOk(t.r.sent, t.l) && AllFaithful(t.toL, t.r.sent) && s.l.ep.recvNext <= t.l.ep.recvNext
  {
    match a
    case Deliver(p) => ReceiveKeepsReceiver(cfg, s.r.sent, s.l, p);
    case Recv(n) => TakeKeepsReceiver(s.r.sent, s.l, n);
    case _ =>
  }

  lemma StepSound(cfg: Config, rule: AckRule, s: System, m: Move)
    requires Enabled(cfg, s, m) && Sound(s)
    ensures Sound(Step(cfg, rule, s, m))
  {
    var t := if m.atLeft then s else Flip(s);
    SenderStep(cfg, rule, t, m.act);
    ReceiverKeepsOnGrowth(cfg, rule, t, m.act);
    ReceiverStep(cfg, rule, t, m.act);
  }

  lemma {:induction false} RunSound(cfg: Config, rule: AckRule, s: System, run: seq<Move>)
    requires Sound(s) && Legal(cfg, rule, s, run)
    ensures Sound(Run(cfg, rule, s, run))
    decreases |run|
  {
    if run == [] {
    } else {
      StepSound(cfg, rule, s, run[0]);
      RunSound(cfg, rule, Step(cfg, rule, s, run[0]), run[1..]);
    }
  }

  lemma StartSound(cfg: Config)
    ensures Sound(Start(cfg))
  {
  }

  /** Whatever the network does and whatever an ACK carries: the bytes recv has returned,
      followed by the bytes still buffered, are exactly the peer's chunks up to the receive
      cursor, in order, none missing and none repeated; only later chunks are parked. */
  lemma PrefixSafety(cfg: Config, rule: AckRule, run: seq<Move>)
    requires Legal(cfg, rule, Start(cfg), run)
    ensures var s := Run(cfg, rule, Start(cfg), run);
      && s.r.ep.recvNext <= |s.l.sent| && s.l.ep.recvNext <= |s.r.sent|
      && s.r.got + s.r.ep.recvBuf == Flatten(s.l.sent[..s.r.ep.recvNext])
      && s.l.got + s.l.ep.recvBuf == Flatten(s.r.sent[..s.l.ep.recvNext])
      && s.r.got <= Flatten(s.l.sent) && s.l.got <= Flatten(s.r.sent)
      && (forall k <- s.r.ep.outOfOrder.Keys :: s.r.ep.recvNext < k < |s.l.sent|)
      && (forall k <- s.l.ep.outOfOrder.Keys :: s.l.ep.recvNext < k < |s.r.sent|)
  {
    StartSound(cfg);
    RunSound(cfg, rule, Start(cfg), run);
    var s := Run(cfg, rule, Start(cfg), run);
    FlattenPrefix(s.l.sent, s.r.ep.recvNext);
    FlattenPrefix(s.r.sent, s.l.ep.recvNext);
  }

  // ---------- from sendall to recv ----------

  /** The chunks of a series of sendall calls, one list of chunks a call. */
  function AllChunks(calls: seq<seq<Bytes>>): seq<Bytes> {
    if calls == [] then [] else AllChunks(calls[..|calls| - 1]) + calls[|calls| - 1]
  }

  /** The data of those calls, given that each call's chunks are its data cut up. */
  function AllData(calls: seq<seq<Bytes>>): Bytes {
    if calls == [] then [] else AllData(calls[..|calls| - 1]) + Flatten(calls[|calls| - 1])
  }

  lemma {:induction false} FlattenAppend(a: seq<Bytes>, b: seq<Bytes>)
    ensures Flatten(a + b) == Flatten(a) + Flatten(b)
    decreases |b|
  {
    if b == [] {
      assert a + b == a;
    } else {
      var n := |b| - 1;
      assert (a + b)[..|a + b| - 1] == a + b[..n];
      FlattenAppend(a, b[..n]);
    }
  }

  lemma {:induction false} ChunksCarryData(calls: seq<seq<Bytes>>)
    ensures Flatten(AllChunks(calls)) == AllData(calls)
    decreases |calls|
  {
    if calls == [] {
    } else {
      var n := |calls| - 1;
      ChunksCarryData(calls[..n]);
      FlattenAppend(AllChunks(calls[..n]), calls[n]);
    }
  }

  /** What one side reads is a prefix of what the other side passed to sendall, whichever
      part of the last calls has been numbered so far. */
  lemma EndToEnd(cfg: Config, rule: AckRule, run: seq<Move>, calls: seq<seq<Bytes>>)
    requires Legal(cfg, rule, Start(cfg), run)
    requires Run(cfg, rule, Start(cfg), run).l.sent <= AllChunks(calls)
    ensures Run(cfg, rule, Start(cfg), run).r.got <= AllData(calls)
  {
    PrefixSafety(cfg, rule, run);
    var sent := Run(cfg, rule, Start(cfg), run).l.sent;
    FlattenPrefix(AllChunks(calls), |sent|);
    assert AllChunks(calls)[..|sent|] == sent;
    ChunksCarryData(calls);
  }
}
