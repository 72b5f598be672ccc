/** When does the sender keep every chunk that the peer still needs?  Always, if a pure ACK
    is cumulative; with the ACK value the code sends, exactly as long as no chunk arrives
    ahead of the receive cursor. */
module RtpRetention {
  import opened Basics
  import opened RtpEndpoint
  import opened RtpNetwork

  /** Chunks that the right node has not delivered in order are still queued on the left. */
  ghost predicate Retained(s: System) {
    forall k :: s.r.ep.recvNext <= k < s.l.ep.sendSeq ==> k in s.l.ep.queue
  }

  function AckOf(p: Packet): nat {
    match p
    case Data(_, ack, _) => ack
    case Ack(ack) => ack
    case _ => 0
  }

  ghost predicate AcksBelow(net: multiset<Packet>, n: nat) {
    forall p :: p in net ==> AckOf(p) <= n
  }

  /** No packet that n has sent, holds or may resend acknowledges a chunk from bound on. */
  ghost predicate Honest(n: Node, net: multiset<Packet>, bound: nat) {
    && AcksBelow(net, bound)
    && AcksBelow(n.waiting, bound)
    && (forall k <- n.ep.queue.Keys :: AckOf(n.ep.queue[k].pkt) <= bound)
  }

  ghost predicate Keeps(s: System) {
    Retained(s) && Honest(s.r, s.toL, s.r.ep.recvNext)
  }

  /** The move hands the right node a chunk from beyond its receive cursor. */
  predicate ArrivesAhead(s: System, m: Move) {
    !m.atLeft && m.act.Deliver? && m.act.pkt.Data? && !s.r.ep.closed && m.act.pkt.seqNo > s.r.ep.recvNext
  }

  predicate NoneAhead(cfg: Config, rule: AckRule, s: System, run: seq<Move>)
    requires Legal(cfg, rule, s, run)
    decreases |run|
  {
    run == [] || (!ArrivesAhead(s, run[0]) && NoneAhead(cfg, rule, Step(cfg, rule, s, run[0]), run[1..]))
  }

  lemma LeftMoveKeeps(cfg: Config, rule: AckRule, s: System, a: Action)
    requires EnabledLeft(cfg, s, a) && Keeps(s)
    ensures Keeps(StepLeft(cfg, rule, s, a))
  {
    match a
    case NumberChunk(chunk, now) =>
      assert Number(s.l.ep, chunk, now).queue.Keys == s.l.ep.queue.Keys + {s.l.ep.sendSeq};
    case Deliver(p) => ReceiveRetains(cfg, s.l.ep, p, s.r.ep.recvNext);
    case RetransmitTick(now) => assert Tick(cfg, s.l.ep, now).queue.Keys == s.l.ep.queue.Keys;
    case _ =>
  }

  lemma ReceiveRetains(cfg: Config, e: Endpoint, p: Packet, next: nat)
    requires AckOf(p) <= next
    ensures forall k :: next <= k && k in e.queue ==> k in Receive(cfg, e, p).queue
    ensures Receive(cfg, e, p).sendSeq == e.sendSeq
  {
    AcknowledgeRetains(cfg, e, AckOf(p), next);
    assert Receive(cfg, e, p).queue ==
      if e.closed || !(p.Data? || p.Ack?) then e.queue else Acknowledge(cfg, e, AckOf(p)).queue;
  }

  lemma AcknowledgeRetains(cfg: Config, e: Endpoint, ack: nat, next: nat)
    requires ack <= next
    ensures forall k :: next <= k && k in e.queue ==> k in Acknowledge(cfg, e, ack).queue
  {
  }

  lemma ReplyHonest(cfg: Config, rule: AckRule, s: System, p: Packet)
    requires Sound(s) && p in s.toR
    requires rule == Received ==> !ArrivesAhead(s, Move(false, Deliver(p)))
    ensures var e := Receive(cfg, s.r.ep, p);
      s.r.ep.recvNext <= e.recvNext && AcksBelow(multiset(Replies(cfg, rule, s.r.ep, p)), e.recvNext)
  {
    ReceiverStep(cfg, rule, Flip(s), Deliver(p));
    assert Faithful(p, s.l.sent);
    if p.Data? && !s.r.ep.closed && p.seqNo == s.r.ep.recvNext {
      DrainMeaning(s.r.ep.recvNext + 1, s.r.ep.recvBuf + p.payload, s.r.ep.outOfOrder);
    }
    assert forall q :: q in multiset(Replies(cfg, rule, s.r.ep, p)) ==> q in Replies(cfg, rule, s.r.ep, p);
  }

  lemma TickHonest(cfg: Config, n: Node, now: int, net: multiset<Packet>, bound: nat)
    requires Honest(n, net, bound)
    ensures Honest(n.(ep := Tick(cfg, n.ep, now), ended := n.ep.closed),
                   net + multiset(DuePackets(cfg, n.ep, now)), bound)
  {
    assert forall p :: p in DuePackets(cfg, n.ep, now) ==> AckOf(p) <= bound;
  }

  lemma DeliverHonest(cfg: Config, rule: AckRule, s: System, p: Packet)
    requires Sound(s) && p in s.toR && Honest(s.r, s.toL, s.r.ep.recvNext)
    requires rule == Received ==> !ArrivesAhead(s, Move(false, Deliver(p)))
    ensures var e := Receive(cfg, s.r.ep, p);
      && s.r.ep.recvNext <= e.recvNext
      && Honest(s.r.(ep := e), s.toL + multiset(Replies(cfg, rule, s.r.ep, p)), e.recvNext)
  {
    ReplyHonest(cfg, rule, s, p);
    var e := Receive(cfg, s.r.ep, p);
    assert forall k <- e.queue.Keys :: k in s.r.ep.queue && e.queue[k] == s.r.ep.queue[k];
  }

  lemma RightMoveKeeps(cfg: Config, rule: AckRule, s: System, a: Action)
    requires EnabledLeft(cfg, Flip(s), a) && Sound(s) && Keeps(s)
    requires rule == Received ==> !ArrivesAhead(s, Move(false, a))
    ensures Keeps(Flip(StepLeft(cfg, rule, Flip(s), a)))
  {
    match a
    case Deliver(p) => DeliverHonest(cfg, rule, s, p);
    case RetransmitTick(now) => TickHonest(cfg, s.r, now, s.toL, s.r.ep.recvNext);
    case _ => OtherHonest(cfg, rule, s, a, s.r.ep.recvNext);
  }

  /** What the right node does by itself or the network with its packets acknowledges no more. */
  lemma OtherHonest(cfg: Config, rule: AckRule, s: System, a: Action, bound: nat)
    requires EnabledLeft(cfg, Flip(s), a) && Honest(s.r, s.toL, bound) && !a.Deliver? && !a.RetransmitTick?
    requires a.NumberChunk? ==> s.r.ep.recvNext <= bound
    ensures var t := Flip(StepLeft(cfg, rule, Flip(s), a));
      t.l == s.l && t.r.ep.recvNext == s.r.ep.recvNext && Honest(t.r, t.toL, bound)
  {
    match a
    case NumberChunk(chunk, now) => NumberHonest(s.r.ep, chunk, now, bound);
    case _ =>
  }

  lemma NumberHonest(e: Endpoint, chunk: Bytes, now: int, bound: nat)
    requires e.recvNext <= bound && forall k <- e.queue.Keys :: AckOf(e.queue[k].pkt) <= bound
    ensures AckOf(NextPacket(e, chunk)) <= bound
    ensures forall k <- Number(e, chunk, now).queue.Keys :: AckOf(Number(e, chunk, now).queue[k].pkt) <= bound
  {
  }

  lemma {:induction false} RunKeeps(cfg: Config, rule: AckRule, s: System, run: seq<Move>)
    requires Sound(s) && Keeps(s) && Legal(cfg, rule, s, run)
    requires rule == Received ==> NoneAhead(cfg, rule, s, run)
    ensures Sound(Run(cfg, rule, s, run)) && Keeps(Run(cfg, rule, s, run))
    decreases |run|
  {
    if run == [] {
    } else {
      var m := run[0];
      StepSound(cfg, rule, s, m);
      if m.atLeft {
        LeftMoveKeeps(cfg, rule, s, m.act);
      } else {
        RightMoveKeeps(cfg, rule, s, m.act);
      }
      RunKeeps(cfg, rule, Step(cfg, rule, s, m), run[1..]);
    }
  }

  /** With the documented cumulative ACK every numbered chunk is delivered in order or still
      queued for retransmission, however many packets are lost. */
  lemma CumulativeRetains(cfg: Config, run: seq<Move>)
    requires Legal(cfg, Cumulative, Start(cfg), run)
    ensures var s := Run(cfg, Cumulative, Start(cfg), run);
      && |s.l.sent| == s.l.ep.sendSeq
      && forall k :: 0 <= k < |s.l.sent| ==> k < s.r.ep.recvNext || k in s.l.ep.queue
  {
    StartSound(cfg);
    RunKeeps(cfg, Cumulative, Start(cfg), run);
  }

  /** With the coded ACK the same holds for every run, lossy or not, in which no chunk
      arrives ahead of the receive cursor. */
  lemma ReceivedRetainsInOrder(cfg: Config, run: seq<Move>)
    requires Legal(cfg, Received, Start(cfg), run)
    requires NoneAhead(cfg, Received, Start(cfg), run)
    ensures var s := Run(cfg, Received, Start(cfg), run);
      && |s.l.sent| == s.l.ep.sendSeq
      && forall k :: 0 <= k < |s.l.sent| ==> k < s.r.ep.recvNext || k in s.l.ep.queue
  {
    StartSound(cfg);
    RunKeeps(cfg, Received, Start(cfg), run);
  }

  // ---------- losing a chunk for good ----------

  ghost predicate NoCopy(net: multiset<Packet>, k: nat) {
    forall p :: p in net ==> !(p.Data? && p.seqNo == k)
  }

  /** Nothing n holds or has sent carries chunk k, and n will not resend it: the chunk is not
      queued, or the retransmission thread has ended. */
  ghost predicate Gone(n: Node, net: multiset<Packet>, k: nat) {
    k < n.ep.sendSeq && (k !in n.ep.queue || !MayTick(n)) && NoCopy(n.waiting, k) && NoCopy(net, k)
  }

  /** Chunk k was numbered on the left, the right node still needs it, and nobody will send it. */
  ghost predicate Stranded(s: System, k: nat) {
    s.r.ep.recvNext <= k && k !in s.r.ep.outOfOrder && Gone(s.l, s.toR, k)
  }

  /** Even no copy exists: not queued, not held by a sending thread, not in the network, not
      parked. */
  ghost predicate Lost(s: System, k: nat) {
    && s.r.ep.recvNext <= k < s.l.ep.sendSeq
    && k !in s.l.ep.queue && k !in s.r.ep.outOfOrder
    && NoCopy(s.l.waiting, k) && NoCopy(s.toR, k)
  }

  lemma AbsorbStops(e: Endpoint, seqNo: nat, payload: Bytes, k: nat)
    requires e.recvNext <= k && k !in e.outOfOrder && seqNo != k
    ensures var f := Absorb(e, seqNo, payload); f.recvNext <= k && k !in f.outOfOrder
  {
    if seqNo == e.recvNext {
      DrainMeaning(e.recvNext + 1, e.recvBuf + payload, e.outOfOrder);
    }
  }

  lemma TickGone(cfg: Config, n: Node, now: int, net: multiset<Packet>, k: nat)
    requires Gone(n, net, k) && QueueFiled(n.ep.queue) && MayTick(n)
    ensures Gone(n.(ep := Tick(cfg, n.ep, now), ended := n.ep.closed), net + multiset(DuePackets(cfg, n.ep, now)), k)
  {
    assert forall p :: p in DuePackets(cfg, n.ep, now) ==> p.seqNo != k;
  }

  lemma DeliverGone(cfg: Config, rule: AckRule, n: Node, p: Packet, net: multiset<Packet>, k: nat)
    requires Gone(n, net, k)
    ensures Gone(n.(ep := Receive(cfg, n.ep, p)), net + multiset(Replies(cfg, rule, n.ep, p)), k)
  {
    var out := Replies(cfg, rule, n.ep, p);
    assert forall q :: q in multiset(out) ==> q in out && q.Ack?;
  }

  lemma NumberGone(n: Node, chunk: Bytes, now: int, net: multiset<Packet>, k: nat)
    requires Gone(n, net, k)
    ensures Gone(n.(ep := Number(n.ep, chunk, now), sent := n.sent + [chunk],
                    waiting := n.waiting + multiset{NextPacket(n.ep, chunk)}), net, k)
  {
  }

  lemma LeftMoveGone(cfg: Config, rule: AckRule, s: System, a: Action, k: nat)
    requires EnabledLeft(cfg, s, a) && QueueFiled(s.l.ep.queue) && Gone(s.l, s.toR, k)
    ensures var t := StepLeft(cfg, rule, s, a); Gone(t.l, t.toR, k)
  {
    match a
    case NumberChunk(chunk, now) => NumberGone(s.l, chunk, now, s.toR, k);
    case Deliver(p) => DeliverGone(cfg, rule, s.l, p, s.toR, k);
    case RetransmitTick(now) => TickGone(cfg, s.l, now, s.toR, k);
    case _ =>
  }

  /** What has left the queue does not come back. */
  lemma LeftMoveUnqueued(cfg: Config, rule: AckRule, s: System, a: Action, k: nat)
    requires EnabledLeft(cfg, s, a) && k < s.l.ep.sendSeq && k !in s.l.ep.queue
    ensures k !in StepLeft(cfg, rule, s, a).l.ep.queue
  {
    match a
    case Deliver(p) => ReceiveShrinks(cfg, s.l.ep, p);
    case _ =>
  }

  lemma ReceiveShrinks(cfg: Config, e: Endpoint, p: Packet)
    ensures forall k <- Receive(cfg, e, p).queue.Keys :: k in e.queue && Receive(cfg, e, p).queue[k] == e.queue[k]
  {
  }

  lemma RightMoveStranded(cfg: Config, rule: AckRule, s: System, a: Action, k: nat)
    requires EnabledLeft(cfg, Flip(s), a) && Stranded(s, k)
    ensures Stranded(Flip(StepLeft(cfg, rule, Flip(s), a)), k)
  {
    if a.Deliver? && a.pkt.Data? && !s.r.ep.closed {
      AbsorbStops(Acknowledge(cfg, s.r.ep, a.pkt.ack), a.pkt.seqNo, a.pkt.payload, k);
    }
  }

  /** A stranded chunk stays stranded, and the receive cursor never passes it. */
  lemma {:induction false} StrandedForever(cfg: Config, rule: AckRule, s: System, run: seq<Move>, k: nat)
    requires Sound(s) && Stranded(s, k) && Legal(cfg, rule, s, run)
    ensures var t := Run(cfg, rule, s, run);
      Stranded(t, k) && t.r.ep.recvNext <= k && (k !in s.l.ep.queue ==> k !in t.l.ep.queue)
    decreases |run|
  {
    if run == [] {
    } else {
      var m := run[0];
      StepSound(cfg, rule, s, m);
      if m.atLeft {
        LeftMoveGone(cfg, rule, s, m.act, k);
        if k !in s.l.ep.queue {
          LeftMoveUnqueued(cfg, rule, s, m.act, k);
        }
      } else {
        RightMoveStranded(cfg, rule, s, m.act, k);
      }
      StrandedForever(cfg, rule, Step(cfg, rule, s, m), run[1..], k);
    }
  }

  /** A lost chunk stays lost: in every continuation the receive cursor never passes it, so
      the stream is stuck for ever. */
  lemma LostForever(cfg: Config, rule: AckRule, s: System, run: seq<Move>, k: nat)
    requires Sound(s) && Lost(s, k) && Legal(cfg, rule, s, run)
    ensures var t := Run(cfg, rule, s, run); Lost(t, k) && t.r.ep.recvNext <= k
  {
    StrandedForever(cfg, rule, s, run, k);
  }

  lemma {:induction false} RunAppend(cfg: Config, rule: AckRule, s: System, a: seq<Move>, b: seq<Move>)
    requires Legal(cfg, rule, s, a) && Legal(cfg, rule, Run(cfg, rule, s, a), b)
    ensures Legal(cfg, rule, s, a + b)
    ensures Run(cfg, rule, s, a + b) == Run(cfg, rule, Run(cfg, rule, s, a), b)
    ensures NoneAhead(cfg, rule, s, a) && NoneAhead(cfg, rule, Run(cfg, rule, s, a), b)
            ==> NoneAhead(cfg, rule, s, a + b)
    decreases |a|
  {
    if a == [] {
      assert a + b == b;
    } else {
      assert (a + b)[1..] == a[1..] + b;
      RunAppend(cfg, rule, Step(cfg, rule, s, a[0]), a[1..], b);
    }
  }

  /** The network can drop every copy of chunk k and touch nothing else. */
  lemma DropAll(cfg: Config, rule: AckRule, s: System, k: nat) returns (run: seq<Move>)
    ensures Legal(cfg, rule, s, run) && NoneAhead(cfg, rule, s, run) && forall m <- run :: m.act.Drop?
    ensures var t := Run(cfg, rule, s, run);
      t.l == s.l && t.r == s.r && t.toL == s.toL && t.toR <= s.toR && NoCopy(t.toR, k)
    decreases |s.toR|
  {
    if NoCopy(s.toR, k) {
      run := [];
    } else {
      var p :| p in s.toR && p.Data? && p.seqNo == k;
      var m := Move(false, Drop(p));
      var rest := DropAll(cfg, rule, Step(cfg, rule, s, m), k);
      run := [m] + rest;
      assert run[1..] == rest;
    }
  }

  /** The losing continuation: a chunk arrives ahead of the cursor, every copy of the chunk
      at the cursor is dropped, and the ACK of the early chunk reaches the sender. */
  lemma AheadLoses(cfg: Config, s: System, p: Packet) returns (run: seq<Move>)
    requires Sound(s) && p in s.toR && p.Data? && !s.r.ep.closed && !s.l.ep.closed
    requires p.seqNo > s.r.ep.recvNext && NoCopy(s.l.waiting, s.r.ep.recvNext)
    ensures var m := Move(false, Deliver(p));
      && Enabled(cfg, s, m) && Legal(cfg, Received, Step(cfg, Received, s, m), run)
      && NoneAhead(cfg, Received, Step(cfg, Received, s, m), run)
      && Lost(Run(cfg, Received, Step(cfg, Received, s, m), run), s.r.ep.recvNext)
  {
    var s1 := Step(cfg, Received, s, Move(false, Deliver(p)));
    ParkedAhead(cfg, s, p);
    var drops := DropAll(cfg, Received, s1, s.r.ep.recvNext);
    var s2 := Run(cfg, Received, s1, drops);
    var last := Move(true, Deliver(Ack(p.seqNo)));
    EarlyAckLoses(cfg, s2, p.seqNo, s.r.ep.recvNext);
    OneMove(cfg, Received, s2, last);
    RunAppend(cfg, Received, s1, drops, [last]);
    run := drops + [last];
  }

  lemma OneMove(cfg: Config, rule: AckRule, s: System, m: Move)
    requires Enabled(cfg, s, m)
    ensures Legal(cfg, rule, s, [m]) && Run(cfg, rule, s, [m]) == Step(cfg, rule, s, m)
    ensures !ArrivesAhead(s, m) ==> NoneAhead(cfg, rule, s, [m])
  {
    assert [m][1..] == [];
    var t := Step(cfg, rule, s, m);
    assert Legal(cfg, rule, t, []) && Run(cfg, rule, t, []) == t && NoneAhead(cfg, rule, t, []);
  }

  lemma ParkedAhead(cfg: Config, s: System, p: Packet)
    requires Sound(s) && p in s.toR && p.Data? && !s.r.ep.closed && p.seqNo > s.r.ep.recvNext
    ensures var t := Step(cfg, Received, s, Move(false, Deliver(p)));
      && t.l == s.l && t.r.ep.recvNext == s.r.ep.recvNext && t.r.ep.recvNext !in t.r.ep.outOfOrder
      && Ack(p.seqNo) in t.toL && p.seqNo < t.l.ep.sendSeq
  {
    assert Faithful(p, s.l.sent);
    assert Replies(cfg, Received, s.r.ep, p) == [Ack(p.seqNo)];
  }

  lemma EarlyAckLoses(cfg: Config, s: System, ack: nat, k: nat)
    requires Ack(ack) in s.toL && !s.l.ep.closed && k < ack && s.r.ep.recvNext == k < s.l.ep.sendSeq
    requires k !in s.r.ep.outOfOrder && NoCopy(s.l.waiting, k) && NoCopy(s.toR, k)
    ensures var m := Move(true, Deliver(Ack(ack)));
      Enabled(cfg, s, m) && Lost(Step(cfg, Received, s, m), k)
  {
    assert Replies(cfg, Received, s.l.ep, Ack(ack)) == [];
  }

  /** The delivery of p, followed by some further moves none of which is again a chunk
      ahead of the cursor, loses a chunk. */
  ghost predicate CanLoseAfter(cfg: Config, s: System, p: Packet)
    requires p in s.toR
  {
    var s1 := Step(cfg, Received, s, Move(false, Deliver(p)));
    exists run, k :: Legal(cfg, Received, s1, run) && NoneAhead(cfg, Received, s1, run)
                     && Lost(Run(cfg, Received, s1, run), k)
  }

  // ---------- a chunk that a thread still holds ----------

  /** With the socket closed every waiting thread gets to transmit, and the window no longer
      matters. */
  lemma {:induction false} TransmitAll(cfg: Config, rule: AckRule, s: System) returns (run: seq<Move>)
    requires s.l.ep.closed
    ensures Legal(cfg, rule, s, run) && NoneAhead(cfg, rule, s, run) && forall m <- run :: m.act.Transmit?
    ensures Run(cfg, rule, s, run) == s.(l := s.l.(waiting := multiset{}), toR := s.toR + s.l.waiting)
    decreases |s.l.waiting|
  {
    if s.l.waiting == multiset{} {
      run := [];
      assert s.toR + multiset{} == s.toR;
    } else {
      var p :| p in s.l.waiting;
      var t := TransmitAny(cfg, rule, s, p);
      var rest := TransmitAll(cfg, rule, t);
      run := [Move(true, Transmit(p))] + rest;
      assert run[1..] == rest;
    }
  }

  lemma TransmitAny(cfg: Config, rule: AckRule, s: System, p: Packet) returns (t: System)
    requires s.l.ep.closed && p in s.l.waiting
    ensures var m := Move(true, Transmit(p)); Enabled(cfg, s, m) && t == Step(cfg, rule, s, m)
    ensures t.l == s.l.(waiting := t.l.waiting) && t == s.(l := t.l, toR := t.toR)
    ensures |t.l.waiting| < |s.l.waiting| && t.toR + t.l.waiting == s.toR + s.l.waiting
  {
    t := Step(cfg, rule, s, Move(true, Transmit(p)));
  }

  /** Runs of which no move is a chunk arriving ahead of the cursor. */
  ghost predicate Reaches(cfg: Config, s: System, run: seq<Move>, t: System) {
    Legal(cfg, Received, s, run) && NoneAhead(cfg, Received, s, run) && Run(cfg, Received, s, run) == t
  }

  lemma ReachesOn(cfg: Config, s: System, a: seq<Move>, t: System, b: seq<Move>, u: System)
    requires Reaches(cfg, s, a, t) && Reaches(cfg, t, b, u)
    ensures Reaches(cfg, s, a + b, u)
  {
    RunAppend(cfg, Received, s, a, b);
  }

  lemma ReachesOne(cfg: Config, s: System, m: Move)
    requires Enabled(cfg, s, m) && !ArrivesAhead(s, m)
    ensures Reaches(cfg, s, [m], Step(cfg, Received, s, m))
  {
    OneMove(cfg, Received, s, m);
  }

  /** Once the early ACK has arrived: close, let the threads that hold the chunk send it, and
      drop every copy. */
  lemma HeldLost(cfg: Config, s: System, k: nat) returns (run: seq<Move>, t: System)
    requires s.r.ep.recvNext <= k < s.l.ep.sendSeq && k !in s.l.ep.queue && k !in s.r.ep.outOfOrder
    ensures Reaches(cfg, s, run, t) && Lost(t, k)
  {
    var close := Move(true, Close);
    ReachesOne(cfg, s, close);
    var u := Step(cfg, Received, s, close);
    var sends := TransmitAll(cfg, Received, u);
    var v := Run(cfg, Received, u, sends);
    var drops := DropAll(cfg, Received, v, k);
    t := Run(cfg, Received, v, drops);
    ReachesOn(cfg, u, sends, v, drops, t);
    ReachesOn(cfg, s, [close], u, sends + drops, t);
    run := [close] + (sends + drops);
  }

  lemma EarlyAck(cfg: Config, s: System, ack: nat, k: nat) returns (t: System)
    requires Ack(ack) in s.toL && !s.l.ep.closed && k < ack && s.r.ep.recvNext == k < s.l.ep.sendSeq
    requires k !in s.r.ep.outOfOrder
    ensures Reaches(cfg, s, [Move(true, Deliver(Ack(ack)))], t)
    ensures t.r == s.r && k < t.l.ep.sendSeq && k !in t.l.ep.queue
  {
    ReachesOne(cfg, s, Move(true, Deliver(Ack(ack))));
    t := Step(cfg, Received, s, Move(true, Deliver(Ack(ack))));
  }

  /** A chunk ahead of the cursor opens the way to a loss even while a thread still holds the
      chunk at the cursor. */
  lemma AheadLosesHeld(cfg: Config, s: System, p: Packet)
    requires Sound(s) && p in s.toR && p.Data? && !s.r.ep.closed && !s.l.ep.closed && p.seqNo > s.r.ep.recvNext
    ensures CanLoseAfter(cfg, s, p)
  {
    var s1 := Step(cfg, Received, s, Move(false, Deliver(p)));
    ParkedAhead(cfg, s, p);
    var t := EarlyAck(cfg, s1, p.seqNo, s.r.ep.recvNext);
    var run, u := HeldLost(cfg, t, s.r.ep.recvNext);
    ReachesOn(cfg, s1, [Move(true, Deliver(Ack(p.seqNo)))], t, run, u);
  }

  // ---------- a closed sender ----------

  lemma ClosedLeftRetains(cfg: Config, rule: AckRule, s: System, a: Action)
    requires EnabledLeft(cfg, s, a) && s.l.ep.closed && Retained(s)
    ensures var t := StepLeft(cfg, rule, s, a); t.l.ep.closed && Retained(t)
  {
    match a
    case NumberChunk(chunk, now) =>
      assert Number(s.l.ep, chunk, now).queue.Keys == s.l.ep.queue.Keys + {s.l.ep.sendSeq};
    case RetransmitTick(now) => assert Tick(cfg, s.l.ep, now).queue.Keys == s.l.ep.queue.Keys;
    case _ =>
  }

  lemma ClosedRetains(cfg: Config, rule: AckRule, s: System, m: Move)
    requires Enabled(cfg, s, m) && Sound(s) && s.l.ep.closed && Retained(s)
    ensures var t := Step(cfg, rule, s, m); t.l.ep.closed && Retained(t)
  {
    if m.atLeft {
      ClosedLeftRetains(cfg, rule, s, m.act);
    } else {
      ReceiverStep(cfg, rule, Flip(s), m.act);
    }
  }

  lemma {:induction false} ClosedNeverLoses(cfg: Config, rule: AckRule, s: System, run: seq<Move>)
    requires Sound(s) && s.l.ep.closed && Retained(s) && Legal(cfg, rule, s, run)
    ensures Retained(Run(cfg, rule, s, run))
    decreases |run|
  {
    if run == [] {
    } else {
      ClosedRetains(cfg, rule, s, run[0]);
      StepSound(cfg, rule, s, run[0]);
      ClosedNeverLoses(cfg, rule, Step(cfg, rule, s, run[0]), run[1..]);
    }
  }

  // ---------- the exact condition ----------

  lemma NotAheadKeeps(cfg: Config, s: System, p: Packet)
    requires Sound(s) && Keeps(s) && p in s.toR && p.Data? && !s.r.ep.closed
    requires p.seqNo <= s.r.ep.recvNext || s.l.ep.closed
    ensures !CanLoseAfter(cfg, s, p)
  {
    var m := Move(false, Deliver(p));
    var s1 := Step(cfg, Received, s, m);
    StepSound(cfg, Received, s, m);
    forall run, k | Legal(cfg, Received, s1, run) && NoneAhead(cfg, Received, s1, run)
      ensures !Lost(Run(cfg, Received, s1, run), k)
    {
      if s.l.ep.closed {
        ClosedRetains(cfg, Received, s, m);
        ClosedNeverLoses(cfg, Received, s1, run);
      } else {
        RightMoveKeeps(cfg, Received, s, m.act);
        RunKeeps(cfg, Received, s1, run);
      }
    }
  }

  /** The exact condition for the coded ACK: handling an arriving chunk exposes the stream to
      loss if and only if the chunk is ahead of the receive cursor, the test of the branch
      that parks it, and the sender's socket is open to take the ACK. */
  lemma ReceivedAckExact(cfg: Config, s: System, p: Packet)
    requires Sound(s) && Keeps(s) && p in s.toR && p.Data? && !s.r.ep.closed
    ensures CanLoseAfter(cfg, s, p) <==> p.seqNo > s.r.ep.recvNext && !s.l.ep.closed
  {
    if p.seqNo > s.r.ep.recvNext && !s.l.ep.closed {
      AheadLosesHeld(cfg, s, p);
    } else {
      NotAheadKeeps(cfg, s, p);
    }
  }

  // ---------- no loss at all ----------

  predicate DropsNothing(run: seq<Move>) {
    forall m <- run :: !m.act.Drop? && !m.act.Close?
  }

  /** Chunk k is delivered, parked, in the network or with a thread about to send it. */
  ghost predicate Traced(s: System, k: nat) {
    || k < s.r.ep.recvNext
    || k in s.r.ep.outOfOrder
    || !NoCopy(s.toR, k)
    || !NoCopy(s.l.waiting, k)
  }

  lemma AbsorbTraces(e: Endpoint, seqNo: nat, payload: Bytes, k: nat)
    requires k < e.recvNext || k in e.outOfOrder || k == seqNo
    ensures var f := Absorb(e, seqNo, payload); k < f.recvNext || k in f.outOfOrder
  {
    if seqNo == e.recvNext {
      DrainMeaning(e.recvNext + 1, e.recvBuf + payload, e.outOfOrder);
    }
  }

  lemma LeftMoveTraces(cfg: Config, rule: AckRule, s: System, a: Action, k: nat)
    requires EnabledLeft(cfg, s, a) && !a.Drop? && !a.Close?
    requires Traced(s, k) || (a.NumberChunk? && k == s.l.ep.sendSeq)
    ensures Traced(StepLeft(cfg, rule, s, a), k)
  {
    var t := StepLeft(cfg, rule, s, a);
    if a.NumberChunk? && k == s.l.ep.sendSeq {
      assert NextPacket(s.l.ep, a.chunk) in t.l.waiting;
    } else if !NoCopy(s.toR, k) {
      var p :| p in s.toR && p.Data? && p.seqNo == k;
      assert p in t.toR;
    } else if !NoCopy(s.l.waiting, k) {
      var p :| p in s.l.waiting && p.Data? && p.seqNo == k;
      assert p in t.l.waiting || p in t.toR;
    }
  }

  lemma RightMoveTraces(cfg: Config, rule: AckRule, s: System, a: Action, k: nat)
    requires EnabledLeft(cfg, Flip(s), a) && !a.Drop? && !a.Close? && !s.r.ep.closed
    requires Traced(s, k)
    ensures Traced(Flip(StepLeft(cfg, rule, Flip(s), a)), k)
  {
    var t := Flip(StepLeft(cfg, rule, Flip(s), a));
    if a.Deliver? && a.pkt.Data? && (k < s.r.ep.recvNext || k in s.r.ep.outOfOrder || a.pkt.seqNo == k) {
      AbsorbTraces(Acknowledge(cfg, s.r.ep, a.pkt.ack), a.pkt.seqNo, a.pkt.payload, k);
    } else if !NoCopy(s.toR, k) {
      var p :| p in s.toR && p.Data? && p.seqNo == k;
      assert p in t.toR;
    }
  }

  ghost predicate AllTraced(s: System) {
    forall k :: 0 <= k < s.l.ep.sendSeq ==> Traced(s, k)
  }

  lemma StepTraces(cfg: Config, rule: AckRule, s: System, m: Move)
    requires Enabled(cfg, s, m) && !m.act.Drop? && !m.act.Close? && !s.r.ep.closed && AllTraced(s)
    ensures AllTraced(Step(cfg, rule, s, m)) && !Step(cfg, rule, s, m).r.ep.closed
  {
    var t := Step(cfg, rule, s, m);
    MoveNumbers(cfg, rule, s, m);
    forall k | 0 <= k < t.l.ep.sendSeq ensures Traced(t, k) {
      if m.atLeft {
        LeftMoveTraces(cfg, rule, s, m.act, k);
      } else {
        RightMoveTraces(cfg, rule, s, m.act, k);
      }
    }
  }

  /** Only numbering a chunk takes a number. */
  lemma MoveNumbers(cfg: Config, rule: AckRule, s: System, m: Move)
    requires Enabled(cfg, s, m)
    ensures Step(cfg, rule, s, m).l.ep.sendSeq == s.l.ep.sendSeq + if m.atLeft && m.act.NumberChunk? then 1 else 0
    ensures !m.act.Close? ==> (Step(cfg, rule, s, m).r.ep.closed <==> s.r.ep.closed)
  {
    ActionNumbers(cfg, rule, if m.atLeft then s else Flip(s), m.act);
  }

  lemma ActionNumbers(cfg: Config, rule: AckRule, s: System, a: Action)
    requires EnabledLeft(cfg, s, a)
    ensures var t := StepLeft(cfg, rule, s, a);
      && t.r == s.r && t.l.ep.sendSeq == s.l.ep.sendSeq + (if a.NumberChunk? then 1 else 0)
      && (!a.Close? ==> (t.l.ep.closed <==> s.l.ep.closed))
  {
    match a
    case Deliver(p) => ReceiveNumbers(cfg, s.l.ep, p);
    case _ =>
  }

  lemma ReceiveNumbers(cfg: Config, e: Endpoint, p: Packet)
    ensures Receive(cfg, e, p).sendSeq == e.sendSeq && (Receive(cfg, e, p).closed <==> e.closed)
  {
  }

  lemma {:induction false} RunTraces(cfg: Config, rule: AckRule, s: System, run: seq<Move>)
    requires Legal(cfg, rule, s, run) && DropsNothing(run) && !s.r.ep.closed && AllTraced(s)
    ensures AllTraced(Run(cfg, rule, s, run))
    decreases |run|
  {
    if run == [] {
    } else {
      StepTraces(cfg, rule, s, run[0]);
      RunTraces(cfg, rule, Step(cfg, rule, s, run[0]), run[1..]);
    }
  }

  /** On a network that reorders and duplicates but loses nothing, no chunk disappears under
      either ACK rule, for any number of sending threads. */
  lemma LossFreeConservation(cfg: Config, rule: AckRule, run: seq<Move>)
    requires Legal(cfg, rule, Start(cfg), run) && DropsNothing(run)
    ensures var s := Run(cfg, rule, Start(cfg), run);
      |s.l.sent| == s.l.ep.sendSeq && forall k :: 0 <= k < |s.l.sent| ==> Traced(s, k)
  {
    StartSound(cfg);
    RunTraces(cfg, rule, Start(cfg), run);
    RunSound(cfg, rule, Start(cfg), run);
  }
}
