/** With the coded ACK a single sender can wait for ever although nothing is lost: the ACK of a
    chunk frees only older ones, so with a window of one the newest chunk blocks its own
    thread. */
module RtpBlocking {
  import opened Basics
  import opened RtpEndpoint
  import opened RtpNetwork
  import opened RtpRetention
  import opened RtpTiming
  import opened RtpWindow
  import opened RtpRecovery

  /** The window is one however many packets are freed: it is capped there, or nothing is queued
      but the newest chunk. */
  predicate Narrow(cfg: Config, e: Endpoint, n: nat) {
    cfg.windowMax == 1 || (e.queue.Keys == {n} && e.window == 1)
  }

  /** A thread waits, the window is that narrow, and nothing on the way to the sender, or to be
      sent, acknowledges the newest chunk. */
  ghost predicate Blocked(cfg: Config, s: System, n: nat) {
    && n in s.l.ep.queue && s.l.ep.sendSeq == n + 1 && Narrow(cfg, s.l.ep, n) && !s.l.ep.closed
    && s.l.waiting != multiset{} && Honest(s.r, s.toL, n)
  }

  /** Neither end numbers another chunk, and the sender's socket is not closed. */
  predicate Quiet(m: Move) {
    !m.act.NumberChunk? && !(m.atLeft && m.act.Close?)
  }

  lemma BlockedWaits(cfg: Config, s: System, n: nat)
    requires WindowOk(cfg, s.l.ep) && Blocked(cfg, s, n)
    ensures !MayTransmit(s.l.ep)
  {
    assert |s.l.ep.queue.Keys| == |s.l.ep.queue|;
    SubsetCard({n}, s.l.ep.queue.Keys);
  }

  lemma LowAckNarrow(cfg: Config, e: Endpoint, n: nat, ack: nat)
    requires n in e.queue && Narrow(cfg, e, n) && ack <= n
    ensures var f := Acknowledge(cfg, e, ack); n in f.queue && Narrow(cfg, f, n)
  {
    if e.queue.Keys == {n} {
      assert (set s | s in e.queue && s < ack) == {};
      assert (map s | s in e.queue && ack <= s :: e.queue[s]) == e.queue;
    }
  }

  lemma LowAckReceived(cfg: Config, e: Endpoint, n: nat, p: Packet)
    requires n in e.queue && Narrow(cfg, e, n) && AckOf(p) <= n && !e.closed
    ensures var f := Receive(cfg, e, p); n in f.queue && Narrow(cfg, f, n) && f.sendSeq == e.sendSeq && !f.closed
  {
    LowAckNarrow(cfg, e, n, AckOf(p));
  }

  lemma TickNarrow(cfg: Config, e: Endpoint, n: nat, now: int)
    requires cfg.Valid() && WindowOk(cfg, e) && n in e.queue && Narrow(cfg, e, n)
    ensures n in Tick(cfg, e, now).queue && Narrow(cfg, Tick(cfg, e, now), n)
  {
    assert Tick(cfg, e, now).queue.Keys == e.queue.Keys;
  }

  lemma BlockedLeft(cfg: Config, s: System, a: Action, n: nat)
    requires cfg.Valid() && WindowOk(cfg, s.l.ep)
    requires EnabledLeft(cfg, s, a) && Blocked(cfg, s, n) && Quiet(Move(true, a))
    ensures Blocked(cfg, StepLeft(cfg, Received, s, a), n)
  {
    match a
    case Transmit(p) => BlockedWaits(cfg, s, n);
    case RetransmitTick(now) => TickNarrow(cfg, s.l.ep, n, now);
    case Deliver(p) => LowAckReceived(cfg, s.l.ep, n, p);
    case _ =>
  }

  lemma BlockedRight(cfg: Config, s: System, a: Action, n: nat)
    requires EnabledLeft(cfg, Flip(s), a) && Sound(s) && Blocked(cfg, s, n) && Quiet(Move(false, a))
    ensures Blocked(cfg, Flip(StepLeft(cfg, Received, Flip(s), a)), n)
  {
    match a
    case RetransmitTick(now) => TickHonest(cfg, s.r, now, s.toL, n);
    case Deliver(p) => BlockedReply(cfg, s, p, n);
    case _ => OtherHonest(cfg, Received, s, a, n);
  }

  lemma BlockedReply(cfg: Config, s: System, p: Packet, n: nat)
    requires p in s.toR && Sound(s) && s.l.ep.sendSeq == n + 1 && Honest(s.r, s.toL, n)
    ensures Honest(s.r.(ep := Receive(cfg, s.r.ep, p)), s.toL + multiset(Replies(cfg, Received, s.r.ep, p)), n)
  {
    assert Faithful(p, s.l.sent);
    LowReply(cfg, s.r.ep, p, n);
    ReceiveShrinks(cfg, s.r.ep, p);
  }

  lemma LowReply(cfg: Config, e: Endpoint, p: Packet, n: nat)
    requires p.Data? ==> p.seqNo <= n
    ensures AcksBelow(multiset(Replies(cfg, Received, e, p)), n)
  {
    var out := Replies(cfg, Received, e, p);
    assert out == [] || out == [Ack(p.seqNo)];
  }

  /** A run of such moves. */
  ghost predicate Calm(cfg: Config, s: System, run: seq<Move>, t: System) {
    ComesTo(cfg, Received, s, run, t) && forall m <- run :: Quiet(m)
  }

  /** Whatever the network delivers, drops, repeats or delays, whatever is retransmitted and
      read: the thread waits for ever. */
  lemma {:induction false} BlockedForever(cfg: Config, s: System, run: seq<Move>, t: System, n: nat)
    requires cfg.Valid() && WindowOk(cfg, s.l.ep) && Sound(s) && Blocked(cfg, s, n) && Calm(cfg, s, run, t)
    ensures Blocked(cfg, t, n) && !MayTransmit(t.l.ep)
    decreases |run|
  {
    if run == [] {
      BlockedWaits(cfg, s, n);
    } else {
      assert run[0] in run;
      if run[0].atLeft {
        BlockedLeft(cfg, s, run[0].act, n);
        LeftMoveWindow(cfg, Received, s, run[0].act);
      } else {
        BlockedRight(cfg, s, run[0].act, n);
      }
      StepSound(cfg, Received, s, run[0]);
      BlockedForever(cfg, Step(cfg, Received, s, run[0]), run[1..], t, n);
    }
  }

  // ---------- getting out ----------

  lemma CalmOn(cfg: Config, s: System, a: seq<Move>, t: System, b: seq<Move>, u: System)
    requires Calm(cfg, s, a, t) && Calm(cfg, t, b, u)
    ensures Calm(cfg, s, a + b, u)
  {
    ComesOn(cfg, Received, s, a, t, b, u);
  }

  lemma CalmOne(cfg: Config, s: System, m: Move)
    requires Enabled(cfg, s, m) && Quiet(m)
    ensures Calm(cfg, s, [m], Step(cfg, Received, s, m))
  {
    ComesByOne(cfg, Received, s, m);
  }

  /** All of n's chunks are acknowledged at once. */
  lemma HighAckFrees(cfg: Config, s: System, p: Packet, n: nat) returns (m: Move, t: System)
    requires cfg.Valid() && WindowOk(cfg, s.l.ep) && Sound(s) && p in s.toL && AckOf(p) > n
    requires n in s.l.ep.queue && s.l.ep.sendSeq == n + 1 && !s.l.ep.closed
    ensures Calm(cfg, s, [m], t) && MayTransmit(t.l.ep) && t.l.waiting == s.l.waiting && t.r == s.r
    ensures t.l.ep.queue == map[] && !t.l.ep.closed && (cfg.windowMax >= 2 ==> t.l.ep.window >= 2) && m.act.Deliver?
  {
    m := Move(true, Deliver(p));
    t := Step(cfg, Received, s, m);
    CalmOne(cfg, s, m);
    HighAckReceived(cfg, s.l.ep, p, n);
  }

  lemma HighAckReceived(cfg: Config, e: Endpoint, p: Packet, n: nat)
    requires n in e.queue && AckOf(p) > n && !e.closed && forall k <- e.queue.Keys :: k <= n
    ensures var f := Receive(cfg, e, p);
      f.queue == map[] && !f.closed && f.window == Min(cfg.windowMax, e.window + |e.queue|) && |e.queue| >= 1
  {
    AcknowledgeAll(cfg, e, AckOf(p), n);
  }

  lemma AcknowledgeAll(cfg: Config, e: Endpoint, ack: nat, n: nat)
    requires n in e.queue && ack > n && forall k <- e.queue.Keys :: k <= n
    ensures var f := Acknowledge(cfg, e, ack); f.queue == map[] && f.window == Min(cfg.windowMax, e.window + |e.queue|)
    ensures |e.queue| >= 1
  {
    assert (set s | s in e.queue && s < ack) == e.queue.Keys;
  }

  /** A retransmission pass on the right. */
  lemma ResendRight(cfg: Config, s: System, since: int) returns (m: Move, t: System)
    requires MayTick(s.r)
    ensures m.act.RetransmitTick? && Timely([m], since, m.act.now)
    ensures Calm(cfg, s, [m], t) && t.l == s.l && forall k <- s.r.ep.queue.Keys :: s.r.ep.queue[k].pkt in t.toL
    ensures t.r.ep == s.r.ep.(queue := t.r.ep.queue, window := t.r.ep.window)
  {
    var mirror, u := ResendAll(cfg, Received, Flip(s), since);
    m, t := Move(false, mirror.act), Flip(u);
    TimelyOne(m, since);
    CalmOne(cfg, s, m);
  }

  /** A thread on the right transmits, once its socket is closed. */
  lemma TransmitRight(cfg: Config, s: System, p: Packet) returns (run: seq<Move>, t: System)
    requires p in s.r.waiting
    ensures Timeless(run)
    ensures Calm(cfg, s, run, t) && t.l == s.l && p in t.toL && t.r.ep.recvNext == s.r.ep.recvNext
  {
    var close, send := Move(false, Close), Move(false, Transmit(p));
    var u := Step(cfg, Received, s, close);
    CalmOne(cfg, s, close);
    CalmOne(cfg, u, send);
    run, t := [close] + [send], Step(cfg, Received, u, send);
    CalmOn(cfg, s, [close], u, [send], t);
  }

  /** An acknowledgement above n is on its way, or may be sent again. */
  ghost predicate HighAckOut(s: System, n: nat) {
    !AcksBelow(s.toL, n) || exists k :: k in s.r.ep.queue && AckOf(s.r.ep.queue[k].pkt) > n
  }

  /** If the right node has sent, may resend or only holds an acknowledgement above n, it can
      arrive; in the last case after the node has closed its socket. */
  lemma HighAckComes(cfg: Config, s: System, n: nat, since: int)
    returns (run: seq<Move>, t: System, p: Packet, until: int)
    requires !Honest(s.r, s.toL, n) && !s.r.ep.closed
    ensures Timely(run, since, until)
    ensures Calm(cfg, s, run, t) && t.l == s.l && p in t.toL && AckOf(p) > n && t.r.ep.recvNext == s.r.ep.recvNext
    ensures HighAckOut(s, n) ==> !t.r.ep.closed
  {
    if !AcksBelow(s.toL, n) {
      p :| p in s.toL && AckOf(p) > n;
      run, t, until := [], s, since;
    } else if HighAckOut(s, n) {
      var k :| k in s.r.ep.queue && AckOf(s.r.ep.queue[k].pkt) > n;
      p := s.r.ep.queue[k].pkt;
      var m;
      m, t := ResendRight(cfg, s, since);
      run, until := [m], m.act.now;
    } else {
      p :| p in s.r.waiting && AckOf(p) > n;
      run, t := TransmitRight(cfg, s, p);
      until := since;
      TimelessTimely(run, since);
    }
  }

  lemma HighAckReleases(cfg: Config, s: System, n: nat, since: int)
    returns (run: seq<Move>, t: System, until: int)
    requires cfg.Valid() && WindowOk(cfg, s.l.ep) && Sound(s) && !Honest(s.r, s.toL, n) && !s.r.ep.closed
    requires n in s.l.ep.queue && s.l.ep.sendSeq == n + 1 && !s.l.ep.closed
    ensures Calm(cfg, s, run, t) && MayTransmit(t.l.ep) && t.l.waiting == s.l.waiting && !t.l.ep.closed
    ensures cfg.windowMax >= 2 ==> t.l.ep.window >= 2
    ensures (HighAckOut(s, n) ==> !t.r.ep.closed) && Timely(run, since, until)
  {
    var u, p;
    run, u, p, until := HighAckComes(cfg, s, n, since);
    ComesSound(cfg, Received, s, run, u);
    var m;
    m, t := HighAckFrees(cfg, u, p, n);
    CalmOn(cfg, s, run, u, [m], t);
    TimelyThen(run, since, until, [m]);
    run := run + [m];
  }

  /** The ACK of the newest chunk frees all the others. */
  lemma NewestAcked(cfg: Config, s: System, n: nat) returns (m: Move, t: System)
    requires cfg.Valid() && WindowOk(cfg, s.l.ep) && Sound(s) && Ack(n) in s.toL && !s.l.ep.closed
    requires n in s.l.ep.queue && s.l.ep.sendSeq == n + 1
    ensures Calm(cfg, s, [m], t) && t.r == s.r && t.l == s.l.(ep := t.l.ep) && t.l.ep.queue.Keys == {n}
    ensures t.l.ep == s.l.ep.(queue := t.l.ep.queue, window := t.l.ep.window) && t.l.ep.window >= s.l.ep.window
    ensures (|s.l.ep.queue| >= 2 && cfg.windowMax >= 2 ==> t.l.ep.window >= 2) && m.act.Deliver?
  {
    m := Move(true, Deliver(Ack(n)));
    t := Step(cfg, Received, s, m);
    CalmOne(cfg, s, m);
    AcknowledgeOthers(cfg, s.l.ep, n);
  }

  lemma AcknowledgeOthers(cfg: Config, e: Endpoint, n: nat)
    requires WindowOk(cfg, e) && n in e.queue && forall k <- e.queue.Keys :: k <= n
    ensures var f := Acknowledge(cfg, e, n);
      && f.queue.Keys == {n} && f.window == Min(cfg.windowMax, e.window + |e.queue| - 1) && |e.queue| >= 1
  {
    assert (set s | s in e.queue && s < n) == e.queue.Keys - {n};
    assert |e.queue.Keys - {n}| == |e.queue.Keys| - 1;
  }

  /** The right node takes in a copy of the newest chunk and acknowledges it. */
  lemma NewestArrives(cfg: Config, s: System, p: Packet) returns (m: Move, t: System)
    requires p in s.toR && p.Data? && !s.r.ep.closed
    ensures Calm(cfg, s, [m], t) && t.l == s.l && Ack(p.seqNo) in t.toL && !t.r.ep.closed && m.act.Deliver?
    ensures p.seqNo > s.r.ep.recvNext ==>
      t.r.ep.recvNext == s.r.ep.recvNext && t.r.ep.outOfOrder.Keys == s.r.ep.outOfOrder.Keys + {p.seqNo}
  {
    m := Move(false, Deliver(p));
    t := Step(cfg, Received, s, m);
    CalmOne(cfg, s, m);
    assert Replies(cfg, Received, s.r.ep, p) == [Ack(p.seqNo)];
  }

  /** A retransmission pass on the left. */
  lemma ResendLeft(cfg: Config, s: System, n: nat, since: int) returns (m: Move, t: System)
    requires cfg.Valid() && WindowOk(cfg, s.l.ep) && !s.l.ep.closed && n in s.l.ep.queue
    ensures Calm(cfg, s, [m], t) && t.r == s.r && s.l.ep.queue[n].pkt in t.toR
    ensures t.l.waiting == s.l.waiting && t.l.ep == s.l.ep.(queue := t.l.ep.queue, window := t.l.ep.window)
    ensures WindowOk(cfg, t.l.ep) && t.l.ep.queue.Keys == s.l.ep.queue.Keys
    ensures m.act.RetransmitTick? && Timely([m], since, m.act.now)
  {
    m, t := ResendAll(cfg, Received, s, since);
    CalmOne(cfg, s, m);
    LeftMoveWindow(cfg, Received, s, m.act);
  }

  /** A timeout resends everything, and the newest chunk arrives. */
  lemma NewestResent(cfg: Config, s: System, n: nat, since: int)
    returns (run: seq<Move>, t: System, until: int)
    requires cfg.Valid() && WindowOk(cfg, s.l.ep) && Sound(s) && !s.l.ep.closed && !s.r.ep.closed
    requires n in s.l.ep.queue && s.l.ep.sendSeq == n + 1
    ensures Calm(cfg, s, run, t) && Sound(t) && Ack(n) in t.toL && !t.r.ep.closed
    ensures t.l.waiting == s.l.waiting && t.l.ep == s.l.ep.(queue := t.l.ep.queue, window := t.l.ep.window)
    ensures WindowOk(cfg, t.l.ep) && t.l.ep.queue.Keys == s.l.ep.queue.Keys && Timely(run, since, until)
    ensures n > s.r.ep.recvNext ==>
      t.r.ep.recvNext == s.r.ep.recvNext && t.r.ep.outOfOrder.Keys == s.r.ep.outOfOrder.Keys + {n}
  {
    var p := s.l.ep.queue[n].pkt;
    var m1, u := ResendLeft(cfg, s, n, since);
    var m2;
    m2, t := NewestArrives(cfg, u, p);
    CalmOn(cfg, s, [m1], u, [m2], t);
    until := m1.act.now;
    TimelyThen([m1], since, until, [m2]);
    run := [m1] + [m2];
    ComesSound(cfg, Received, s, run, t);
  }

  /** And so does its ACK. */
  lemma NewestSettles(cfg: Config, s: System, n: nat, since: int)
    returns (run: seq<Move>, t: System, until: int)
    requires cfg.Valid() && WindowOk(cfg, s.l.ep) && Sound(s) && !s.l.ep.closed && !s.r.ep.closed
    requires n in s.l.ep.queue && s.l.ep.sendSeq == n + 1 && |s.l.ep.queue| >= 2 && cfg.windowMax >= 2
    ensures Calm(cfg, s, run, t) && t.l.waiting == s.l.waiting && t.l.ep.queue.Keys == {n} && t.l.ep.window >= 2
    ensures t.l.ep == s.l.ep.(queue := t.l.ep.queue, window := t.l.ep.window) && !t.r.ep.closed
    ensures n > s.r.ep.recvNext ==>
      t.r.ep.recvNext == s.r.ep.recvNext && t.r.ep.outOfOrder.Keys == s.r.ep.outOfOrder.Keys + {n}
    ensures Timely(run, since, until)
  {
    var first, u;
    first, u, until := NewestResent(cfg, s, n, since);
    assert |u.l.ep.queue.Keys| == |s.l.ep.queue.Keys|;
    var m;
    m, t := NewestAcked(cfg, u, n);
    CalmOn(cfg, s, first, u, [m], t);
    TimelyThen(first, since, until, [m]);
    run := first + [m];
  }

  /** Some such run lets the waiting threads go on. */
  ghost predicate MayGoOn(cfg: Config, s: System) {
    exists run, t :: Calm(cfg, s, run, t) && MayTransmit(t.l.ep)
  }

  /** One does whose clock readings start at a given time and never go back. */
  ghost predicate MayGoOnFrom(cfg: Config, s: System, since: int) {
    exists run, t, until :: Calm(cfg, s, run, t) && Timely(run, since, until) && MayTransmit(t.l.ep)
  }

  /** One that also opens the window. */
  lemma Release(cfg: Config, s: System, n: nat, since: int) returns (run: seq<Move>, t: System, until: int)
    requires cfg.Valid() && WindowOk(cfg, s.l.ep) && Sound(s) && !s.r.ep.closed && s.l.waiting != multiset{}
    requires s.l.ep.sendSeq == n + 1 && !MayTransmit(s.l.ep) && !Blocked(cfg, s, n)
    ensures Calm(cfg, s, run, t) && MayTransmit(t.l.ep) && t.l.waiting == s.l.waiting
    ensures (cfg.windowMax >= 2 ==> t.l.ep.window >= 2) && Timely(run, since, until)
  {
    NewestQueued(s.l.ep, n);
    if !Honest(s.r, s.toL, n) {
      run, t, until := HighAckReleases(cfg, s, n, since);
    } else {
      assert s.l.ep.queue.Keys == {n} ==> |s.l.ep.queue| == |{n}|;
      OthersQueued(s.l.ep, n);
      run, t, until := NewestSettles(cfg, s, n, since);
      assert |t.l.ep.queue| == |t.l.ep.queue.Keys| == 1;
    }
  }

  lemma NewestQueued(e: Endpoint, n: nat)
    requires QueueContiguous(e) && e.queue != map[] && e.sendSeq == n + 1
    ensures n in e.queue
  {
    var k :| k in e.queue;
    assert k <= n;
  }

  lemma OthersQueued(e: Endpoint, n: nat)
    requires n in e.queue && e.queue.Keys != {n}
    ensures |e.queue| >= 2
  {
    var k :| k in e.queue && k != n;
    SubsetCard({n, k}, e.queue.Keys);
  }

  // ---------- a peer that has closed its socket ----------

  /** The packet is on its way to the left, or the right node, its socket closed, may still
      send it. */
  ghost predicate Outstanding(s: System, p: Packet) {
    || p in s.toL || p in s.r.waiting
    || (MayTick(s.r) && exists k :: k in s.r.ep.queue && s.r.ep.queue[k].pkt == p)
  }

  predicate Frees(cfg: Config, e: Endpoint, ack: nat) {
    MayTransmit(Acknowledge(cfg, e, ack))
  }

  /** Some outstanding acknowledgement makes enough room in the window. */
  ghost predicate LateAckFrees(cfg: Config, s: System) {
    exists p :: Outstanding(s, p) && Frees(cfg, s.l.ep, AckOf(p))
  }

  /** Of two ACKs only the larger one matters, whatever their order. */
  lemma AcksCompose(cfg: Config, e: Endpoint, a: nat, b: nat)
    requires e.window <= cfg.windowMax
    ensures Acknowledge(cfg, Acknowledge(cfg, e, a), b) == Acknowledge(cfg, e, Max(a, b))
  {
    AcksCount(cfg, e, a, b);
    var f := Acknowledge(cfg, e, a);
    assert (map s | s in f.queue && b <= s :: f.queue[s]) == (map s | s in e.queue && Max(a, b) <= s :: e.queue[s]);
  }

  lemma AcksCount(cfg: Config, e: Endpoint, a: nat, b: nat)
    ensures var f := Acknowledge(cfg, e, a);
      |set s | s in e.queue && s < Max(a, b)| == |set s | s in e.queue && s < a| + |set s | s in f.queue && s < b|
  {
    var f := Acknowledge(cfg, e, a);
    var first, second := set s | s in e.queue && s < a, set s | s in f.queue && s < b;
    assert (set s | s in e.queue && s < Max(a, b)) == first + second;
    assert first !! second;
  }

  lemma NoAck(cfg: Config, e: Endpoint)
    ensures Acknowledge(cfg, e, 0) == e
  {
    assert (set s | s in e.queue && s < 0) == {};
    assert (map s | s in e.queue && 0 <= s :: e.queue[s]) == e.queue;
  }

  /** A timeout makes no ACK free more. */
  lemma TickFreesLess(cfg: Config, e: Endpoint, now: int, ack: nat)
    requires WindowOk(cfg, e)
    ensures Frees(cfg, Tick(cfg, e, now), ack) ==> Frees(cfg, e, ack)
  {
    var f := Tick(cfg, e, now);
    assert f.queue.Keys == e.queue.Keys && f.window <= e.window;
    assert (set s | s in f.queue && s < ack) == (set s | s in e.queue && s < ack);
    assert |Acknowledge(cfg, f, ack).queue.Keys| == |Acknowledge(cfg, e, ack).queue.Keys| by {
      assert Acknowledge(cfg, f, ack).queue.Keys == Acknowledge(cfg, e, ack).queue.Keys;
    }
  }

  lemma ReceiveFreesLess(cfg: Config, e: Endpoint, p: Packet, ack: nat)
    requires e.window <= cfg.windowMax && !e.closed && !Frees(cfg, e, AckOf(p)) && !Frees(cfg, e, ack)
    ensures !Frees(cfg, Receive(cfg, e, p), ack)
  {
    NoAck(cfg, e);
    var f := Acknowledge(cfg, e, AckOf(p));
    assert Receive(cfg, e, p).queue == f.queue && Receive(cfg, e, p).window == f.window;
    AcksCompose(cfg, e, AckOf(p), ack);
  }

  /** No outstanding acknowledgement makes enough room, nor is there room without one. */
  ghost predicate Hopeless(cfg: Config, s: System) {
    WindowOk(cfg, s.l.ep) && s.r.ep.closed && !MayTransmit(s.l.ep) && !LateAckFrees(cfg, s)
  }

  lemma HopelessLeft(cfg: Config, s: System, a: Action)
    requires cfg.Valid() && EnabledLeft(cfg, s, a) && Quiet(Move(true, a)) && Hopeless(cfg, s)
    ensures Hopeless(cfg, StepLeft(cfg, Received, s, a))
  {
    var t := StepLeft(cfg, Received, s, a);
    LeftMoveWindow(cfg, Received, s, a);
    NoAck(cfg, s.l.ep);
    NoAck(cfg, t.l.ep);
    assert !Frees(cfg, s.l.ep, 0);
    forall ack: nat | !Frees(cfg, s.l.ep, ack) ensures !Frees(cfg, t.l.ep, ack) {
      match a
      case RetransmitTick(now) => TickFreesLess(cfg, s.l.ep, now, ack);
      case Deliver(p) => ReceiveFreesLess(cfg, s.l.ep, p, ack);
      case _ =>
    }
    assert !Frees(cfg, t.l.ep, 0);
    forall p | Outstanding(t, p) ensures !Frees(cfg, t.l.ep, AckOf(p)) {
      assert Outstanding(s, p);
    }
  }

  lemma HopelessRight(cfg: Config, s: System, a: Action)
    requires EnabledLeft(cfg, Flip(s), a) && Quiet(Move(false, a)) && Hopeless(cfg, s)
    ensures Hopeless(cfg, Flip(StepLeft(cfg, Received, Flip(s), a)))
  {
    var t := Flip(StepLeft(cfg, Received, Flip(s), a));
    NoAck(cfg, s.l.ep);
    forall p | Outstanding(t, p) ensures !Frees(cfg, t.l.ep, AckOf(p)) {
      assert p == Control || Outstanding(s, p);
    }
  }

  lemma {:induction false} HopelessForever(cfg: Config, s: System, run: seq<Move>, t: System)
    requires cfg.Valid() && Hopeless(cfg, s) && Calm(cfg, s, run, t)
    ensures Hopeless(cfg, t)
    decreases |run|
  {
    if run == [] {
    } else {
      assert run[0] in run;
      if run[0].atLeft {
        HopelessLeft(cfg, s, run[0].act);
      } else {
        HopelessRight(cfg, s, run[0].act);
      }
      HopelessForever(cfg, Step(cfg, Received, s, run[0]), run[1..], t);
    }
  }

  lemma OutstandingComes(cfg: Config, s: System, p: Packet, since: int)
    returns (run: seq<Move>, t: System, until: int)
    requires Outstanding(s, p)
    ensures Calm(cfg, s, run, t) && t.l == s.l && p in t.toL && Timely(run, since, until)
  {
    until := since;
    if p in s.toL {
      run, t := [], s;
    } else if p in s.r.waiting {
      run, t := TransmitRight(cfg, s, p);
      TimelessTimely(run, since);
    } else {
      var m;
      m, t := ResendRight(cfg, s, since);
      run, until := [m], m.act.now;
    }
  }

  lemma LateAckReleases(cfg: Config, s: System, p: Packet, since: int)
    requires Outstanding(s, p) && Frees(cfg, s.l.ep, AckOf(p)) && !s.l.ep.closed
    ensures MayGoOnFrom(cfg, s, since)
  {
    var run, u, until := OutstandingComes(cfg, s, p, since);
    var m := Move(true, Deliver(p));
    var t := Step(cfg, Received, u, m);
    CalmOne(cfg, u, m);
    CalmOn(cfg, s, run, u, [m], t);
    TimelyThen(run, since, until, [m]);
    NoAck(cfg, s.l.ep);
    assert MayTransmit(t.l.ep);
  }

  lemma ClosedPeerExact(cfg: Config, s: System, since: int)
    requires cfg.Valid() && WindowOk(cfg, s.l.ep) && s.r.ep.closed && !MayTransmit(s.l.ep)
    ensures MayGoOn(cfg, s) <==> LateAckFrees(cfg, s)
    ensures MayGoOnFrom(cfg, s, since) <==> LateAckFrees(cfg, s)
  {
    if LateAckFrees(cfg, s) {
      var p :| Outstanding(s, p) && Frees(cfg, s.l.ep, AckOf(p));
      LateAckReleases(cfg, s, p, since);
    } else {
      forall run, t | Calm(cfg, s, run, t) ensures !MayTransmit(t.l.ep) {
        HopelessForever(cfg, s, run, t);
      }
    }
  }

  // ---------- the exact condition ----------

  /** The exact condition: as long as neither end numbers another chunk and the sender's socket
      is not closed, a thread waiting for the window can get to transmit if and only if it is
      not blocked; or, when the peer has closed its socket and answers no more, if one of the
      acknowledgements still outstanding makes enough room.  It makes no difference whether the
      clocks may go back or not. */
  lemma WaitsExact(cfg: Config, s: System, n: nat, since: int)
    requires cfg.Valid() && WindowOk(cfg, s.l.ep) && Sound(s) && s.l.waiting != multiset{}
    requires s.l.ep.sendSeq == n + 1 && !MayTransmit(s.l.ep)
    ensures MayGoOn(cfg, s) <==> if s.r.ep.closed then LateAckFrees(cfg, s) else !Blocked(cfg, s, n)
    ensures MayGoOnFrom(cfg, s, since) <==> if s.r.ep.closed then LateAckFrees(cfg, s) else !Blocked(cfg, s, n)
  {
    if s.r.ep.closed {
      ClosedPeerExact(cfg, s, since);
    } else if Blocked(cfg, s, n) {
      forall run, t | Calm(cfg, s, run, t) ensures !MayTransmit(t.l.ep) {
        BlockedForever(cfg, s, run, t, n);
      }
    } else {
      var run, t, until := Release(cfg, s, n, since);
    }
  }

  // ---------- reaching it without a loss ----------

  /** A run of one sender on a network that loses nothing, its clock readings in order. */
  ghost predicate Goes(cfg: Config, s: System, run: seq<Move>, t: System, since: int, until: int) {
    Leads(cfg, s, run, t) && DropsNothing(run) && Timely(run, since, until)
  }

  lemma GoesOn(cfg: Config, s: System, a: seq<Move>, t: System, b: seq<Move>, u: System,
      since: int, between: int, until: int)
    requires Goes(cfg, s, a, t, since, between) && Goes(cfg, t, b, u, between, until)
    ensures Goes(cfg, s, a + b, u, since, until)
  {
    LeadsOn(cfg, s, a, t, b, u);
    TimelyOn(a, since, between, b, until);
  }

  /** When it is after a move. */
  function Past(m: Move, since: int): int {
    match TimeOf(m) case Some(now) => now case None => since
  }

  lemma GoesByOne(cfg: Config, s: System, m: Move, since: int)
    requires Enabled(cfg, s, m) && !m.act.Drop? && !m.act.Close? && since <= Past(m, since)
    requires m.atLeft && m.act.NumberChunk? ==> s.l.waiting == multiset{}
    ensures Goes(cfg, s, [m], Step(cfg, Received, s, m), since, Past(m, since))
  {
    LeadsOne(cfg, s, m);
    if TimeOf(m).Some? {
      TimelyOne(m, since);
    } else {
      TimelessTimely([m], since);
    }
  }

  /** One more move after a run. */
  lemma GoesThen(cfg: Config, s: System, run: seq<Move>, t: System, m: Move, since: int, between: int)
    requires Goes(cfg, s, run, t, since, between) && Enabled(cfg, t, m) && !m.act.Drop? && !m.act.Close?
    requires between <= Past(m, between)
    requires m.atLeft && m.act.NumberChunk? ==> t.l.waiting == multiset{}
    ensures Goes(cfg, s, run + [m], Step(cfg, Received, t, m), since, Past(m, between))
  {
    GoesByOne(cfg, t, m, between);
    GoesOn(cfg, s, run, t, [m], Step(cfg, Received, t, m), since, between, Past(m, between));
  }

  const FIRST: Packet := Data(0, 0, [0])
  const SECOND: Packet := Data(1, 0, [0])

  /** Only the first chunk has been sent, and the peer has not heard of it. */
  ghost predicate FirstSent(cfg: Config, s: System) {
    && s.l.ep.queue.Keys == {0} && s.l.ep.queue[0].pkt == FIRST && s.l.ep.sendSeq == 1 && s.l.ep.recvNext == 0
    && !s.l.ep.closed && s.l.waiting == multiset{} && s.r == Start(cfg).r && s.toL == multiset{}
  }

  lemma SendFirst(cfg: Config, since: int) returns (run: seq<Move>, t: System)
    requires cfg.Valid() && cfg.windowInit >= 2
    ensures Goes(cfg, Start(cfg), run, t, since, since) && FirstSent(cfg, t)
  {
    var s := Start(cfg);
    var number, send := Move(true, NumberChunk([0], since)), Move(true, Transmit(FIRST));
    var u := Step(cfg, Received, s, number);
    assert u.l.ep.queue.Keys == {0} && |u.l.ep.queue.Keys| == 1;
    assert u.l.waiting == multiset{FIRST};
    GoesByOne(cfg, s, number, since);
    GoesThen(cfg, s, [number], u, send, since, since);
    run, t := [number] + [send], Step(cfg, Received, u, send);
  }

  /** Timeouts shrink the window to one. */
  lemma {:induction false} ShrinkToOne(cfg: Config, s: System, since: int)
    returns (run: seq<Move>, t: System, until: int)
    requires cfg.windowMin == 1 && FirstSent(cfg, s) && s.l.ep.window >= 1
    ensures Goes(cfg, s, run, t, since, until) && FirstSent(cfg, t) && t.l.ep.window == 1
    decreases s.l.ep.window
  {
    if s.l.ep.window == 1 {
      run, t, until := [], s, since;
    } else {
      var m, u := ResendAll(cfg, Received, s, since);
      GoesByOne(cfg, s, m, since);
      var rest;
      rest, t, until := ShrinkToOne(cfg, u, m.act.now);
      GoesOn(cfg, s, [m], u, rest, t, since, m.act.now, until);
      run := [m] + rest;
    }
  }

  /** The second chunk is numbered when the window is full, so that its thread waits, and both
      chunks are retransmitted. */
  ghost predicate BothOut(cfg: Config, s: System) {
    && s.l.ep.queue.Keys == {0, 1} && s.l.ep.sendSeq == 2 && s.l.ep.window == 1 && !s.l.ep.closed
    && s.l.waiting == multiset{SECOND} && FIRST in s.toR && SECOND in s.toR && s.toL == multiset{}
    && s.r == Start(cfg).r
  }

  lemma NumberSecond(cfg: Config, s: System, since: int) returns (run: seq<Move>, t: System, until: int)
    requires cfg.Valid() && cfg.windowMin == 1 && FirstSent(cfg, s) && s.l.ep.window == 1
    ensures Goes(cfg, s, run, t, since, until) && BothOut(cfg, t)
  {
    var number := Move(true, NumberChunk([0], since));
    var u := Step(cfg, Received, s, number);
    assert u.l.ep.queue.Keys == {0, 1} && u.l.ep.queue[1].pkt == SECOND && u.l.ep.queue[0].pkt == FIRST;
    var tick;
    tick, t := ResendAll(cfg, Received, u, since);
    GoesByOne(cfg, s, number, since);
    GoesThen(cfg, s, [number], u, tick, since, since);
    run, until := [number] + [tick], tick.act.now;
  }

  /** The peer takes both chunks in and acknowledges both; its window being one, the sender
      still waits. */
  ghost predicate BothIn(s: System) {
    && s.l.ep.queue.Keys == {0, 1} && s.l.ep.sendSeq == 2 && s.l.ep.window == 1 && !s.l.ep.closed
    && s.l.waiting == multiset{SECOND} && s.toL == multiset{Ack(0), Ack(1)}
    && s.r.ep.recvNext == 2 && s.r.ep.queue == map[] && s.r.waiting == multiset{}
  }

  lemma TakeBoth(cfg: Config, s: System, since: int) returns (run: seq<Move>, t: System)
    requires BothOut(cfg, s)
    ensures Goes(cfg, s, run, t, since, since) && BothIn(t)
  {
    var one, two := Move(false, Deliver(FIRST)), Move(false, Deliver(SECOND));
    var e := Start(cfg).r.ep;
    InOrder(cfg, e, FIRST);
    var u := Step(cfg, Received, s, one);
    assert SECOND in u.toR && u.toL == multiset{Ack(0)};
    InOrder(cfg, u.r.ep, SECOND);
    t := Step(cfg, Received, u, two);
    assert t.toL == multiset{Ack(0)} + multiset{Ack(1)};
    GoesByOne(cfg, s, one, since);
    GoesThen(cfg, s, [one], u, two, since, since);
    run := [one] + [two];
  }

  lemma InOrder(cfg: Config, e: Endpoint, p: Packet)
    requires p.Data? && p.seqNo == e.recvNext && e.outOfOrder == map[] && e.queue == map[] && !e.closed
    ensures var f := Receive(cfg, e, p);
      f.recvNext == e.recvNext + 1 && f.outOfOrder == map[] && f.queue == map[] && !f.closed
    ensures Replies(cfg, Received, e, p) == [Ack(p.seqNo)]
  {
    var f := Acknowledge(cfg, e, p.ack);
    assert f.queue == map[];
    assert Drain(f.recvNext + 1, f.recvBuf + p.payload, map[]) == Drained(f.recvNext + 1, f.recvBuf + p.payload, map[]);
  }

  /** Only the second chunk is queued, and for a moment its thread could go on. */
  ghost predicate OneLeft(s: System) {
    && s.l.ep.queue.Keys == {1} && s.l.ep.sendSeq == 2 && s.l.ep.window == 2 && !s.l.ep.closed
    && s.l.waiting == multiset{SECOND} && s.toL == multiset{Ack(0)}
    && s.r.ep.recvNext == 2 && s.r.ep.queue == map[] && s.r.waiting == multiset{}
  }

  lemma SecondAcked(cfg: Config, s: System)
    requires cfg.windowMax >= 2 && BothIn(s)
    ensures OneLeft(Step(cfg, Received, s, Move(true, Deliver(Ack(1)))))
  {
    AckFreesFirst(cfg, s.l.ep);
    assert multiset{Ack(0), Ack(1)} - multiset{Ack(1)} == multiset{Ack(0)};
  }

  lemma LastTick(cfg: Config, s: System, since: int) returns (m: Move)
    requires cfg.windowMin == 1 && OneLeft(s)
    ensures m.atLeft && m.act.RetransmitTick? && Enabled(cfg, s, m) && since <= m.act.now
    ensures Blocked(cfg, Step(cfg, Received, s, m), 1) && Step(cfg, Received, s, m).r == s.r
  {
    var t;
    m, t := ResendAll(cfg, Received, s, since);
  }

  /** The ACK of the second chunk frees the first, and one more timeout comes before the
      sender looks at the window again. */
  lemma AckThenTick(cfg: Config, s: System, since: int) returns (run: seq<Move>, t: System, until: int)
    requires cfg.windowMin == 1 && cfg.windowMax >= 2 && BothIn(s)
    ensures Goes(cfg, s, run, t, since, until) && Blocked(cfg, t, 1) && t.r.ep.recvNext == 2
  {
    var take := Move(true, Deliver(Ack(1)));
    SecondAcked(cfg, s);
    GoesByOne(cfg, s, take, since);
    var u := Step(cfg, Received, s, take);
    var tick := LastTick(cfg, u, since);
    GoesThen(cfg, s, [take], u, tick, since, since);
    run, t, until := [take] + [tick], Step(cfg, Received, u, tick), tick.act.now;
  }

  lemma AckFreesFirst(cfg: Config, e: Endpoint)
    requires e.queue.Keys == {0, 1} && e.window == 1 && cfg.windowMax >= 2
    ensures var f := Acknowledge(cfg, e, 1); f.queue.Keys == {1} && f.window == 2
  {
    assert (set s | s in e.queue && s < 1) == {0};
  }

  /** One sender on a network that loses nothing: two chunks are sent, both arrive and both are
      acknowledged, and the thread of the second waits for ever. */
  lemma ReceivedBlocks(cfg: Config, since: int) returns (run: seq<Move>, s: System, until: int)
    requires cfg.Valid() && cfg.windowMin == 1 && cfg.windowInit >= 2
    ensures Goes(cfg, Start(cfg), run, s, since, until)
    ensures Sound(s) && Blocked(cfg, s, 1) && s.r.ep.recvNext == |s.l.sent| == 2
  {
    var s0 := Start(cfg);
    var next, t, later;
    run, s := SendFirst(cfg, since);
    FirstWindow(cfg, run, s);
    next, t, until := ShrinkToOne(cfg, s, since);
    GoesOn(cfg, s0, run, s, next, t, since, since, until);
    run, s := run + next, t;
    next, t, later := NumberSecond(cfg, s, until);
    GoesOn(cfg, s0, run, s, next, t, since, until, later);
    run, s := run + next, t;
    next, t := TakeBoth(cfg, s, later);
    GoesOn(cfg, s0, run, s, next, t, since, later, later);
    run, s := run + next, t;
    next, t, until := AckThenTick(cfg, s, later);
    GoesOn(cfg, s0, run, s, next, t, since, later, until);
    run, s := run + next, t;
    StartSound(cfg);
    RunSound(cfg, Received, s0, run);
  }

  lemma FirstWindow(cfg: Config, run: seq<Move>, s: System)
    requires cfg.Valid() && Leads(cfg, Start(cfg), run, s)
    ensures s.l.ep.window >= 1
  {
    RunWindowOnly(cfg, Received, Start(cfg), run);
  }
}
