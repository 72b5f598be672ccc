/** What can still be delivered, under either ACK rule; and with the cumulative one no state is a
    dead end: from every reachable state with both sockets open the network can behave so that
    everything numbered is delivered and acknowledged. */
module RtpRecovery {
  import opened Basics
  import opened RtpEndpoint
  import opened RtpNetwork
  import opened RtpRetention
  import opened RtpTiming
  import opened RtpWindow

  ghost predicate ComesTo(cfg: Config, rule: AckRule, s: System, run: seq<Move>, t: System) {
    Legal(cfg, rule, s, run) && Run(cfg, rule, s, run) == t
  }

  lemma ComesOn(cfg: Config, rule: AckRule, s: System, a: seq<Move>, t: System, b: seq<Move>, u: System)
    requires ComesTo(cfg, rule, s, a, t) && ComesTo(cfg, rule, t, b, u)
    ensures ComesTo(cfg, rule, s, a + b, u)
  {
    RunAppend(cfg, rule, s, a, b);
  }

  lemma ComesByOne(cfg: Config, rule: AckRule, s: System, m: Move)
    requires Enabled(cfg, s, m)
    ensures ComesTo(cfg, rule, s, [m], Step(cfg, rule, s, m))
  {
    OneMove(cfg, rule, s, m);
  }

  lemma ComesSound(cfg: Config, rule: AckRule, s: System, run: seq<Move>, t: System)
    requires Sound(s) && ComesTo(cfg, rule, s, run, t)
    ensures Sound(t)
  {
    RunSound(cfg, rule, s, run);
  }

  // ---------- resending everything ----------

  /** A time, not before a given one, at which every queued packet is overdue. */
  lemma {:induction false} AllDueAt(cfg: Config, queue: map<nat, Entry>, since: int) returns (now: int)
    ensures now >= since && forall k <- queue.Keys :: now - queue[k].stamp > cfg.rtoMs
    decreases |queue|
  {
    if queue == map[] {
      now := since;
    } else {
      var k :| k in queue;
      RemoveEntry(queue, k);
      var before := AllDueAt(cfg, queue - {k}, since);
      now := if before > queue[k].stamp + cfg.rtoMs then before else queue[k].stamp + cfg.rtoMs + 1;
      assert forall j <- queue.Keys :: j == k || j in queue - {k};
    }
  }

  lemma RemoveEntry(queue: map<nat, Entry>, k: nat)
    requires k in queue
    ensures |queue - {k}| < |queue|
  {
    assert (queue - {k}).Keys == queue.Keys - {k};
  }

  /** Each chunk from the receive cursor on is parked or has a copy on its way to the right. */
  ghost predicate Supplied(s: System) {
    forall k :: s.r.ep.recvNext <= k < s.l.ep.sendSeq ==> k in s.r.ep.outOfOrder || !NoCopy(s.toR, k)
  }

  /** A tick that finds every packet overdue puts each queued chunk on its way. */
  lemma ResendAll(cfg: Config, rule: AckRule, s: System, since: int) returns (m: Move, t: System)
    requires MayTick(s.l)
    ensures m.atLeft && m.act.RetransmitTick? && since <= m.act.now && Timely([m], since, m.act.now)
    ensures Enabled(cfg, s, m) && t == Step(cfg, rule, s, m)
    ensures ComesTo(cfg, rule, s, [m], t)
    ensures t.r == s.r && t.toL == s.toL && s.toR <= t.toR && t.l == s.l.(ep := t.l.ep, ended := t.l.ended)
    ensures t.l.ep == s.l.ep.(queue := t.l.ep.queue, window := t.l.ep.window)
    ensures t.l.ep.queue.Keys == s.l.ep.queue.Keys && (!s.l.ep.closed ==> !t.l.ended)
    ensures t.l.ep.window == if s.l.ep.queue == map[] then s.l.ep.window else Max(cfg.windowMin, s.l.ep.window / 2)
    ensures forall k <- s.l.ep.queue.Keys :: t.l.ep.queue[k].pkt == s.l.ep.queue[k].pkt && s.l.ep.queue[k].pkt in t.toR
  {
    var now := AllDueAt(cfg, s.l.ep.queue, since);
    m := Move(true, RetransmitTick(now));
    TimelyOne(m, since);
    t := Step(cfg, rule, s, m);
    ComesByOne(cfg, rule, s, m);
    assert DueKeys(cfg, s.l.ep, now) == s.l.ep.queue.Keys;
    forall k <- s.l.ep.queue.Keys ensures s.l.ep.queue[k].pkt in t.toR {
      assert s.l.ep.queue[k].pkt in DuePackets(cfg, s.l.ep, now);
    }
  }

  lemma ResendSupplies(cfg: Config, rule: AckRule, s: System, since: int) returns (m: Move, t: System)
    requires Sound(s) && Retained(s) && MayTick(s.l)
    ensures m.act.RetransmitTick? && Timely([m], since, m.act.now)
    ensures ComesTo(cfg, rule, s, [m], t) && Supplied(t) && t.r == s.r && t.l.sent == s.l.sent
    ensures t.l.ep == s.l.ep.(queue := t.l.ep.queue, window := t.l.ep.window) && t.l.waiting == s.l.waiting
  {
    m, t := ResendAll(cfg, rule, s, since);
    forall k | t.r.ep.recvNext <= k < t.l.ep.sendSeq ensures !NoCopy(t.toR, k) {
      assert k in s.l.ep.queue && s.l.ep.queue[k].pkt.seqNo == k;
    }
  }

  // ---------- delivering everything ----------

  lemma DeliverNext(cfg: Config, rule: AckRule, s: System) returns (m: Move, t: System)
    requires Sound(s) && Supplied(s) && !s.r.ep.closed && s.r.ep.recvNext < s.l.ep.sendSeq
    ensures ComesTo(cfg, rule, s, [m], t) && Sound(t) && Supplied(t) && m.act.Deliver?
    ensures t.l == s.l && !t.r.ep.closed && s.r.ep.recvNext < t.r.ep.recvNext
  {
    var k := s.r.ep.recvNext;
    assert !NoCopy(s.toR, k);
    var p :| p in s.toR && p.Data? && p.seqNo == k;
    m := Move(false, Deliver(p));
    t := Step(cfg, rule, s, m);
    ComesByOne(cfg, rule, s, m);
    StepSound(cfg, rule, s, m);
    NextAbsorbed(cfg, s.r.ep, p);
    SuppliedNext(s, t, p);
  }

  lemma SuppliedNext(s: System, t: System, p: Packet)
    requires Supplied(s) && p.Data? && p.seqNo == s.r.ep.recvNext < t.r.ep.recvNext && t.l == s.l
    requires t.toR == s.toR - multiset{p}
    requires forall k <- s.r.ep.outOfOrder.Keys :: t.r.ep.recvNext <= k ==> k in t.r.ep.outOfOrder
    ensures Supplied(t)
  {
    forall j | t.r.ep.recvNext <= j < t.l.ep.sendSeq ensures j in t.r.ep.outOfOrder || !NoCopy(t.toR, j) {
      if j !in s.r.ep.outOfOrder {
        var q :| q in s.toR && q.Data? && q.seqNo == j;
        assert q != p && q in t.toR;
      }
    }
  }

  lemma NextAbsorbed(cfg: Config, e: Endpoint, p: Packet)
    requires p.Data? && p.seqNo == e.recvNext && !e.closed
    ensures var f := Receive(cfg, e, p);
      e.recvNext < f.recvNext && !f.closed && forall k <- e.outOfOrder.Keys :: f.recvNext <= k ==> k in f.outOfOrder
  {
    var f := Acknowledge(cfg, e, p.ack);
    DrainMeaning(f.recvNext + 1, f.recvBuf + p.payload, f.outOfOrder);
  }

  lemma {:induction false} DeliverAll(cfg: Config, rule: AckRule, s: System) returns (run: seq<Move>, t: System)
    requires Sound(s) && Supplied(s) && !s.r.ep.closed
    ensures ComesTo(cfg, rule, s, run, t) && Sound(t) && Timeless(run)
    ensures t.l == s.l && !t.r.ep.closed && t.r.ep.recvNext == t.l.ep.sendSeq
    decreases s.l.ep.sendSeq - s.r.ep.recvNext
  {
    if s.r.ep.recvNext >= s.l.ep.sendSeq {
      run, t := [], s;
    } else {
      var m, u := DeliverNext(cfg, rule, s);
      run, t := DeliverAll(cfg, rule, u);
      ComesOn(cfg, rule, s, [m], u, run, t);
      run := [m] + run;
    }
  }

  /** Everything numbered reaches the peer: one retransmission of the whole queue, and then each
      chunk in order. */
  lemma Recovers(cfg: Config, rule: AckRule, s: System, since: int)
    returns (run: seq<Move>, t: System, until: int)
    requires Sound(s) && Retained(s) && MayTick(s.l) && !s.r.ep.closed
    ensures ComesTo(cfg, rule, s, run, t) && Sound(t) && !t.r.ep.closed && t.r.ep.recvNext == |t.l.sent|
    ensures t.l.sent == s.l.sent && t.l.waiting == s.l.waiting && Timely(run, since, until)
    ensures t.l.ep == s.l.ep.(queue := t.l.ep.queue, window := t.l.ep.window)
  {
    var m, u := ResendSupplies(cfg, rule, s, since);
    ComesSound(cfg, rule, s, [m], u);
    run, t := DeliverAll(cfg, rule, u);
    ComesOn(cfg, rule, s, [m], u, run, t);
    until := m.act.now;
    TimelyThen([m], since, until, run);
    run := [m] + run;
  }

  // ---------- what can still be delivered ----------

  /** Each chunk from the receive cursor on is parked, in the network or with a thread. */
  ghost predicate Afloat(s: System) {
    forall k :: s.r.ep.recvNext <= k < s.l.ep.sendSeq ==>
                  k in s.r.ep.outOfOrder || !NoCopy(s.toR, k) || !NoCopy(s.l.waiting, k)
  }

  /** The last pass of the retransmission thread, if it has not been made. */
  lemma Refloat(cfg: Config, rule: AckRule, s: System, since: int)
    returns (run: seq<Move>, t: System, until: int)
    requires Sound(s) && forall k :: !Stranded(s, k)
    ensures Timely(run, since, until)
    ensures ComesTo(cfg, rule, s, run, t) && Sound(t) && Afloat(t) && t.r == s.r && t.l.ep.sendSeq == s.l.ep.sendSeq
  {
    if MayTick(s.l) {
      var m;
      m, t := ResendAll(cfg, rule, s, since);
      run, until := [m], m.act.now;
      ComesSound(cfg, rule, s, run, t);
    } else {
      run, t, until := [], s, since;
    }
    forall k | t.r.ep.recvNext <= k < t.l.ep.sendSeq
      ensures k in t.r.ep.outOfOrder || !NoCopy(t.toR, k) || !NoCopy(t.l.waiting, k)
    {
      StillAfloat(s, t, k);
    }
  }

  lemma StillAfloat(s: System, t: System, k: nat)
    requires Sound(s) && !Stranded(s, k) && s.r.ep.recvNext <= k < s.l.ep.sendSeq
    requires t.r == s.r && s.toR <= t.toR && t.l.waiting == s.l.waiting
    requires MayTick(s.l) ==> forall j <- s.l.ep.queue.Keys :: s.l.ep.queue[j].pkt in t.toR
    ensures k in t.r.ep.outOfOrder || !NoCopy(t.toR, k) || !NoCopy(t.l.waiting, k)
  {
    if !NoCopy(s.toR, k) {
      var p :| p in s.toR && p.Data? && p.seqNo == k;
      assert p in t.toR;
    } else if MayTick(s.l) && k in s.l.ep.queue {
      assert s.l.ep.queue[k].pkt in t.toR && s.l.ep.queue[k].pkt.seqNo == k;
    }
  }

  /** Closing the sender makes its threads transmit what they hold. */
  lemma LetGo(cfg: Config, rule: AckRule, s: System) returns (run: seq<Move>, t: System)
    requires Sound(s) && Afloat(s)
    ensures Timeless(run)
    ensures ComesTo(cfg, rule, s, run, t) && Sound(t) && Supplied(t) && t.r == s.r && t.l.ep.sendSeq == s.l.ep.sendSeq
  {
    var close, u := CloseLeft(cfg, rule, s);
    var sends := TransmitAll(cfg, rule, u);
    t := Run(cfg, rule, u, sends);
    ComesOn(cfg, rule, s, [close], u, sends, t);
    run := [close] + sends;
    ComesSound(cfg, rule, s, run, t);
    NothingHeld(s, t);
  }

  lemma CloseLeft(cfg: Config, rule: AckRule, s: System) returns (m: Move, t: System)
    ensures m.act.Close? && ComesTo(cfg, rule, s, [m], t) && t.r == s.r && s.toR <= t.toR
    ensures t.l == s.l.(ep := s.l.ep.(closed := true))
  {
    m := Move(true, Close);
    t := Step(cfg, rule, s, m);
    ComesByOne(cfg, rule, s, m);
  }

  lemma NothingHeld(s: System, t: System)
    requires Afloat(s) && t.r == s.r && t.l.ep.sendSeq == s.l.ep.sendSeq
    requires forall p :: p in s.toR || p in s.l.waiting ==> p in t.toR
    ensures Supplied(t)
  {
    forall k | t.r.ep.recvNext <= k < t.l.ep.sendSeq ensures k in t.r.ep.outOfOrder || !NoCopy(t.toR, k) {
      if k !in s.r.ep.outOfOrder {
        var p :| (p in s.toR || p in s.l.waiting) && p.Data? && p.seqNo == k;
        assert p in t.toR;
      }
    }
  }

  /** Some continuation hands the peer everything numbered so far. */
  ghost predicate Deliverable(cfg: Config, rule: AckRule, s: System) {
    exists run :: Legal(cfg, rule, s, run) && Run(cfg, rule, s, run).r.ep.recvNext >= |s.l.sent|
  }

  /** One does whose clock readings start at a given time and never go back. */
  ghost predicate DeliverableFrom(cfg: Config, rule: AckRule, s: System, since: int) {
    exists run, until ::
      Legal(cfg, rule, s, run) && Timely(run, since, until) && Run(cfg, rule, s, run).r.ep.recvNext >= |s.l.sent|
  }

  lemma DeliverableIfAfloat(cfg: Config, rule: AckRule, s: System, since: int)
    requires Sound(s) && !s.r.ep.closed && forall k :: !Stranded(s, k)
    ensures DeliverableFrom(cfg, rule, s, since)
  {
    var first, t, until := Refloat(cfg, rule, s, since);
    var second, u := LetGo(cfg, rule, t);
    var third, v := DeliverAll(cfg, rule, u);
    ComesOn(cfg, rule, s, first, t, second, u);
    ComesOn(cfg, rule, s, first + second, u, third, v);
    TimelyThen(first, since, until, second);
    TimelyThen(first + second, since, until, third);
    assert Run(cfg, rule, s, first + second + third).r.ep.recvNext >= |s.l.sent|;
  }

  /** The exact condition under either ACK rule, with the peer's socket open and whatever has
      happened so far: everything numbered can still be delivered if and only if no chunk is
      stranded, which while the sender's socket is open means lost.  It makes no difference
      whether the clocks may go back or not. */
  lemma DeliverableExact(cfg: Config, rule: AckRule, s: System, since: int)
    requires Sound(s) && !s.r.ep.closed
    ensures Deliverable(cfg, rule, s) <==> forall k :: !Stranded(s, k)
    ensures DeliverableFrom(cfg, rule, s, since) <==> forall k :: !Stranded(s, k)
    ensures !s.l.ep.closed ==> (Deliverable(cfg, rule, s) <==> forall k :: !Lost(s, k))
  {
    assert !s.l.ep.closed ==> forall k :: Stranded(s, k) <==> Lost(s, k);
    if forall k :: !Stranded(s, k) {
      DeliverableIfAfloat(cfg, rule, s, since);
    } else {
      var k :| Stranded(s, k);
      forall run | Legal(cfg, rule, s, run) ensures Run(cfg, rule, s, run).r.ep.recvNext <= k {
        StrandedForever(cfg, rule, s, run, k);
      }
    }
  }

  // ---------- acknowledging everything ----------

  /** A late copy makes the peer send its cursor once more. */
  lemma AskAgain(cfg: Config, s: System, since: int) returns (run: seq<Move>, t: System, until: int)
    requires Sound(s) && !s.r.ep.closed && s.r.ep.recvNext == s.l.ep.sendSeq && s.l.ep.queue != map[] && MayTick(s.l)
    ensures ComesTo(cfg, Cumulative, s, run, t) && Ack(s.l.ep.sendSeq) in t.toL && t.r.ep.recvNext == s.r.ep.recvNext
    ensures t.l.sent == s.l.sent && t.l.waiting == s.l.waiting
    ensures t.l.ep == s.l.ep.(queue := t.l.ep.queue, window := t.l.ep.window)
    ensures t.l.ep.queue.Keys == s.l.ep.queue.Keys && !t.r.ep.closed && Timely(run, since, until)
  {
    var m, u := ResendAll(cfg, Cumulative, s, since);
    until := m.act.now;
    var k :| k in s.l.ep.queue;
    var d;
    d, t := LateCopy(cfg, u, s.l.ep.queue[k].pkt);
    ComesOn(cfg, Cumulative, s, [m], u, [d], t);
    TimelyThen([m], since, until, [d]);
    run := [m] + [d];
  }

  lemma LateCopy(cfg: Config, s: System, p: Packet) returns (m: Move, t: System)
    requires p in s.toR && p.Data? && p.seqNo < s.r.ep.recvNext && !s.r.ep.closed
    ensures ComesTo(cfg, Cumulative, s, [m], t) && t.l == s.l && m.act.Deliver?
    ensures Ack(s.r.ep.recvNext) in t.toL && t.r.ep.recvNext == s.r.ep.recvNext && !t.r.ep.closed
  {
    m := Move(false, Deliver(p));
    t := Step(cfg, Cumulative, s, m);
    assert Replies(cfg, Cumulative, s.r.ep, p) == [Ack(s.r.ep.recvNext)];
    ComesByOne(cfg, Cumulative, s, m);
  }

  lemma TakeLastAck(cfg: Config, s: System) returns (m: Move, t: System)
    requires Sound(s) && !s.l.ep.closed && Ack(s.l.ep.sendSeq) in s.toL
    ensures ComesTo(cfg, Cumulative, s, [m], t) && t.l.ep.queue == map[] && m.act.Deliver?
    ensures t.l == s.l.(ep := t.l.ep) && t.l.ep == s.l.ep.(queue := t.l.ep.queue, window := t.l.ep.window) && t.r == s.r
  {
    m := Move(true, Deliver(Ack(s.l.ep.sendSeq)));
    t := Step(cfg, Cumulative, s, m);
    ComesByOne(cfg, Cumulative, s, m);
  }

  /** In that state every numbered chunk has been delivered, and none is still queued. */
  ghost predicate Settled(s: System, t: System) {
    && t.l.sent == s.l.sent && t.l.waiting == s.l.waiting
    && t.l.ep == s.l.ep.(queue := map[], window := t.l.ep.window)
    && !t.r.ep.closed && t.r.ep.recvNext == |t.l.sent|
  }

  lemma Settles(cfg: Config, s: System, since: int) returns (run: seq<Move>, t: System, until: int)
    requires Sound(s) && Retained(s) && !s.l.ep.closed && !s.r.ep.closed
    ensures ComesTo(cfg, Cumulative, s, run, t) && Settled(s, t) && Timely(run, since, until)
  {
    run, t, until := Recovers(cfg, Cumulative, s, since);
    if t.l.ep.queue != map[] {
      var asks, u, later := AskAgain(cfg, t, until);
      ComesSound(cfg, Cumulative, t, asks, u);
      var m, v := TakeLastAck(cfg, u);
      ComesOn(cfg, Cumulative, t, asks, u, [m], v);
      ComesOn(cfg, Cumulative, s, run, t, asks + [m], v);
      TimelyThen(asks, until, later, [m]);
      TimelyOn(run, since, until, asks + [m], later);
      run, t, until := run + (asks + [m]), v, later;
    }
  }

  /** From every reachable state with both sockets open there is a continuation after which the
      peer has every chunk numbered so far, nothing is queued any more, and every thread that
      is waiting for the window may transmit; its clock readings may start at any time and never
      go back. */
  lemma CumulativeRecovers(cfg: Config, run: seq<Move>, since: int)
    returns (more: seq<Move>, t: System, until: int)
    requires cfg.Valid() && Legal(cfg, Cumulative, Start(cfg), run)
    requires var s := Run(cfg, Cumulative, Start(cfg), run); !s.l.ep.closed && !s.r.ep.closed
    ensures var s := Run(cfg, Cumulative, Start(cfg), run);
      && ComesTo(cfg, Cumulative, s, more, t) && t.l.sent == s.l.sent && t.l.waiting == s.l.waiting
      && t.r.ep.recvNext == |s.l.sent| && t.l.ep.queue == map[] && MayTransmit(t.l.ep)
      && Timely(more, since, until)
  {
    var s := Run(cfg, Cumulative, Start(cfg), run);
    StartSound(cfg);
    RunKeeps(cfg, Cumulative, Start(cfg), run);
    RunWindowOnly(cfg, Cumulative, Start(cfg), run);
    more, t, until := Settles(cfg, s, since);
    RunWindowOnly(cfg, Cumulative, s, more);
  }
}
