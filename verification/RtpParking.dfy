/** The peer's parked chunks.  In order nothing is parked; with the coded ACK a sender whose
    thread can go on makes the peer park any number of chunks. */
module RtpParking {
  import opened RtpEndpoint
  import opened RtpNetwork
  import opened RtpRetention
  import opened RtpTiming
  import opened RtpWindow
  import opened RtpRecovery
  import opened RtpBlocking

  lemma InOrderStep(cfg: Config, rule: AckRule, s: System, m: Move)
    requires Enabled(cfg, s, m) && !ArrivesAhead(s, m) && s.r.ep.outOfOrder == map[]
    ensures Step(cfg, rule, s, m).r.ep.outOfOrder == map[]
  {
    if !m.atLeft && m.act.Deliver? {
      InOrderReceive(cfg, s.r.ep, m.act.pkt);
    }
  }

  lemma InOrderReceive(cfg: Config, e: Endpoint, p: Packet)
    requires p.Data? && !e.closed ==> p.seqNo <= e.recvNext
    requires e.outOfOrder == map[]
    ensures Receive(cfg, e, p).outOfOrder == map[]
  {
    if p.Data? && !e.closed {
      var f := Acknowledge(cfg, e, p.ack);
      var buf := f.recvBuf + p.payload;
      assert Drain(f.recvNext + 1, buf, map[]) == Drained(f.recvNext + 1, buf, map[]);
    }
  }

  /** As long as no chunk arrives ahead of the cursor none is parked, under either ACK rule. */
  lemma {:induction false} InOrderParksNothing(cfg: Config, rule: AckRule, s: System, run: seq<Move>)
    requires Legal(cfg, rule, s, run) && NoneAhead(cfg, rule, s, run) && s.r.ep.outOfOrder == map[]
    ensures Run(cfg, rule, s, run).r.ep.outOfOrder == map[]
    decreases |run|
  {
    if run == [] {
    } else {
      InOrderStep(cfg, rule, s, run[0]);
      InOrderParksNothing(cfg, rule, Step(cfg, rule, s, run[0]), run[1..]);
    }
  }

  // ---------- the moves of one sender ----------

  lemma {:induction false} CalmLeads(cfg: Config, s: System, run: seq<Move>, t: System)
    requires Calm(cfg, s, run, t)
    ensures Leads(cfg, s, run, t)
    decreases |run|
  {
    if run == [] {
    } else {
      assert run[0] in run;
      CalmLeads(cfg, Step(cfg, Received, s, run[0]), run[1..], t);
    }
  }

  /** A run of one sender with its clock readings in order. */
  ghost predicate Heads(cfg: Config, s: System, run: seq<Move>, t: System, since: int, until: int) {
    Leads(cfg, s, run, t) && Timely(run, since, until)
  }

  lemma HeadsOn(cfg: Config, s: System, a: seq<Move>, t: System, b: seq<Move>, u: System,
      since: int, between: int, until: int)
    requires Heads(cfg, s, a, t, since, between) && Heads(cfg, t, b, u, between, until)
    ensures Heads(cfg, s, a + b, u, since, until)
  {
    LeadsOn(cfg, s, a, t, b, u);
    TimelyOn(a, since, between, b, until);
  }

  lemma LeadsSound(cfg: Config, s: System, run: seq<Move>, t: System)
    requires cfg.Valid() && Leads(cfg, s, run, t) && Sound(s) && WindowOk(cfg, s.l.ep) && WindowOk(cfg, s.r.ep)
    ensures Sound(t) && WindowOk(cfg, t.l.ep) && WindowOk(cfg, t.r.ep)
  {
    RunSound(cfg, Received, s, run);
    RunWindowOnly(cfg, Received, s, run);
  }

  lemma NumberOne(cfg: Config, s: System, since: int) returns (m: Move, t: System)
    requires cfg.Valid() && s.l.waiting == multiset{}
    ensures Heads(cfg, s, [m], t, since, since) && t.r == s.r && t.l.ep == Number(s.l.ep, [0], since)
    ensures t.l.waiting == multiset{NextPacket(s.l.ep, [0])}
  {
    m := Move(true, NumberChunk([0], since));
    t := Step(cfg, Received, s, m);
    LeadsOne(cfg, s, m);
    TimelyOne(m, since);
  }

  lemma TransmitOne(cfg: Config, s: System, p: Packet, since: int) returns (m: Move, t: System)
    requires s.l.waiting == multiset{p} && MayTransmit(s.l.ep)
    ensures Heads(cfg, s, [m], t, since, since) && t.r == s.r && t.l == s.l.(waiting := multiset{})
  {
    m := Move(true, Transmit(p));
    t := Step(cfg, Received, s, m);
    LeadsOne(cfg, s, m);
    TimelessTimely([m], since);
  }

  // ---------- parking one chunk after another ----------

  ghost predicate Open(cfg: Config, s: System) {
    && cfg.Valid() && cfg.windowMax >= 2 && Sound(s) && WindowOk(cfg, s.l.ep) && WindowOk(cfg, s.r.ep)
    && !s.l.ep.closed && !s.r.ep.closed
  }

  /** The peer still needs a chunk, some are queued, and the sender's thread is free. */
  ghost predicate Primed(cfg: Config, s: System) {
    Open(cfg, s) && s.l.waiting == multiset{} && s.l.ep.queue != map[] && s.r.ep.recvNext < s.l.ep.sendSeq
  }

  /** One more chunk is parked, and no older one is queued any more. */
  ghost predicate OneMore(s: System, t: System) {
    && t.l.ep.sendSeq == s.l.ep.sendSeq + 1 && t.l.ep.queue.Keys == {s.l.ep.sendSeq}
    && t.r.ep.recvNext == s.r.ep.recvNext && t.r.ep.outOfOrder.Keys == s.r.ep.outOfOrder.Keys + {s.l.ep.sendSeq}
  }

  /** The next chunk is numbered, resent by a timeout, parked and acknowledged, which frees the
      older ones and with them its thread. */
  lemma ParkOne(cfg: Config, s: System, since: int) returns (run: seq<Move>, t: System, until: int)
    requires Primed(cfg, s)
    ensures Heads(cfg, s, run, t, since, until) && Primed(cfg, t) && OneMore(s, t)
  {
    var n := s.l.ep.sendSeq;
    var m1, u := NumberOne(cfg, s, since);
    LeadsSound(cfg, s, [m1], u);
    OthersQueued(u.l.ep, n);
    var settles, v;
    settles, v, until := NewestSettles(cfg, u, n, since);
    CalmLeads(cfg, u, settles, v);
    assert |v.l.ep.queue| == |v.l.ep.queue.Keys| == 1;
    var m2;
    m2, t := TransmitOne(cfg, v, NextPacket(s.l.ep, [0]), until);
    HeadsOn(cfg, s, [m1], u, settles, v, since, since, until);
    HeadsOn(cfg, s, [m1] + settles, v, [m2], t, since, until, until);
    run := [m1] + settles + [m2];
    LeadsSound(cfg, s, run, t);
  }

  /** n more chunks are parked; the one at the cursor is not queued, unless n is 0. */
  ghost predicate More(s: System, t: System, n: nat) {
    && |t.r.ep.outOfOrder| == |s.r.ep.outOfOrder| + n && t.r.ep.recvNext == s.r.ep.recvNext
    && (n > 0 ==> t.r.ep.recvNext !in t.l.ep.queue)
  }

  lemma {:induction false} ParkMany(cfg: Config, s: System, n: nat, since: int)
    returns (run: seq<Move>, t: System, until: int)
    requires Primed(cfg, s)
    ensures Heads(cfg, s, run, t, since, until) && Primed(cfg, t) && More(s, t, n)
    decreases n
  {
    if n == 0 {
      run, t, until := [], s, since;
    } else {
      var first, u, between := ParkMany(cfg, s, n - 1, since);
      var more;
      more, t, until := ParkOne(cfg, u, between);
      HeadsOn(cfg, s, first, u, more, t, since, between, until);
      run := first + more;
      OneMoreParked(u, t);
    }
  }

  lemma OneMoreParked(s: System, t: System)
    requires Sound(s) && OneMore(s, t)
    ensures |t.r.ep.outOfOrder| == |s.r.ep.outOfOrder| + 1
  {
    assert s.l.ep.sendSeq !in s.r.ep.outOfOrder;
    assert |t.r.ep.outOfOrder| == |t.r.ep.outOfOrder.Keys| && |s.r.ep.outOfOrder| == |s.r.ep.outOfOrder.Keys|;
  }

  /** Once the older chunks are not queued, the network can lose the one at the cursor. */
  lemma LoseFirst(cfg: Config, s: System, n: nat, since: int)
    returns (run: seq<Move>, t: System, until: int)
    requires Primed(cfg, s)
    ensures Heads(cfg, s, run, t, since, until) && !t.l.ep.closed && !t.r.ep.closed
    ensures |t.r.ep.outOfOrder| == |s.r.ep.outOfOrder| + n
    ensures t.r.ep.recvNext == s.r.ep.recvNext && (n > 0 ==> Lost(t, t.r.ep.recvNext))
  {
    var u;
    run, u, until := ParkMany(cfg, s, n, since);
    var drops := DropAll(cfg, Received, u, u.r.ep.recvNext);
    t := Run(cfg, Received, u, drops);
    CalmLeads(cfg, u, drops, t);
    TimelessTimely(drops, until);
    HeadsOn(cfg, s, run, u, drops, t, since, until, until);
    run := run + drops;
  }

  // ---------- getting there ----------

  /** The sender's thread is free, and will be again after one more chunk. */
  ghost predicate Ready(cfg: Config, s: System) {
    Open(cfg, s) && s.l.waiting == multiset{} && (s.l.ep.queue != map[] || s.l.ep.window >= 2)
  }

  /** With nothing queued and a window of two or more a chunk goes out at once. */
  lemma PrimeFresh(cfg: Config, s: System, since: int) returns (run: seq<Move>, t: System)
    requires Ready(cfg, s) && s.l.ep.queue == map[]
    ensures Heads(cfg, s, run, t, since, since) && Primed(cfg, t) && t.r == s.r
  {
    var m1, u := NumberOne(cfg, s, since);
    assert u.l.ep.queue.Keys == {s.l.ep.sendSeq} && |u.l.ep.queue| == |u.l.ep.queue.Keys| == 1;
    var m2;
    m2, t := TransmitOne(cfg, u, NextPacket(s.l.ep, [0]), since);
    HeadsOn(cfg, s, [m1], u, [m2], t, since, since, since);
    run := [m1] + [m2];
    LeadsSound(cfg, s, run, t);
  }

  /** The peer sends a chunk of its own, which acknowledges everything. */
  lemma PeerAnswers(cfg: Config, s: System, since: int) returns (run: seq<Move>, t: System, until: int)
    requires Ready(cfg, s) && s.l.ep.queue != map[] && s.r.ep.recvNext == s.l.ep.sendSeq
    ensures Heads(cfg, s, run, t, since, until) && Ready(cfg, t) && t.l.ep.queue == map[]
  {
    var m1 := Move(false, NumberChunk([0], since));
    TimelyOne(m1, since);
    var u := Step(cfg, Received, s, m1);
    LeadsOne(cfg, s, m1);
    LeadsSound(cfg, s, [m1], u);
    var m2, v := ResendRight(cfg, u, since);
    until := m2.act.now;
    CalmLeads(cfg, u, [m2], v);
    HeadsOn(cfg, s, [m1], u, [m2], v, since, since, until);
    LeadsSound(cfg, s, [m1] + [m2], v);
    NewestQueued(s.l.ep, s.l.ep.sendSeq - 1);
    var m3;
    m3, t := HighAckFrees(cfg, v, u.r.ep.queue[s.r.ep.sendSeq].pkt, s.l.ep.sendSeq - 1);
    CalmLeads(cfg, v, [m3], t);
    TimelessTimely([m3], until);
    HeadsOn(cfg, s, [m1] + [m2], v, [m3], t, since, until, until);
    run := [m1] + [m2] + [m3];
    LeadsSound(cfg, s, run, t);
  }

  lemma Prime(cfg: Config, s: System, since: int) returns (run: seq<Move>, t: System, until: int)
    requires Ready(cfg, s)
    ensures Heads(cfg, s, run, t, since, until) && Primed(cfg, t)
    ensures s.l.ep.queue == map[] ==> t.r == s.r
  {
    until := since;
    if s.l.ep.queue == map[] {
      run, t := PrimeFresh(cfg, s, since);
    } else if s.r.ep.recvNext == s.l.ep.sendSeq {
      var first, u, second;
      first, u, until := PeerAnswers(cfg, s, since);
      second, t := PrimeFresh(cfg, u, until);
      HeadsOn(cfg, s, first, u, second, t, since, until, until);
      run := first + second;
    } else {
      run, t := [], s;
    }
  }

  /** The sender's one thread can go on, for more than the chunk it may be holding: it is free
      or its window is two or more; or, while it waits, more than one chunk is queued or an ACK
      of them all is out. */
  ghost predicate CanGoOn(s: System) {
    if s.l.waiting == multiset{} then s.l.ep.queue != map[] || s.l.ep.window >= 2
    else if MayTransmit(s.l.ep) then s.l.ep.window >= 2
    else |s.l.ep.queue| >= 2 || (s.l.ep.sendSeq > 0 && HighAckOut(s, s.l.ep.sendSeq - 1))
  }

  lemma Unblock(cfg: Config, s: System, since: int) returns (run: seq<Move>, t: System, until: int)
    requires Open(cfg, s) && s.l.waiting != multiset{} && !MayTransmit(s.l.ep) && CanGoOn(s)
    ensures Heads(cfg, s, run, t, since, until) && Open(cfg, t) && MayTransmit(t.l.ep) && t.l.ep.window >= 2
    ensures t.l.waiting == s.l.waiting
  {
    var n := s.l.ep.sendSeq - 1;
    NewestQueued(s.l.ep, n);
    if |s.l.ep.queue| >= 2 {
      run, t, until := NewestSettles(cfg, s, n, since);
      assert |t.l.ep.queue| == |t.l.ep.queue.Keys| == 1;
    } else {
      run, t, until := HighAckReleases(cfg, s, n, since);
    }
    CalmLeads(cfg, s, run, t);
    LeadsSound(cfg, s, run, t);
  }

  lemma Hold(s: System) returns (p: Packet)
    requires |s.l.waiting| == 1
    ensures s.l.waiting == multiset{p}
  {
    p :| p in s.l.waiting;
    assert |s.l.waiting - multiset{p}| == 0;
    assert s.l.waiting == (s.l.waiting - multiset{p}) + multiset{p};
  }

  lemma GetReady(cfg: Config, s: System, since: int) returns (run: seq<Move>, t: System, until: int)
    requires Open(cfg, s) && |s.l.waiting| <= 1 && CanGoOn(s)
    ensures Heads(cfg, s, run, t, since, until) && Ready(cfg, t)
    ensures s.l.waiting == multiset{} ==> t == s
  {
    run, t, until := [], s, since;
    if s.l.waiting != multiset{} {
      if !MayTransmit(s.l.ep) {
        run, t, until := Unblock(cfg, s, since);
      }
      var p := Hold(t);
      var m, u := TransmitOne(cfg, t, p, until);
      HeadsOn(cfg, s, run, t, [m], u, since, until, until);
      run, t := run + [m], u;
      LeadsSound(cfg, s, run, t);
    }
  }

  /** With the coded ACK, from every state with both sockets open and one sending thread that
      can go on, the network can make the peer park any number of chunks and lose the one at
      its cursor, for any settings with a maximal window of two or more, without any clock going
      back. */
  lemma ReceivedParksWithoutBound(cfg: Config, s: System, n: nat, since: int)
    returns (run: seq<Move>, t: System, until: int)
    requires Open(cfg, s) && |s.l.waiting| <= 1 && CanGoOn(s)
    ensures Heads(cfg, s, run, t, since, until) && !t.l.ep.closed && !t.r.ep.closed
    ensures |t.r.ep.outOfOrder| >= n && (n > 0 ==> Lost(t, t.r.ep.recvNext))
    ensures s.l.waiting == multiset{} && s.l.ep.queue == map[] ==>
      |t.r.ep.outOfOrder| == |s.r.ep.outOfOrder| + n && t.r.ep.recvNext == s.r.ep.recvNext
  {
    var first, u, ready := GetReady(cfg, s, since);
    var second, v, primed := Prime(cfg, u, ready);
    var third;
    third, t, until := LoseFirst(cfg, v, n, primed);
    HeadsOn(cfg, s, first, u, second, v, since, ready, primed);
    HeadsOn(cfg, s, first + second, v, third, t, since, primed, until);
    run := first + second + third;
  }

  /** The default settings are as the theorems on blocking and parking ask. */
  lemma DefaultsMeetThem()
    ensures var cfg := DEFAULT_CONFIG; cfg.Valid() && cfg.windowMin == 1 && cfg.windowInit >= 2
  {
  }

  /** In particular from the start: n chunks are parked while chunk 0 is lost. */
  lemma ReceivedParksFromStart(cfg: Config, n: nat, since: int)
    returns (run: seq<Move>, t: System, until: int)
    requires cfg.Valid() && cfg.windowInit >= 2
    ensures Heads(cfg, Start(cfg), run, t, since, until) && !t.l.ep.closed && !t.r.ep.closed
    ensures |t.r.ep.outOfOrder| == n && t.r.ep.recvNext == 0 && (n > 0 ==> Lost(t, 0))
  {
    StartSound(cfg);
    run, t, until := ReceivedParksWithoutBound(cfg, Start(cfg), n, since);
  }
}
