/** What a reader gets: all bytes that have come in order, and the end of the stream once the
    other side has closed. */
module RtpReading {
  import opened Basics
  import opened RtpEndpoint
  import opened RtpNetwork
  import opened RtpRetention
  import opened RtpTiming
  import opened RtpWindow
  import opened RtpRecovery

  /** A read returns as many bytes as were asked for, or all there are. */
  lemma ReadExact(cfg: Config, rule: AckRule, s: System, n: nat)
    requires MayRecv(s.r.ep)
    ensures var t := Step(cfg, rule, s, Move(false, Recv(n)));
      && |t.r.got| == |s.r.got| + Min(n, |s.r.ep.recvBuf|) && s.r.got <= t.r.got
      && t.r.got + t.r.ep.recvBuf == s.r.got + s.r.ep.recvBuf && t.r.ep.recvNext == s.r.ep.recvNext
  {
    assert s.r.ep.recvBuf == Taken(s.r.ep, n) + Take(s.r.ep, n).recvBuf;
  }

  /** With the cumulative ACK, from every reachable state with both sockets open there is a
      continuation, without any clock going back, after which the reader has got every byte of
      the chunks numbered so far. */
  lemma CumulativeReads(cfg: Config, run: seq<Move>, since: int) returns (more: seq<Move>, t: System, until: int)
    requires cfg.Valid() && Legal(cfg, Cumulative, Start(cfg), run)
    requires var s := Run(cfg, Cumulative, Start(cfg), run); !s.l.ep.closed && !s.r.ep.closed
    ensures var s := Run(cfg, Cumulative, Start(cfg), run);
      ComesTo(cfg, Cumulative, s, more, t) && Timely(more, since, until) && t.r.got == Flatten(s.l.sent)
  {
    var s := Run(cfg, Cumulative, Start(cfg), run);
    StartSound(cfg);
    RunSound(cfg, Cumulative, Start(cfg), run);
    more, t, until := CumulativeRecovers(cfg, run, since);
    ComesSound(cfg, Cumulative, s, more, t);
    assert t.l.sent[..t.r.ep.recvNext] == t.l.sent;
    if t.r.ep.recvBuf != [] {
      var m := Move(false, Recv(|t.r.ep.recvBuf|));
      ReadExact(cfg, Cumulative, t, |t.r.ep.recvBuf|);
      ComesByOne(cfg, Cumulative, t, m);
      ComesOn(cfg, Cumulative, s, more, t, [m], Step(cfg, Cumulative, t, m));
      TimelyThen(more, since, until, [m]);
      more, t := more + [m], Step(cfg, Cumulative, t, m);
    }
  }

  // ---------- the end of the stream ----------

  /** The right node takes in a FIN. */
  predicate TakesFin(s: System, m: Move) {
    !m.atLeft && m.act.Deliver? && m.act.pkt.Fin? && !s.r.ep.closed
  }

  predicate FinTaken(cfg: Config, rule: AckRule, s: System, run: seq<Move>)
    requires Legal(cfg, rule, s, run)
    decreases |run|
  {
    run != [] && (TakesFin(s, run[0]) || FinTaken(cfg, rule, Step(cfg, rule, s, run[0]), run[1..]))
  }

  lemma FinNoted(cfg: Config, rule: AckRule, s: System, m: Move)
    requires Enabled(cfg, s, m)
    ensures Step(cfg, rule, s, m).r.ep.peerClosed <==> s.r.ep.peerClosed || TakesFin(s, m)
  {
    if !m.atLeft && m.act.Deliver? {
      FinReceived(cfg, s.r.ep, m.act.pkt);
    }
  }

  lemma FinReceived(cfg: Config, e: Endpoint, p: Packet)
    ensures Receive(cfg, e, p).peerClosed <==> e.peerClosed || (p.Fin? && !e.closed)
  {
  }

  lemma {:induction false} FinsNoted(cfg: Config, rule: AckRule, s: System, run: seq<Move>)
    requires Legal(cfg, rule, s, run)
    ensures Run(cfg, rule, s, run).r.ep.peerClosed <==> s.r.ep.peerClosed || FinTaken(cfg, rule, s, run)
    decreases |run|
  {
    if run == [] {
    } else {
      FinNoted(cfg, rule, s, run[0]);
      FinsNoted(cfg, rule, Step(cfg, rule, s, run[0]), run[1..]);
    }
  }

  /** In every run a read blocks exactly as long as nothing is left to read of what has come in
      order and no FIN has been taken in. */
  lemma BlocksExactly(cfg: Config, rule: AckRule, run: seq<Move>)
    requires Legal(cfg, rule, Start(cfg), run)
    ensures var s := Run(cfg, rule, Start(cfg), run);
      s.r.ep.recvNext <= |s.l.sent| &&
      (MayRecv(s.r.ep) <==> |s.r.got| < |Flatten(s.l.sent[..s.r.ep.recvNext])| || FinTaken(cfg, rule, Start(cfg), run))
  {
    StartSound(cfg);
    RunSound(cfg, rule, Start(cfg), run);
    FinsNoted(cfg, rule, Start(cfg), run);
    var s := Run(cfg, rule, Start(cfg), run);
    assert |s.r.got + s.r.ep.recvBuf| == |s.r.got| + |s.r.ep.recvBuf|;
  }

  /** A FIN is under way, or has been taken in, only if its sender has closed. */
  predicate FinOfClosed(s: System) {
    (Fin in s.toR || s.r.ep.peerClosed ==> s.l.ep.closed) && Fin !in s.l.waiting
  }

  lemma LeftMoveFin(cfg: Config, rule: AckRule, s: System, a: Action)
    requires EnabledLeft(cfg, s, a) && FinOfClosed(s) && QueueFiled(s.l.ep.queue)
    ensures FinOfClosed(StepLeft(cfg, rule, s, a))
  {
    match a
    case RetransmitTick(now) => assert Fin !in DuePackets(cfg, s.l.ep, now);
    case Deliver(p) =>
      assert Fin !in Replies(cfg, rule, s.l.ep, p);
      ReceiveNumbers(cfg, s.l.ep, p);
    case _ =>
  }

  lemma RightMoveFin(cfg: Config, rule: AckRule, s: System, a: Action)
    requires EnabledLeft(cfg, Flip(s), a) && FinOfClosed(s)
    ensures FinOfClosed(Flip(StepLeft(cfg, rule, Flip(s), a)))
  {
    match a
    case Deliver(p) => FinReceived(cfg, s.r.ep, p);
    case _ =>
  }

  lemma StepFin(cfg: Config, rule: AckRule, s: System, m: Move)
    requires Sound(s) && Enabled(cfg, s, m) && FinOfClosed(s)
    ensures FinOfClosed(Step(cfg, rule, s, m))
  {
    if m.atLeft {
      LeftMoveFin(cfg, rule, s, m.act);
    } else {
      RightMoveFin(cfg, rule, s, m.act);
    }
  }

  lemma {:induction false} RunFin(cfg: Config, rule: AckRule, s: System, run: seq<Move>)
    requires Sound(s) && FinOfClosed(s) && Legal(cfg, rule, s, run)
    ensures FinOfClosed(Run(cfg, rule, s, run))
    decreases |run|
  {
    if run == [] {
    } else {
      StepFin(cfg, rule, s, run[0]);
      StepSound(cfg, rule, s, run[0]);
      RunFin(cfg, rule, Step(cfg, rule, s, run[0]), run[1..]);
    }
  }

  /** In every run: a reader that is told of the end, because nothing is buffered and a read does
      not block, has a peer that has closed its socket. */
  lemma EndIsReal(cfg: Config, rule: AckRule, run: seq<Move>)
    requires Legal(cfg, rule, Start(cfg), run)
    ensures var s := Run(cfg, rule, Start(cfg), run);
      MayRecv(s.r.ep) && s.r.ep.recvBuf == [] ==> s.l.ep.closed
  {
    StartSound(cfg);
    RunFin(cfg, rule, Start(cfg), run);
  }
}
