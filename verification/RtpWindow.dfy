/** The AIMD window, the size of the send queue, and how far ahead of its cursor the peer
    has to park chunks with cumulative ACKs. */
module RtpWindow {
  import opened Basics
  import opened RtpEndpoint
  import opened RtpNetwork
  import opened RtpRetention

  predicate WindowOk(cfg: Config, e: Endpoint) {
    cfg.windowMin <= e.window <= cfg.windowMax
  }

  /** The left node numbers its next chunk only when no thread is still waiting. */
  predicate OneSender(cfg: Config, rule: AckRule, s: System, run: seq<Move>)
    requires Legal(cfg, rule, s, run)
    decreases |run|
  {
    run == [] || ((run[0].atLeft && run[0].act.NumberChunk? ==> s.l.waiting == multiset{})
                  && OneSender(cfg, rule, Step(cfg, rule, s, run[0]), run[1..]))
  }

  /** Between two chunks there is room for one more below the maximal window. */
  predicate HasRoom(cfg: Config, n: Node) {
    n.ep.closed || |n.ep.queue| + (if n.waiting == multiset{} then 1 else 0) <= cfg.windowMax
  }

  lemma SubsetCard(a: set<nat>, b: set<nat>)
    requires a <= b
    ensures |a| <= |b|
  {
    assert b == a + (b - a);
  }

  lemma LeftMoveWindow(cfg: Config, rule: AckRule, s: System, a: Action)
    requires EnabledLeft(cfg, s, a) && cfg.Valid() && WindowOk(cfg, s.l.ep)
    ensures WindowOk(cfg, StepLeft(cfg, rule, s, a).l.ep)
  {
    match a
    case Deliver(p) => ReceiveWindow(cfg, s.l.ep, p);
    case _ =>
  }

  lemma ReceiveWindow(cfg: Config, e: Endpoint, p: Packet)
    requires WindowOk(cfg, e)
    ensures WindowOk(cfg, Receive(cfg, e, p))
  {
    AcknowledgeWindow(cfg, e, AckOf(p));
  }

  lemma AcknowledgeWindow(cfg: Config, e: Endpoint, ack: nat)
    requires WindowOk(cfg, e)
    ensures WindowOk(cfg, Acknowledge(cfg, e, ack))
  {
  }

  lemma NumberCard(e: Endpoint, chunk: Bytes, now: int)
    ensures |Number(e, chunk, now).queue| <= |e.queue| + 1
  {
    assert Number(e, chunk, now).queue.Keys == e.queue.Keys + {e.sendSeq};
  }

  lemma LeftMoveRoom(cfg: Config, rule: AckRule, s: System, a: Action)
    requires EnabledLeft(cfg, s, a) && WindowOk(cfg, s.l.ep) && HasRoom(cfg, s.l)
    requires a.NumberChunk? ==> s.l.waiting == multiset{}
    ensures HasRoom(cfg, StepLeft(cfg, rule, s, a).l)
  {
    var t := StepLeft(cfg, rule, s, a);
    match a
    case NumberChunk(chunk, now) =>
      assert NextPacket(s.l.ep, chunk) in t.l.waiting;
      NumberCard(s.l.ep, chunk, now);
    case Deliver(p) =>
      ReceiveShrinks(cfg, s.l.ep, p);
      SubsetCard(t.l.ep.queue.Keys, s.l.ep.queue.Keys);
    case RetransmitTick(now) => assert t.l.ep.queue.Keys == s.l.ep.queue.Keys;
    case _ =>
  }

  lemma {:induction false} RunWindow(cfg: Config, rule: AckRule, s: System, run: seq<Move>)
    requires cfg.Valid() && Legal(cfg, rule, s, run) && WindowOk(cfg, s.l.ep) && WindowOk(cfg, s.r.ep)
    requires HasRoom(cfg, s.l)
    ensures var t := Run(cfg, rule, s, run);
      && WindowOk(cfg, t.l.ep) && WindowOk(cfg, t.r.ep)
      && (OneSender(cfg, rule, s, run) ==> HasRoom(cfg, t.l))
    decreases |run|
  {
    if run == [] {
    } else {
      var m := run[0];
      LeftMoveWindow(cfg, rule, if m.atLeft then s else Flip(s), m.act);
      if m.atLeft && m.act.NumberChunk? && s.l.waiting != multiset{} {
        RunWindowOnly(cfg, rule, Step(cfg, rule, s, m), run[1..]);
      } else {
        if m.atLeft {
          LeftMoveRoom(cfg, rule, s, m.act);
        }
        RunWindow(cfg, rule, Step(cfg, rule, s, m), run[1..]);
      }
    }
  }

  lemma {:induction false} RunWindowOnly(cfg: Config, rule: AckRule, s: System, run: seq<Move>)
    requires cfg.Valid() && Legal(cfg, rule, s, run) && WindowOk(cfg, s.l.ep) && WindowOk(cfg, s.r.ep)
    ensures var t := Run(cfg, rule, s, run); WindowOk(cfg, t.l.ep) && WindowOk(cfg, t.r.ep)
    decreases |run|
  {
    if run == [] {
    } else {
      LeftMoveWindow(cfg, rule, if run[0].atLeft then s else Flip(s), run[0].act);
      RunWindowOnly(cfg, rule, Step(cfg, rule, s, run[0]), run[1..]);
    }
  }

  /** In every run the window stays between its limits and the unacknowledged chunks are a
      contiguous range ending at the newest one; with one sending thread and an open socket
      there are never more of them than the maximal window. */
  lemma WindowBounds(cfg: Config, rule: AckRule, run: seq<Move>)
    requires cfg.Valid() && Legal(cfg, rule, Start(cfg), run)
    ensures var s := Run(cfg, rule, Start(cfg), run);
      && cfg.windowMin <= s.l.ep.window <= cfg.windowMax
      && QueueContiguous(s.l.ep)
      && (OneSender(cfg, rule, Start(cfg), run) && !s.l.ep.closed ==> |s.l.ep.queue| <= cfg.windowMax)
  {
    StartSound(cfg);
    RunSound(cfg, rule, Start(cfg), run);
    RunWindow(cfg, rule, Start(cfg), run);
  }

  function Range(lo: nat, hi: nat): (r: set<nat>)
    ensures forall k :: k in r <==> lo <= k < hi
    ensures |r| == if lo <= hi then hi - lo else 0
    decreases hi - lo
  {
    if lo < hi then {lo} + Range(lo + 1, hi) else {}
  }

  /** With cumulative ACKs the receiver never parks a chunk further than the maximal window
      ahead of its cursor, although the code puts no cap on the parked chunks. */
  lemma CumulativeBoundsParked(cfg: Config, run: seq<Move>)
    requires cfg.Valid() && Legal(cfg, Cumulative, Start(cfg), run)
    requires OneSender(cfg, Cumulative, Start(cfg), run)
    ensures var s := Run(cfg, Cumulative, Start(cfg), run);
      !s.l.ep.closed ==> forall k <- s.r.ep.outOfOrder.Keys ::
                           s.r.ep.recvNext < k < s.r.ep.recvNext + cfg.windowMax
  {
    StartSound(cfg);
    RunKeeps(cfg, Cumulative, Start(cfg), run);
    RunWindow(cfg, Cumulative, Start(cfg), run);
    var s := Run(cfg, Cumulative, Start(cfg), run);
    SubsetCard(Range(s.r.ep.recvNext, s.l.ep.sendSeq), s.l.ep.queue.Keys);
  }

  // ---------- how the window grows ----------

  /** How many of its chunks an end has had acknowledged. */
  function Acked(e: Endpoint): int {
    e.sendSeq - |e.queue|
  }

  lemma AckedCount(cfg: Config, e: Endpoint, ack: nat)
    ensures var f := Acknowledge(cfg, e, ack);
      Acked(f) >= Acked(e) && f.window == if Acked(f) == Acked(e) then e.window
                                          else Min(cfg.windowMax, e.window + Acked(f) - Acked(e))
  {
    var f := Acknowledge(cfg, e, ack);
    var gone := set s | s in e.queue && s < ack;
    assert e.queue.Keys == f.queue.Keys + gone && f.queue.Keys !! gone;
    assert |e.queue.Keys| == |f.queue.Keys| + |gone|;
  }

  /** The window has grown by what has been acknowledged, up to the maximum. */
  predicate Grown(cfg: Config, e: Endpoint, f: Endpoint) {
    Acked(f) >= Acked(e) && f.window == Min(cfg.windowMax, e.window + Acked(f) - Acked(e))
  }

  lemma GrownOn(cfg: Config, e: Endpoint, f: Endpoint, g: Endpoint)
    requires Grown(cfg, e, f) && Grown(cfg, f, g)
    ensures Grown(cfg, e, g)
  {
  }

  lemma LeftMoveGrows(cfg: Config, rule: AckRule, s: System, a: Action)
    requires EnabledLeft(cfg, s, a) && QueueContiguous(s.l.ep) && s.l.ep.window <= cfg.windowMax && !a.RetransmitTick?
    ensures Grown(cfg, s.l.ep, StepLeft(cfg, rule, s, a).l.ep)
  {
    match a
    case NumberChunk(chunk, now) => NumberGrows(s.l.ep, chunk, now);
    case Deliver(p) => ReceiveGrows(cfg, s.l.ep, p);
    case _ =>
  }

  lemma NumberGrows(e: Endpoint, chunk: Bytes, now: int)
    requires QueueContiguous(e)
    ensures Acked(Number(e, chunk, now)) == Acked(e)
  {
    assert Number(e, chunk, now).queue.Keys == e.queue.Keys + {e.sendSeq};
  }

  lemma ReceiveGrows(cfg: Config, e: Endpoint, p: Packet)
    requires e.window <= cfg.windowMax
    ensures Grown(cfg, e, Receive(cfg, e, p))
  {
    AckedCount(cfg, e, AckOf(p));
  }

  lemma StepGrows(cfg: Config, rule: AckRule, s: System, m: Move)
    requires cfg.Valid() && Sound(s) && WindowOk(cfg, s.l.ep) && Enabled(cfg, s, m)
    requires m.atLeft ==> !m.act.RetransmitTick?
    ensures WindowOk(cfg, Step(cfg, rule, s, m).l.ep) && Grown(cfg, s.l.ep, Step(cfg, rule, s, m).l.ep)
  {
    if m.atLeft {
      LeftMoveGrows(cfg, rule, s, m.act);
      LeftMoveWindow(cfg, rule, s, m.act);
    }
  }

  /** As long as no pass of the retransmission thread comes, the window is what it was, and one
      more for each chunk acknowledged since, up to the maximum: nothing else widens it. */
  lemma {:induction false} WindowGrowsExactly(cfg: Config, rule: AckRule, s: System, run: seq<Move>)
    requires cfg.Valid() && Sound(s) && WindowOk(cfg, s.l.ep) && Legal(cfg, rule, s, run)
    requires forall m :: m in run && m.atLeft ==> !m.act.RetransmitTick?
    ensures Grown(cfg, s.l.ep, Run(cfg, rule, s, run).l.ep)
    decreases |run|
  {
    if run == [] {
    } else {
      assert run[0] in run && forall m :: m in run[1..] ==> m in run;
      var t := Step(cfg, rule, s, run[0]);
      StepGrows(cfg, rule, s, run[0]);
      StepSound(cfg, rule, s, run[0]);
      WindowGrowsExactly(cfg, rule, t, run[1..]);
      GrownOn(cfg, s.l.ep, t.l.ep, Run(cfg, rule, t, run[1..]).l.ep);
    }
  }

  // ---------- runs of one sender ----------

  lemma Prepend(cfg: Config, rule: AckRule, s: System, m: Move, run: seq<Move>)
    requires Enabled(cfg, s, m) && Legal(cfg, rule, Step(cfg, rule, s, m), run)
    requires OneSender(cfg, rule, Step(cfg, rule, s, m), run)
    requires m.atLeft && m.act.NumberChunk? ==> s.l.waiting == multiset{}
    ensures Legal(cfg, rule, s, [m] + run) && OneSender(cfg, rule, s, [m] + run)
    ensures Run(cfg, rule, s, [m] + run) == Run(cfg, rule, Step(cfg, rule, s, m), run)
  {
    assert ([m] + run)[1..] == run;
  }

  /** run leads from s to t and keeps the one-sender discipline. */
  ghost predicate Leads(cfg: Config, s: System, run: seq<Move>, t: System) {
    && Legal(cfg, Received, s, run) && OneSender(cfg, Received, s, run)
    && Run(cfg, Received, s, run) == t
  }

  lemma {:induction false} LeadsOn(cfg: Config, s: System, a: seq<Move>, t: System, b: seq<Move>, u: System)
    requires Leads(cfg, s, a, t) && Leads(cfg, t, b, u)
    ensures Leads(cfg, s, a + b, u)
    decreases |a|
  {
    if a == [] {
      assert a + b == b;
    } else {
      assert (a + b)[1..] == a[1..] + b;
      LeadsOn(cfg, Step(cfg, Received, s, a[0]), a[1..], t, b, u);
    }
  }

  lemma LeadsOne(cfg: Config, s: System, m: Move)
    requires Enabled(cfg, s, m) && (m.atLeft && m.act.NumberChunk? ==> s.l.waiting == multiset{})
    ensures Leads(cfg, s, [m], Step(cfg, Received, s, m))
  {
    Prepend(cfg, Received, s, m, []);
    assert [m] + [] == [m];
  }
}
