/** Time on the sending side: when a packet counts as overdue, and runs whose clock readings do
    not go back. */
module RtpTiming {
  import opened Basics
  import opened RtpEndpoint
  import opened RtpNetwork
  import opened RtpRetention

  // ---------- when a packet is resent ----------

  /** When packet k was last sent, if it was last sent at t before the run: whatever else
      happens, a pass that finds more than the timeout gone sends it again. */
  function LastSent(cfg: Config, run: seq<Move>, t: int): int
    decreases |run|
  {
    if run == [] then t
    else if run[0].atLeft && run[0].act.RetransmitTick? && run[0].act.now - t > cfg.rtoMs
    then LastSent(cfg, run[1..], run[0].act.now)
    else LastSent(cfg, run[1..], t)
  }

  /** What a move of the left node leaves of a queue entry that it does not take out. */
  lemma LeftMoveEntry(cfg: Config, rule: AckRule, s: System, a: Action, k: nat)
    requires QueueContiguous(s.l.ep) && EnabledLeft(cfg, s, a)
    requires k in s.l.ep.queue && k in StepLeft(cfg, rule, s, a).l.ep.queue
    ensures StepLeft(cfg, rule, s, a).l.ep.queue[k] ==
      if a.RetransmitTick? then Tick(cfg, s.l.ep, a.now).queue[k] else s.l.ep.queue[k]
  {
    match a
    case Deliver(p) => ReceiveShrinks(cfg, s.l.ep, p);
    case _ =>
  }

  lemma StampMoves(cfg: Config, rule: AckRule, s: System, m: Move, k: nat)
    requires Sound(s) && Enabled(cfg, s, m) && k in s.l.ep.queue && k in Step(cfg, rule, s, m).l.ep.queue
    ensures Step(cfg, rule, s, m).l.ep.queue[k] ==
      Entry(s.l.ep.queue[k].pkt, LastSent(cfg, [m], s.l.ep.queue[k].stamp))
  {
    assert [m][1..] == [];
    if m.atLeft {
      LeftMoveEntry(cfg, rule, s, m.act, k);
      if m.act.RetransmitTick? {
        DueExact(cfg, s.l.ep, m.act.now, k);
      }
    }
  }

  /** In every run: as long as a packet is queued, its stamp says when it was last sent. */
  lemma {:induction false} StampExact(cfg: Config, rule: AckRule, s: System, run: seq<Move>, k: nat)
    requires Sound(s) && Legal(cfg, rule, s, run) && k in s.l.ep.queue && k in Run(cfg, rule, s, run).l.ep.queue
    ensures Run(cfg, rule, s, run).l.ep.queue[k] ==
      Entry(s.l.ep.queue[k].pkt, LastSent(cfg, run, s.l.ep.queue[k].stamp))
    decreases |run|
  {
    if run == [] {
    } else {
      var t := Step(cfg, rule, s, run[0]);
      StepSound(cfg, rule, s, run[0]);
      StaysGone(cfg, rule, t, run[1..], k);
      StampMoves(cfg, rule, s, run[0], k);
      StampExact(cfg, rule, t, run[1..], k);
      assert [run[0]][1..] == [];
    }
  }

  /** What has left the queue does not come back. */
  lemma {:induction false} StaysGone(cfg: Config, rule: AckRule, s: System, run: seq<Move>, k: nat)
    requires Sound(s) && Legal(cfg, rule, s, run) && k < s.l.ep.sendSeq
    ensures k in Run(cfg, rule, s, run).l.ep.queue ==> k in s.l.ep.queue
    decreases |run|
  {
    if run == [] {
    } else {
      var t := Step(cfg, rule, s, run[0]);
      StepSound(cfg, rule, s, run[0]);
      StaysGone(cfg, rule, t, run[1..], k);
      if run[0].atLeft && k !in s.l.ep.queue {
        LeftMoveUnqueued(cfg, rule, s, run[0].act, k);
      }
    }
  }

  /** A chunk is numbered at some time, then anything happens; as long as it is not acknowledged,
      a pass puts one copy of its packet on the wire if more than the timeout has gone since the
      packet was last sent, and none otherwise. */
  lemma ResentExact(cfg: Config, rule: AckRule, s: System, chunk: Bytes, at: int, run: seq<Move>, now: int)
    requires Sound(s) && Enabled(cfg, s, Move(true, NumberChunk(chunk, at)))
    requires Legal(cfg, rule, Step(cfg, rule, s, Move(true, NumberChunk(chunk, at))), run)
    ensures var t := Run(cfg, rule, Step(cfg, rule, s, Move(true, NumberChunk(chunk, at))), run);
      var p := NextPacket(s.l.ep, chunk);
      s.l.ep.sendSeq in t.l.ep.queue && MayTick(t.l) ==>
        Step(cfg, rule, t, Move(true, RetransmitTick(now))).toR[p]
        == t.toR[p] + if now - LastSent(cfg, run, at) > cfg.rtoMs then 1 else 0
  {
    var u, k := Step(cfg, rule, s, Move(true, NumberChunk(chunk, at))), s.l.ep.sendSeq;
    var t := Run(cfg, rule, u, run);
    StepSound(cfg, rule, s, Move(true, NumberChunk(chunk, at)));
    RunSound(cfg, rule, u, run);
    assert u.l.ep.queue[k] == Entry(NextPacket(s.l.ep, chunk), at);
    if k in t.l.ep.queue && MayTick(t.l) {
      StampExact(cfg, rule, u, run, k);
      DueExact(cfg, t.l.ep, now, k);
    }
  }

  /** Until the timeout has gone by since it was numbered, nothing resends a packet. */
  lemma {:induction false} NotYetResent(cfg: Config, run: seq<Move>, at: int)
    requires forall m :: m in run && m.atLeft && m.act.RetransmitTick? ==> m.act.now <= at + cfg.rtoMs
    ensures LastSent(cfg, run, at) == at
    decreases |run|
  {
    if run == [] {
    } else {
      assert run[0] in run && forall m :: m in run[1..] ==> m in run;
      NotYetResent(cfg, run[1..], at);
    }
  }

  // ---------- clock readings in order ----------

  function TimeOf(m: Move): Option<int> {
    match m.act
    case NumberChunk(_, now) => Some(now)
    case RetransmitTick(now) => Some(now)
    case _ => None
  }

  /** The clock readings of a run never go back, from one time to another. */
  predicate Timely(run: seq<Move>, since: int, until: int)
    decreases |run|
  {
    if run == [] then since <= until
    else match TimeOf(run[0])
      case Some(now) => since <= now && Timely(run[1..], now, until)
      case None => Timely(run[1..], since, until)
  }

  predicate Timeless(run: seq<Move>) {
    forall m <- run :: TimeOf(m) == None
  }

  lemma {:induction false} TimelyOn(a: seq<Move>, since: int, between: int, b: seq<Move>, until: int)
    requires Timely(a, since, between) && Timely(b, between, until)
    ensures Timely(a + b, since, until)
    decreases |a|
  {
    if a == [] {
      assert a + b == b;
      Later(b, since, between, until);
    } else {
      assert (a + b)[1..] == a[1..] + b;
      TimelyOn(a[1..], match TimeOf(a[0]) case Some(now) => now case None => since, between, b, until);
    }
  }

  /** What is in order from some time on is in order from an earlier one on. */
  lemma {:induction false} Later(run: seq<Move>, since: int, between: int, until: int)
    requires since <= between && Timely(run, between, until)
    ensures Timely(run, since, until)
    decreases |run|
  {
    if run == [] {
    } else if TimeOf(run[0]).None? {
      Later(run[1..], since, between, until);
    }
  }

  lemma {:induction false} TimelessTimely(run: seq<Move>, since: int)
    requires Timeless(run)
    ensures Timely(run, since, since)
    decreases |run|
  {
    if run == [] {
    } else {
      assert run[0] in run && forall m :: m in run[1..] ==> m in run;
      TimelessTimely(run[1..], since);
    }
  }

  lemma TimelyOne(m: Move, since: int)
    requires TimeOf(m).Some? && since <= TimeOf(m).value
    ensures Timely([m], since, TimeOf(m).value)
  {
    assert [m][1..] == [];
  }

  /** A run without clock readings behind one with them. */
  lemma TimelyThen(a: seq<Move>, since: int, until: int, b: seq<Move>)
    requires Timely(a, since, until) && Timeless(b)
    ensures Timely(a + b, since, until)
  {
    TimelessTimely(b, until);
    TimelyOn(a, since, until, b, until);
  }
}
