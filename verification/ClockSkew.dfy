/** Runs of the clock exchange between two ends whose clocks differ by a constant, over a
    network that delays, loses, repeats and reorders as it likes.  Only the initiator starts
    exchanges; the other end answers and takes commits. */
module ClockSkew {
  import opened Basics
  import opened ClockSync

  /** What the two clocks add to real time, in milliseconds, and the version that the responder
      announces. */
  datatype Clocks = Clocks(initiator: real, responder: real, version: int)

  function Read(t: real, shift: real): int { (t + shift).Floor }

  function Difference(k: Clocks): real { k.responder - k.initiator }

  /** Packets, with the real times that their readings were taken at. */
  datatype Req = Req(t1: int, ver: int, sent: real)
  datatype Ack = Ack(t1: int, t2: int, t3: int, ver: int, sent: real, answered: real)

  /** A finished series: the initiator's punch instant, the sample it relied on, when it ended,
      in real time, and the delay that was asked for. */
  datatype Round = Round(goAt: int, best: Sample, samples: seq<Sample>, ended: real, delay: int)

  /** A firing of the responder's callback by a version 2 commit: the commit's number and the
      instant on its own clock. */
  datatype Firing = Firing(id: int, goAt: int)

  /** A firing by a version 1 commit, with the real time at which the commit was taken. */
  datatype Plain = Plain(delay: int, taken: real, goAt: int)

  datatype World = World(
    now: real, initiator: Syncer, responder: Syncer, reqs: set<Req>, acks: set<Ack>, commits: set<Commit>,
    rounds: seq<Round>, fired: seq<Firing>, plain: seq<Plain>)

  const START := World(0.0, FRESH, FRESH, {}, {}, {}, [], [], [])

  datatype Event =
    | Wait(until: real)
    | StartSync
    | SendReq
    | Answer(req: Req)
    | TakeAck(ack: Ack)
    | EndWait(t1: int, signalled: bool)
    | SendCommit(delay: int)
    | TakeCommit(commit: Commit)

  /** What the network and the clock allow. */
  predicate Possible(w: World, e: Event) {
    match e
    case Wait(until) => until >= w.now
    case Answer(req) => req in w.reqs
    case TakeAck(ack) => ack in w.acks
    case TakeCommit(c) => c in w.commits
    case _ => true
  }

  function Step(k: Clocks, w: World, e: Event): World {
    match e
    case Wait(until) => w.(now := until)
    case StartSync => w.(initiator := Begin(w.initiator))
    case SendReq =>
      var t1 := Read(w.now, k.initiator);
      w.(initiator := Ask(w.initiator, t1), reqs := w.reqs + {Req(t1, PROTO_VER, w.now)})
    case Answer(req) =>
      var t2 := Read(w.now, k.responder);
      w.(responder := OnReq(w.responder, req.ver), acks := w.acks + {Ack(req.t1, t2, t2, k.version, req.sent, w.now)})
    case TakeAck(a) =>
      w.(initiator := OnAck(w.initiator, a.t1, a.t2, a.t3, a.ver, Read(w.now, k.initiator)))
    case EndWait(t1, signalled) => w.(initiator := Collect(w.initiator, t1, signalled))
    case SendCommit(delay) =>
      var (s, out) := Finish(w.initiator, Read(w.now, k.initiator), delay);
      if out.None? then w.(initiator := s)
      else w.(initiator := s, commits := w.commits + {out.value.1},
              rounds := w.rounds + [Round(out.value.0, Best(w.initiator.samples), w.initiator.samples, w.now, delay)])
    case TakeCommit(c) =>
      var (s, goAt) := OnCommit(w.responder, c, Read(w.now, k.responder));
      w.(responder := s,
         fired := if c.V2? && goAt.Some? then w.fired + [Firing(c.id, goAt.value)] else w.fired,
         plain := if c.V1? && goAt.Some? then w.plain + [Plain(c.delay, w.now, goAt.value)] else w.plain)
  }

  predicate Legal(k: Clocks, w: World, run: seq<Event>)
    decreases |run|
  {
    run == [] || (Possible(w, run[0]) && Legal(k, Step(k, w, run[0]), run[1..]))
  }

  function Run(k: Clocks, w: World, run: seq<Event>): World
    decreases |run|
  {
    if run == [] then w else Run(k, Step(k, w, run[0]), run[1..])
  }

  // ---------- one sample ----------

  /** A sample measures the clocks' difference up to half its round-trip time and rounding. */
  predicate Accurate(k: Clocks, x: Sample) {
    -(x.rtt as real / 2.0) - 1.5 < x.offset as real - Difference(k) < x.rtt as real / 2.0 + 1.0
  }

  lemma Rounded(t: real, shift: real)
    ensures t + shift - 1.0 < Read(t, shift) as real <= t + shift
  {
  }

  /** Sent, answered and taken in this order, after any delays: the measured round-trip time is
      the real one up to rounding, and the sample is accurate. */
  lemma SampleAccurate(k: Clocks, sent: real, answered: real, taken: real)
    requires sent <= answered <= taken
    ensures var t2 := Read(answered, k.responder);
      var x := Measure(Read(sent, k.initiator), t2, t2, Read(taken, k.initiator));
      Accurate(k, x) && taken - sent - 1.0 < x.rtt as real < taken - sent + 1.0
  {
    var t1, t2, t4 := Read(sent, k.initiator), Read(answered, k.responder), Read(taken, k.initiator);
    Rounded(sent, k.initiator);
    Rounded(answered, k.responder);
    Rounded(taken, k.initiator);
    var twice := (t2 - t1) + (t2 - t4);
    assert twice - 1 <= 2 * (twice / 2) <= twice;
    assert (twice - 1) as real / 2.0 <= (twice / 2) as real <= twice as real / 2.0;
    assert twice as real == 2.0 * t2 as real - t1 as real - t4 as real;
    assert (t4 - t1) as real == t4 as real - t1 as real;
  }

  // ---------- the invariant ----------

  predicate PacketsTimed(k: Clocks, w: World) {
    && (forall q :: q in w.reqs ==> q.sent <= w.now && q.t1 == Read(q.sent, k.initiator))
    && (forall a :: a in w.acks ==> a.sent <= a.answered <= w.now && a.t1 == Read(a.sent, k.initiator)
                                    && a.t2 == a.t3 == Read(a.answered, k.responder))
  }

  predicate AllAccurate(k: Clocks, samples: seq<Sample>) {
    forall i :: 0 <= i < |samples| ==> Accurate(k, samples[i])
  }

  predicate SamplesAccurate(k: Clocks, w: World) {
    && (forall t :: t in w.initiator.replies ==> Accurate(k, w.initiator.replies[t]))
    && AllAccurate(k, w.initiator.samples)
  }

  /** Rounds are numbered from one, in order; each rests on the best of accurate samples. */
  predicate RoundsGood(k: Clocks, w: World) {
    && w.initiator.commitSeq == |w.rounds|
    && forall i :: 0 <= i < |w.rounds| ==> GoodRound(k, w.rounds[i])
  }

  predicate GoodRound(k: Clocks, r: Round) {
    && r.samples != [] && AllAccurate(k, r.samples) && r.best == Best(r.samples)
    && r.goAt == Read(r.ended, k.initiator) + r.delay
  }

  /** A version 1 firing lies just the commit's delay after the reading at which it was taken. */
  predicate PlainGood(k: Clocks, w: World) {
    forall i :: 0 <= i < |w.plain| ==> w.plain[i].goAt == Read(w.plain[i].taken, k.responder) + w.plain[i].delay
  }

  predicate CommitOf(w: World, id: int, goAt: int) {
    1 <= id <= |w.rounds| && goAt == w.rounds[id - 1].goAt + w.rounds[id - 1].best.offset
  }

  predicate CommitsGood(w: World) {
    forall c :: c in w.commits && c.V2? ==> CommitOf(w, c.id, c.goAt)
  }

  predicate FiringsGood(w: World) {
    && w.responder.offset == None
    && (forall i :: 0 <= i < |w.fired| ==>
          CommitOf(w, w.fired[i].id, w.fired[i].goAt) && w.fired[i].id <= w.responder.lastCommitId)
    && (forall i, j :: 0 <= i < j < |w.fired| ==> w.fired[i].id < w.fired[j].id)
    && w.responder.lastCommitId == (if w.fired == [] then -1 else w.fired[|w.fired| - 1].id)
  }

  predicate Sound(k: Clocks, w: World) {
    && PacketsTimed(k, w) && SamplesAccurate(k, w) && RoundsGood(k, w) && CommitsGood(w) && FiringsGood(w)
    && PlainGood(k, w)
  }

  lemma StepTimed(k: Clocks, w: World, e: Event)
    requires PacketsTimed(k, w) && Possible(w, e)
    ensures PacketsTimed(k, Step(k, w, e))
  {
  }

  lemma StepAccurate(k: Clocks, w: World, e: Event)
    requires PacketsTimed(k, w) && SamplesAccurate(k, w) && Possible(w, e)
    ensures SamplesAccurate(k, Step(k, w, e))
  {
    if e.TakeAck? {
      SampleAccurate(k, e.ack.sent, e.ack.answered, w.now);
    }
  }

  /** What a step adds to the rounds and commits: nothing, or one round with its commit. */
  lemma StepAdds(k: Clocks, w: World, e: Event)
    requires w.initiator.commitSeq == |w.rounds|
    ensures Adds(k, w, Step(k, w, e))
    ensures |w.rounds| <= |Step(k, w, e).rounds| && Step(k, w, e).rounds[..|w.rounds|] == w.rounds
  {
  }

  lemma StepFires(k: Clocks, w: World, e: Event)
    requires Possible(w, e) && w.responder.offset == None
    ensures var t := Step(k, w, e);
      && t.responder.offset == None
      && ((t.fired == w.fired && t.responder.lastCommitId == w.responder.lastCommitId)
          || (e.TakeCommit? && e.commit.V2? && e.commit.id > w.responder.lastCommitId
              && t.responder.lastCommitId == e.commit.id && t.commits == w.commits && t.rounds == w.rounds
              && t.fired == w.fired + [Firing(e.commit.id, e.commit.goAt)]))
  {
  }

  lemma StepRounds(k: Clocks, w: World, e: Event)
    requires SamplesAccurate(k, w) && RoundsGood(k, w) && CommitsGood(w) && FiringsGood(w) && Possible(w, e)
    ensures RoundsGood(k, Step(k, w, e)) && CommitsGood(Step(k, w, e)) && FiringsGood(Step(k, w, e))
  {
    var t := Step(k, w, e);
    StepAdds(k, w, e);
    Kept(k, w, t);
    RoundsKept(k, w, t);
    StepFires(k, w, e);
    FiringsKept(w, t, e);
  }

  /** What a step may do to rounds and commits. */
  predicate Adds(k: Clocks, w: World, t: World) {
    || (t.rounds == w.rounds && t.commits == w.commits && t.initiator.commitSeq == w.initiator.commitSeq)
    || (&& w.initiator.samples != []
        && t.initiator.commitSeq == |t.rounds|
        && var x := w.initiator.samples;
        && |t.rounds| == |w.rounds| + 1 && t.rounds[..|w.rounds|] == w.rounds
        && var r := t.rounds[|w.rounds|];
        && r.best == Best(x) && r.samples == x && r.goAt == Read(r.ended, k.initiator) + r.delay
        && forall c :: c in t.commits && c !in w.commits && c.V2? ==>
             c.id == |t.rounds| && c.goAt == r.goAt + Best(x).offset)
  }

  lemma RoundsKept(k: Clocks, w: World, t: World)
    requires RoundsGood(k, w) && CommitsGood(w) && AllAccurate(k, w.initiator.samples) && Adds(k, w, t)
    requires forall id, goAt :: CommitOf(w, id, goAt) ==> CommitOf(t, id, goAt)
    ensures RoundsGood(k, t) && CommitsGood(t)
  {
    forall i | 0 <= i < |t.rounds| ensures GoodRound(k, t.rounds[i]) {
      assert i < |w.rounds| ==> t.rounds[..|w.rounds|][i] == t.rounds[i];
    }
  }

  lemma FiringsKept(w: World, t: World, e: Event)
    requires FiringsGood(w) && CommitsGood(w) && Possible(w, e) && t.responder.offset == None
    requires forall id, goAt :: CommitOf(w, id, goAt) ==> CommitOf(t, id, goAt)
    requires
      || (t.fired == w.fired && t.responder.lastCommitId == w.responder.lastCommitId)
      || (e.TakeCommit? && e.commit.V2? && e.commit.id > w.responder.lastCommitId
          && t.responder.lastCommitId == e.commit.id && t.fired == w.fired + [Firing(e.commit.id, e.commit.goAt)])
    ensures FiringsGood(t)
  {
    if t.fired != w.fired {
      assert CommitOf(w, e.commit.id, e.commit.goAt);
    }
  }

  /** One more round breaks nothing. */
  lemma Kept(k: Clocks, w: World, t: World)
    requires |w.rounds| <= |t.rounds| && t.rounds[..|w.rounds|] == w.rounds
    ensures forall id, goAt :: CommitOf(w, id, goAt) ==> CommitOf(t, id, goAt)
  {
    assert forall i :: 0 <= i < |w.rounds| ==> t.rounds[i] == t.rounds[..|w.rounds|][i];
  }

  lemma StepPlain(k: Clocks, w: World, e: Event)
    requires PlainGood(k, w)
    ensures PlainGood(k, Step(k, w, e))
  {
  }

  lemma StepSound(k: Clocks, w: World, e: Event)
    requires Sound(k, w) && Possible(w, e)
    ensures Sound(k, Step(k, w, e))
  {
    StepTimed(k, w, e);
    StepAccurate(k, w, e);
    StepRounds(k, w, e);
    StepPlain(k, w, e);
  }

  lemma {:induction false} RunSound(k: Clocks, w: World, run: seq<Event>)
    requires Sound(k, w) && Legal(k, w, run)
    ensures Sound(k, Run(k, w, run))
    decreases |run|
  {
    if run == [] {
    } else {
      StepSound(k, w, run[0]);
      RunSound(k, Step(k, w, run[0]), run[1..]);
    }
  }

  // ---------- the theorems ----------

  /** When, in real time, a clock shows something. */
  function Instant(reading: int, shift: real): real { reading as real - shift }

  /** The two ends' punch instants differ by less than half the round-trip time, plus rounding. */
  predicate SkewWithin(k: Clocks, f: Firing, r: Round) {
    var skew := Instant(f.goAt, k.responder) - Instant(r.goAt, k.initiator);
    -(r.best.rtt as real / 2.0) - 1.5 < skew < r.best.rtt as real / 2.0 + 1.0
  }

  /** In every run, with any delays, losses, repetitions and reorderings: whenever a version 2
      commit makes the responder fire, the two ends' punch instants differ by less than half
      the smallest round-trip time sampled for that commit, plus rounding. */
  lemma SkewBound(k: Clocks, run: seq<Event>, i: nat)
    requires Legal(k, START, run) && i < |Run(k, START, run).fired|
    ensures SkewSmall(k, Run(k, START, run), i)
  {
    RunSound(k, START, run);
    SoundSkew(k, Run(k, START, run), i);
  }

  /** A firing belongs to a round and is as near to its punch instant as the best sample says. */
  predicate SkewSmall(k: Clocks, w: World, i: nat)
    requires i < |w.fired|
  {
    && 1 <= w.fired[i].id <= |w.rounds|
    && var r := w.rounds[w.fired[i].id - 1];
    && r.best in r.samples && (forall x :: x in r.samples ==> r.best.rtt <= x.rtt)
    && SkewWithin(k, w.fired[i], r)
  }

  lemma SoundSkew(k: Clocks, w: World, i: nat)
    requires Sound(k, w) && i < |w.fired|
    ensures SkewSmall(k, w, i)
  {
    var f := w.fired[i];
    assert CommitOf(w, f.id, f.goAt);
    var r := w.rounds[f.id - 1];
    assert r.best in r.samples;
    assert Accurate(k, r.best);
    assert f.goAt as real == r.goAt as real + r.best.offset as real;
  }

  /** In every run the responder fires at most once for each version 2 commit, in strictly
      increasing order of their numbers, and every one is for a commit that was made. */
  lemma FiresOnce(k: Clocks, run: seq<Event>)
    requires Legal(k, START, run)
    ensures var w := Run(k, START, run);
      && (forall i, j :: 0 <= i < j < |w.fired| ==> w.fired[i].id < w.fired[j].id)
      && (forall i :: 0 <= i < |w.fired| ==> 1 <= w.fired[i].id <= |w.rounds|)
      && w.initiator.commitSeq == |w.rounds|
  {
    RunSound(k, START, run);
    var w := Run(k, START, run);
    forall i | 0 <= i < |w.fired| ensures 1 <= w.fired[i].id <= |w.rounds| {
      assert CommitOf(w, w.fired[i].id, w.fired[i].goAt);
    }
  }

  /** Where the punch instants lie, in real time.  The initiator's is the delay after the end of
      the series, as its clock shows it.  The responder's, set by a version 2 commit, is at most
      half the smallest sampled round-trip time from that, plus rounding.  One set by a version 1
      commit is the delay after the commit was taken. */
  lemma PunchInstants(k: Clocks, run: seq<Event>)
    requires Legal(k, START, run)
    ensures InstantsGood(k, Run(k, START, run))
  {
    RunSound(k, START, run);
    SoundInstants(k, Run(k, START, run));
  }

  predicate InstantsGood(k: Clocks, w: World) {
    && (forall i :: 0 <= i < |w.rounds| ==> PunchesOnTime(k, w.rounds[i]))
    && (forall i :: 0 <= i < |w.fired| ==>
          1 <= w.fired[i].id <= |w.rounds| && FiresNear(k, w.fired[i], w.rounds[w.fired[i].id - 1]))
    && (forall i :: 0 <= i < |w.plain| ==> PlainOnTime(k, w.plain[i]))
  }

  lemma SoundInstants(k: Clocks, w: World)
    requires Sound(k, w)
    ensures InstantsGood(k, w)
  {
    forall i | 0 <= i < |w.rounds| ensures PunchesOnTime(k, w.rounds[i]) {
      RoundInstant(k, w.rounds[i]);
    }
    forall i | 0 <= i < |w.fired|
      ensures 1 <= w.fired[i].id <= |w.rounds| && FiresNear(k, w.fired[i], w.rounds[w.fired[i].id - 1])
    {
      SoundSkew(k, w, i);
      FiringInstant(k, w.fired[i], w.rounds[w.fired[i].id - 1]);
    }
    forall i | 0 <= i < |w.plain| ensures PlainOnTime(k, w.plain[i]) {
      Rounded(w.plain[i].taken, k.responder);
    }
  }

  predicate PunchesOnTime(k: Clocks, r: Round) {
    r.ended + r.delay as real - 1.0 < Instant(r.goAt, k.initiator) <= r.ended + r.delay as real
  }

  predicate PlainOnTime(k: Clocks, p: Plain) {
    p.taken + p.delay as real - 1.0 < Instant(p.goAt, k.responder) <= p.taken + p.delay as real
  }

  lemma FiringInstant(k: Clocks, f: Firing, r: Round)
    requires GoodRound(k, r) && SkewWithin(k, f, r)
    ensures FiresNear(k, f, r)
  {
    RoundInstant(k, r);
  }

  predicate FiresNear(k: Clocks, f: Firing, r: Round) {
    var late := Instant(f.goAt, k.responder) - r.ended - r.delay as real;
    -(r.best.rtt as real / 2.0) - 2.5 < late < r.best.rtt as real / 2.0 + 1.0
  }

  lemma RoundInstant(k: Clocks, r: Round)
    requires GoodRound(k, r)
    ensures PunchesOnTime(k, r)
  {
    Rounded(r.ended, k.initiator);
  }

  /** In every reachable state a version 2 commit fires exactly if its number is above those of
      all that have fired, and a version 1 commit always does. */
  lemma FiresExact(k: Clocks, run: seq<Event>, c: Commit)
    requires Legal(k, START, run) && c in Run(k, START, run).commits
    ensures FiresIf(k, Run(k, START, run), c)
  {
    RunSound(k, START, run);
    SoundFires(k, Run(k, START, run), c);
  }

  predicate FiresIf(k: Clocks, w: World, c: Commit)
    requires c in w.commits
  {
    var t := Step(k, w, TakeCommit(c));
    && |t.fired| == |w.fired| + (if c.V2? && forall f :: f in w.fired ==> f.id < c.id then 1 else 0)
    && |t.plain| == |w.plain| + (if c.V1? then 1 else 0)
  }

  lemma SoundFires(k: Clocks, w: World, c: Commit)
    requires c in w.commits && CommitsGood(w) && FiringsGood(w)
    ensures FiresIf(k, w, c)
  {
    if c.V2? {
      assert CommitOf(w, c.id, c.goAt);
      if w.fired != [] {
        assert w.fired[|w.fired| - 1] in w.fired;
      }
    }
  }

  // ---------- an exchange that succeeds ----------

  ghost predicate Leads(k: Clocks, w: World, run: seq<Event>, t: World) {
    Legal(k, w, run) && Run(k, w, run) == t
  }

  lemma {:induction false} Then(k: Clocks, w: World, run: seq<Event>, t: World, e: Event)
    requires Leads(k, w, run, t) && Possible(t, e)
    ensures Leads(k, w, run + [e], Step(k, t, e))
    decreases |run|
  {
    if run == [] {
      assert [e][1..] == [] && run + [e] == [e];
      assert Run(k, Step(k, t, e), []) == Step(k, t, e);
    } else {
      Then(k, Step(k, w, run[0]), run[1..], t, e);
      assert (run + [e])[1..] == run[1..] + [e];
    }
  }

  /** A request that is answered after some time, and its answer taken after some more, in time,
      yields a sample; whatever has happened before. */
  lemma ExchangeSucceeds(k: Clocks, w: World, there: real, back: real) returns (run: seq<Event>, t: World)
    requires there >= 0.0 && back >= 0.0
    ensures Leads(k, w, run, t) && t.initiator.samples != [] && t.now == w.now + there + back
    ensures t.initiator.peerVer >= k.version && t.commits == w.commits && t.rounds == w.rounds && t.fired == w.fired
    ensures t.plain == w.plain && t.responder.lastCommitId == w.responder.lastCommitId
  {
    var t1, t2 := Read(w.now, k.initiator), Read(w.now + there, k.responder);
    var req, ack := Req(t1, PROTO_VER, w.now), Ack(t1, t2, t2, k.version, w.now, w.now + there);
    run, t := [], w;
    Then(k, w, run, t, StartSync);
    run, t := run + [StartSync], Step(k, t, StartSync);
    Then(k, w, run, t, SendReq);
    run, t := run + [SendReq], Step(k, t, SendReq);
    assert req in t.reqs && t1 in t.initiator.pending;
    Then(k, w, run, t, Wait(w.now + there));
    run, t := run + [Wait(w.now + there)], Step(k, t, Wait(w.now + there));
    Then(k, w, run, t, Answer(req));
    run, t := run + [Answer(req)], Step(k, t, Answer(req));
    assert ack in t.acks;
    Then(k, w, run, t, Wait(w.now + there + back));
    run, t := run + [Wait(w.now + there + back)], Step(k, t, Wait(w.now + there + back));
    Then(k, w, run, t, TakeAck(ack));
    run, t := run + [TakeAck(ack)], Step(k, t, TakeAck(ack));
    Then(k, w, run, t, EndWait(t1, true));
    run, t := run + [EndWait(t1, true)], Step(k, t, EndWait(t1, true));
  }

  /** From every reachable state an exchange can succeed, and its commit fires at the responder:
      one more round, and one more firing for it. */
  lemma CommitSucceeds(k: Clocks, before: seq<Event>, there: real, back: real, delay: int)
    returns (run: seq<Event>, t: World)
    requires Legal(k, START, before) && there >= 0.0 && back >= 0.0
    ensures var w := Run(k, START, before);
      && Leads(k, w, run, t) && |t.rounds| == |w.rounds| + 1
      && t.rounds[|w.rounds|].ended == w.now + there + back && t.rounds[|w.rounds|].delay == delay
      && |t.fired| + |t.plain| == |w.fired| + |w.plain| + 1
      && (k.version >= 2 ==> |t.fired| == |w.fired| + 1 && t.fired[|w.fired|].id == |t.rounds|)
  {
    var w := Run(k, START, before);
    RunSound(k, START, before);
    run, t := ExchangeSucceeds(k, w, there, back);
    SoundOn(k, w, run, t);
    var u := Step(k, t, SendCommit(delay));
    var c := CommitMade(k, t, delay);
    Then(k, w, run, t, SendCommit(delay));
    run, t := run + [SendCommit(delay)], u;
    Then(k, w, run, t, TakeCommit(c));
    run, t := run + [TakeCommit(c)], Step(k, t, TakeCommit(c));
  }

  lemma SoundOn(k: Clocks, w: World, run: seq<Event>, t: World)
    requires Sound(k, w) && Leads(k, w, run, t)
    ensures Sound(k, t)
  {
    RunSound(k, w, run);
  }

  /** A series with a sample makes a commit, which fires when it is taken. */
  lemma CommitMade(k: Clocks, w: World, delay: int) returns (c: Commit)
    requires Sound(k, w) && w.initiator.samples != []
    ensures var u := Step(k, w, SendCommit(delay));
      && c in u.commits && |u.rounds| == |w.rounds| + 1 && u.now == w.now && u.fired == w.fired && u.plain == w.plain
      && u.rounds[|w.rounds|].ended == w.now && u.rounds[|w.rounds|].delay == delay
      && (w.initiator.peerVer >= 2 ==> c.V2?) && (c.V2? ==> c.id == |u.rounds|)
      && var t := Step(k, u, TakeCommit(c));
      && t.rounds == u.rounds
      && (if c.V2? then |t.fired| == |w.fired| + 1 && t.fired[|w.fired|].id == c.id && t.plain == w.plain
          else |t.plain| == |w.plain| + 1 && t.fired == w.fired)
  {
    var (s, out) := Finish(w.initiator, Read(w.now, k.initiator), delay);
    c := out.value.1;
    var u := Step(k, w, SendCommit(delay));
    if w.fired != [] {
      assert CommitOf(w, w.fired[|w.fired| - 1].id, w.fired[|w.fired| - 1].goAt);
    }
  }
}
