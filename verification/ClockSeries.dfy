/** One end of the clock exchange seen from outside: what a whole series of exchanges comes to,
    and what the packets taken so far decide. */
module ClockSeries {
  import opened Basics
  import opened ClockSync

  // ---------- a series ----------

  /** One request of a series with the four clock readings of its answer, the version that the
      answer announces, whether it came at all, and whether the wait for it ended in time. */
  datatype Exchange = Exchange(t1: int, t2: int, t3: int, t4: int, ver: int, came: bool, inTime: bool)

  function Conduct(s: Syncer, x: Exchange): Syncer {
    var asked := Ask(s, x.t1);
    Collect(if x.came then OnAck(asked, x.t1, x.t2, x.t3, x.ver, x.t4) else asked, x.t1, x.inTime)
  }

  function ConductAll(s: Syncer, xs: seq<Exchange>): Syncer {
    if xs == [] then s else Conduct(ConductAll(s, xs[..|xs| - 1]), xs[|xs| - 1])
  }

  predicate Counts(x: Exchange) {
    x.came && x.inTime
  }

  /** The exchanges of a series that count. */
  function Counted(xs: seq<Exchange>): seq<Exchange> {
    if xs == [] then []
    else Counted(xs[..|xs| - 1]) + if Counts(xs[|xs| - 1]) then [xs[|xs| - 1]] else []
  }

  /** The round-trip time of an exchange: what passed here, less what passed there. */
  function RoundTrip(x: Exchange): int {
    (x.t4 - x.t1) - (x.t3 - x.t2)
  }

  /** How far the other clock is ahead, judged by the middles of the two stays, rounded down. */
  predicate Ahead(x: Exchange, offset: int) {
    2 * offset <= (x.t2 + x.t3) - (x.t1 + x.t4) <= 2 * offset + 1
  }

  predicate SampleOf(x: Exchange, s: Sample) {
    s.rtt == RoundTrip(x) && Ahead(x, s.offset)
  }

  /** The exchanges of a series made the samples that it has. */
  predicate Sampled(xs: seq<Exchange>, samples: seq<Sample>) {
    |samples| == |xs| && forall i :: 0 <= i < |xs| ==> SampleOf(xs[i], samples[i])
  }

  lemma ConductSamples(s: Syncer, x: Exchange)
    requires s.pending == {} && s.replies == map[]
    ensures var t := Conduct(s, x);
      && t.pending == {} && t.replies == map[] && t.inProgress == s.inProgress
      && t.commitSeq == s.commitSeq && t.lastCommitId == s.lastCommitId
      && (Counts(x) ==> exists y :: SampleOf(x, y) && t.samples == s.samples + [y])
      && (!Counts(x) ==> t.samples == s.samples)
  {
    if Counts(x) {
      assert SampleOf(x, Measure(x.t1, x.t2, x.t3, x.t4));
    }
  }

  /** A new series has the samples of its own exchanges that came in time, and no others. */
  lemma {:induction false} SeriesSamples(s: Syncer, xs: seq<Exchange>)
    requires !s.inProgress
    ensures var t := ConductAll(Begin(s), xs);
      && t.pending == {} && t.replies == map[] && t.inProgress
      && t.commitSeq == s.commitSeq && t.lastCommitId == s.lastCommitId && Sampled(Counted(xs), t.samples)
  {
    if xs == [] {
    } else {
      SeriesSamples(s, xs[..|xs| - 1]);
      ConductSamples(ConductAll(Begin(s), xs[..|xs| - 1]), xs[|xs| - 1]);
    }
  }

  /** Some exchange of the smallest round-trip time has these two. */
  predicate BestHas(xs: seq<Exchange>, rtt: int, offset: int) {
    exists x :: x in xs && Ahead(x, offset) && rtt == RoundTrip(x) && forall y :: y in xs ==> rtt <= RoundTrip(y)
  }

  lemma BestCounts(xs: seq<Exchange>, samples: seq<Sample>)
    requires Sampled(xs, samples) && xs != []
    ensures BestHas(xs, Best(samples).rtt, Best(samples).offset)
  {
    var b := Best(samples);
    var i :| 0 <= i < |samples| && samples[i] == b;
    assert xs[i] in xs && SampleOf(xs[i], b);
    forall y | y in xs ensures b.rtt <= RoundTrip(y) {
      var j :| 0 <= j < |xs| && xs[j] == y;
      assert samples[j] in samples && SampleOf(xs[j], samples[j]);
    }
  }

  /** What the end of a series with something that counts makes of the state. */
  predicate Committed(s: Syncer, t: Syncer, xs: seq<Exchange>, goAt: int, c: Commit, now: int, delay: int) {
    && goAt == now + delay && t.commitSeq == s.commitSeq + 1
    && t.offset.Some? && t.rtt.Some? && BestHas(xs, t.rtt.value, t.offset.value)
    && (c.V2? ==> c == V2(now + delay + t.offset.value, t.commitSeq))
    && (c.V1? ==> c.delay == delay)
  }

  /** A series in which something counts makes the next commit, by an exchange of the smallest
      round-trip time: the own instant is the delay from now, the other end's is the same moment
      on its clock.  One in which nothing counts makes none.  Either way the next may begin. */
  lemma SeriesEnds(s: Syncer, xs: seq<Exchange>, now: int, delay: int)
    requires !s.inProgress
    ensures var (t, out) := Finish(ConductAll(Begin(s), xs), now, delay);
      && !t.inProgress && t.lastCommitId == s.lastCommitId
      && (if Counted(xs) == [] then out == None && t.commitSeq == s.commitSeq
          else out.Some? && Committed(s, t, Counted(xs), out.value.0, out.value.1, now, delay))
  {
    SeriesSamples(s, xs);
    FinishCommits(s, ConductAll(Begin(s), xs), Counted(xs), now, delay);
  }

  lemma FinishCommits(s: Syncer, u: Syncer, xs: seq<Exchange>, now: int, delay: int)
    requires Sampled(xs, u.samples) && u.commitSeq == s.commitSeq && u.lastCommitId == s.lastCommitId
    ensures var (t, out) := Finish(u, now, delay);
      && !t.inProgress && t.lastCommitId == s.lastCommitId
      && (if xs == [] then out == None && t.commitSeq == s.commitSeq
          else out.Some? && Committed(s, t, xs, out.value.0, out.value.1, now, delay))
  {
    if xs != [] {
      BestCounts(xs, u.samples);
    }
  }

  // ---------- what has been taken ----------

  datatype Act =
    | Began
    | Asked(t1: int)
    | TookAck(t1: int, t2: int, t3: int, ver: int, t4: int)
    | Waited(t1: int, signalled: bool)
    | Ended(now: int, delay: int)
    | TookRequest(ver: int)
    | TookCommit(commit: Commit, now: int)

  function Do(s: Syncer, a: Act): Syncer {
    match a
    case Began => Begin(s)
    case Asked(t1) => Ask(s, t1)
    case TookAck(t1, t2, t3, ver, t4) => OnAck(s, t1, t2, t3, ver, t4)
    case Waited(t1, signalled) => Collect(s, t1, signalled)
    case Ended(now, delay) => Finish(s, now, delay).0
    case TookRequest(ver) => OnReq(s, ver)
    case TookCommit(c, now) => OnCommit(s, c, now).0
  }

  function After(acts: seq<Act>): Syncer {
    if acts == [] then FRESH else Do(After(acts[..|acts| - 1]), acts[|acts| - 1])
  }

  // ---------- what becomes a sample ----------

  /** A series has begun and not ended. */
  function Going(acts: seq<Act>): bool {
    acts != [] && var a := acts[|acts| - 1];
    if a.Began? then true else if a.Ended? then false else Going(acts[..|acts| - 1])
  }

  /** A new series starts with the last act: what was before it no longer counts. */
  predicate Starts(acts: seq<Act>) {
    acts != [] && acts[|acts| - 1].Began? && !Going(acts[..|acts| - 1])
  }

  /** A request has been sent in this series and the wait for its answer has not ended. */
  function Open(acts: seq<Act>, t1: int): bool {
    acts != [] && var a := acts[|acts| - 1];
    if a == Asked(t1) then true
    else if Starts(acts) || (a.Waited? && a.t1 == t1) then false
    else Open(acts[..|acts| - 1], t1)
  }

  /** The answer to a request: the last acknowledgement taken while the request was open. */
  function Answer(acts: seq<Act>, t1: int): Option<Act> {
    if acts == [] then None
    else
      var front, a := acts[..|acts| - 1], acts[|acts| - 1];
      if a.TookAck? && a.t1 == t1 && Open(front, t1) then Some(a)
      else if Starts(acts) || (a.Waited? && a.t1 == t1) then None
      else Answer(front, t1)
  }

  /** The answers that came in time, in the order in which the waits ended. */
  function InTime(acts: seq<Act>): seq<Act> {
    if acts == [] || Starts(acts) then []
    else
      var front, a := acts[..|acts| - 1], acts[|acts| - 1];
      if a.Waited? && a.signalled && Answer(front, a.t1).Some? then InTime(front) + [Answer(front, a.t1).value]
      else InTime(front)
  }

  predicate SampleOfAck(a: Act, s: Sample) {
    a.TookAck? && SampleOf(Exchange(a.t1, a.t2, a.t3, a.t4, a.ver, true, true), s)
  }

  lemma {:induction false} GoingExact(acts: seq<Act>)
    ensures After(acts).inProgress == Going(acts)
  {
    if acts == [] {
    } else {
      GoingExact(acts[..|acts| - 1]);
    }
  }

  lemma {:induction false} OpenExact(acts: seq<Act>, t1: int)
    ensures t1 in After(acts).pending <==> Open(acts, t1)
  {
    if acts == [] {
    } else {
      OpenExact(acts[..|acts| - 1], t1);
      GoingExact(acts[..|acts| - 1]);
    }
  }

  /** The reply on record for a request is its answer. */
  predicate Recorded(acts: seq<Act>, replies: map<int, Sample>, t1: int) {
    && (t1 in replies <==> Answer(acts, t1).Some?)
    && (t1 in replies ==> SampleOfAck(Answer(acts, t1).value, replies[t1]))
  }

  lemma {:induction false} AnswerExact(acts: seq<Act>, t1: int)
    ensures Recorded(acts, After(acts).replies, t1)
  {
    if acts == [] {
    } else {
      var front, a := acts[..|acts| - 1], acts[|acts| - 1];
      AnswerExact(front, t1);
      GoingExact(front);
      OpenExact(front, t1);
      AnswerStep(front, After(front), a, t1);
      assert front + [a] == acts;
    }
  }

  lemma AnswerStep(front: seq<Act>, s: Syncer, a: Act, t1: int)
    requires Recorded(front, s.replies, t1) && s.inProgress == Going(front) && (t1 in s.pending <==> Open(front, t1))
    ensures Recorded(front + [a], Do(s, a).replies, t1)
  {
    assert (front + [a])[..|front|] == front;
  }

  /** Whatever an end has done: its samples are those of the answers that came in time in the
      present series, in the order in which the waits ended; nothing else becomes a sample. */
  lemma {:induction false} SamplesExact(acts: seq<Act>)
    ensures var samples := After(acts).samples;
      |samples| == |InTime(acts)| && forall i :: 0 <= i < |samples| ==> SampleOfAck(InTime(acts)[i], samples[i])
  {
    if acts == [] {
    } else {
      var front, a := acts[..|acts| - 1], acts[|acts| - 1];
      SamplesExact(front);
      GoingExact(front);
      if a.Waited? {
        AnswerExact(front, a.t1);
      }
    }
  }

  // ---------- versions and commits ----------

  /** A packet of that version or a higher one has been taken. */
  predicate Announced(acts: seq<Act>, ver: int) {
    exists a :: a in acts && (a.TookAck? || a.TookRequest?) && a.ver >= ver
  }

  predicate Numbered(a: Act) {
    a.TookCommit? && a.commit.V2?
  }

  /** A version 2 commit with that number or a higher one has been taken. */
  predicate Overtaken(acts: seq<Act>, id: int) {
    exists a :: a in acts && Numbered(a) && a.commit.id >= id
  }

  lemma AnnouncedNext(acts: seq<Act>, ver: int)
    requires acts != []
    ensures var a := acts[|acts| - 1];
      Announced(acts, ver) <==>
        Announced(acts[..|acts| - 1], ver) || ((a.TookAck? || a.TookRequest?) && a.ver >= ver)
  {
    assert acts == acts[..|acts| - 1] + [acts[|acts| - 1]];
  }

  lemma OvertakenNext(acts: seq<Act>, id: int)
    requires acts != []
    ensures var a := acts[|acts| - 1];
      Overtaken(acts, id) <==> Overtaken(acts[..|acts| - 1], id) || (Numbered(a) && a.commit.id >= id)
  {
    assert acts == acts[..|acts| - 1] + [acts[|acts| - 1]];
  }

  lemma {:induction false} VersionKnown(acts: seq<Act>, ver: int)
    requires ver > 1
    ensures After(acts).peerVer >= ver <==> Announced(acts, ver)
  {
    if acts == [] {
    } else {
      VersionKnown(acts[..|acts| - 1], ver);
      AnnouncedNext(acts, ver);
    }
  }

  /** Whatever an end has done: its commit is of version 2 if and only if it has taken a request
      or an acknowledgement of version 2 or higher. */
  lemma VersionExact(acts: seq<Act>, now: int, delay: int)
    ensures var out := Finish(After(acts), now, delay).1;
      out.Some? ==> (out.value.1.V2? <==> Announced(acts, 2))
  {
    VersionKnown(acts, 2);
  }

  lemma {:induction false} CommitsKnown(acts: seq<Act>, id: int)
    requires id >= 0
    ensures After(acts).lastCommitId >= id <==> Overtaken(acts, id)
  {
    if acts == [] {
    } else {
      CommitsKnown(acts[..|acts| - 1], id);
      OvertakenNext(acts, id);
    }
  }

  /** Whatever an end has done: a version 2 commit makes it fire if and only if none with its
      number or a higher one has been taken before, a version 1 commit always does. */
  lemma CommitExact(acts: seq<Act>, c: Commit, now: int)
    requires c.V2? ==> c.id >= 0
    ensures OnCommit(After(acts), c, now).1.Some? <==> c.V1? || !Overtaken(acts, c.id)
    ensures c.V1? ==> OnCommit(After(acts), c, now).1 == Some(now + c.delay)
  {
    if c.V2? {
      CommitsKnown(acts, c.id);
    }
  }

  /** The offset that the last series with a sample ended with. */
  function OwnOffset(acts: seq<Act>): Option<int> {
    if acts == [] then None
    else
      var before, a := After(acts[..|acts| - 1]), acts[|acts| - 1];
      if a.Ended? && before.samples != [] then Some(Best(before.samples).offset) else OwnOffset(acts[..|acts| - 1])
  }

  lemma {:induction false} OffsetKnown(acts: seq<Act>)
    ensures After(acts).offset == OwnOffset(acts)
  {
    if acts == [] {
    } else {
      OffsetKnown(acts[..|acts| - 1]);
      OffsetStep(After(acts[..|acts| - 1]), acts[|acts| - 1]);
    }
  }

  lemma OffsetStep(s: Syncer, a: Act)
    ensures Do(s, a).offset == if a.Ended? && s.samples != [] then Some(Best(s.samples).offset) else s.offset
  {
  }

  /** A firing's instant is the commit's, less the offset of the last series of its own. */
  lemma CommitInstant(acts: seq<Act>, s: Syncer, own: Option<int>, c: Commit, now: int)
    requires s == After(acts) && own == OwnOffset(acts)
    requires c.V2? && OnCommit(s, c, now).1.Some?
    ensures OnCommit(s, c, now).1 == Some(c.goAt - Shift(own))
  {
    OffsetKnown(acts);
    FiresShifted(s, c, now);
  }

  function Shift(offset: Option<int>): int {
    if offset.Some? then offset.value else 0
  }

  lemma FiresShifted(s: Syncer, c: Commit, now: int)
    requires c.V2? && OnCommit(s, c, now).1.Some?
    ensures OnCommit(s, c, now).1 == Some(c.goAt - Shift(s.offset))
  {
  }
}
