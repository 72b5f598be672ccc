/** The connection table seen from one peer: how far the attempt to connect has got, as the
    events alone decide it, when a new attempt starts, and how long one stays refused. */
module LinkStages {
  import opened Basics
  import opened LinkTable

  /** No attempt, or none that has not failed; an attempt under way; a connection. */
  datatype Stage = Idle | Trying | Up

  /** A peer: its record, if it is known as a member, and its stage. */
  datatype Peer = Peer(member: Option<Member>, stage: Stage)

  const STRANGER := Peer(None, Idle)

  /** What an event means for a peer. */
  function Watch(p: Peer, id: Id, e: Event): Peer {
    match e
    case Installed(k, _) => if k == id then p.(stage := Up) else p
    case Accepted(k, _) => if k == id then p.(stage := Up) else p
    case GoPunch(k, m) => if k == id && k != "" then Peer(Some(m), if p.stage.Idle? then Trying else p.stage) else p
    case TcpReady(k) => if k == id && p.member.Some? && p.stage.Idle? then p.(stage := Trying) else p
    case PunchFailed(k) => if k == id then p.(stage := Idle) else p
    case GivenUp(k) => if k == id && p.stage.Trying? then p.(stage := Idle) else p
    case Kill(k, same) => if k == id && same then p.(stage := Idle) else p
    case Added(k, m) => if k == id && k != "" then p.(member := Some(m)) else p
    case Left(k) => if k == id then STRANGER else p
    case Reset => p.(stage := Idle)
    case Renamed(_) => p
  }

  function WatchAll(p: Peer, id: Id, run: seq<Event>): Peer
    decreases |run|
  {
    if run == [] then p else WatchAll(Watch(p, id, run[0]), id, run[1..])
  }

  /** What the table says of a peer. */
  function View(s: Manager, id: Id): Peer {
    Peer(if id in s.members then Some(s.members[id]) else None,
         if id !in s.table || s.table[id].phase == Failed then Idle
         else if s.table[id].phase == Connecting then Trying else Up)
  }

  lemma StepView(s: Manager, id: Id, e: Event)
    ensures View(Step(s, e), id) == Watch(View(s, id), id, e)
  {
  }

  /** The table never says anything else of a peer than the events so far. */
  lemma {:induction false} RunView(s: Manager, id: Id, run: seq<Event>)
    ensures View(Run(s, run), id) == WatchAll(View(s, id), id, run)
    decreases |run|
  {
    if run == [] {
    } else {
      StepView(s, id, run[0]);
      RunView(Step(s, run[0]), id, run[1..]);
    }
  }

  lemma AlwaysViewed(myId: Id, id: Id, run: seq<Event>)
    ensures View(Run(Initial(myId), run), id) == WatchAll(STRANGER, id, run)
  {
    RunView(Initial(myId), id, run);
  }

  /** The identifier is the one given last. */
  function Name(myId: Id, run: seq<Event>): Id
    decreases |run|
  {
    if run == [] then myId else Name(if run[0].Renamed? then run[0].newId else myId, run[1..])
  }

  lemma {:induction false} AlwaysNamed(s: Manager, run: seq<Event>)
    ensures Run(s, run).myId == Name(s.myId, run)
    decreases |run|
  {
    if run == [] {
    } else {
      AlwaysNamed(Step(s, run[0]), run[1..]);
    }
  }

  // ---------- new attempts ----------

  /** A request to connect to a peer, from the server or from the peer itself. */
  predicate Asks(e: Event, id: Id) {
    (e.GoPunch? || e.TcpReady?) && e.id == id
  }

  /** The request enters a new connection, one under way and without a socket. */
  predicate EntersNew(s: Manager, e: Event, id: Id) {
    Starts(s, e) && id in Step(s, e).table && Step(s, e).table[id] == Entry(Connecting, None, true)
  }

  /** A request starts an attempt exactly when, by the events so far, none is under way and no
      connection is up, provided that it names a peer, one that is known unless the server
      introduces it; it enters a new connection then, and otherwise changes none. */
  lemma AttemptExact(myId: Id, run: seq<Event>, e: Event, id: Id)
    requires Asks(e, id)
    ensures var s, p := Run(Initial(myId), run), WatchAll(STRANGER, id, run);
      && (Starts(s, e) <==> p.stage == Idle && if e.GoPunch? then id != "" else p.member.Some?)
      && (Starts(s, e) ==> EntersNew(s, e, id))
      && (!Starts(s, e) ==> Step(s, e).table == s.table)
  {
    AlwaysViewed(myId, id, run);
  }

  /** A failure that ends the attempt of a peer, or its connection. */
  predicate Fails(p: Peer, e: Event, id: Id) {
    || (e.PunchFailed? && e.id == id) || (e.Kill? && e.same && e.id == id)
    || (e.GivenUp? && e.id == id && p.stage != Up)
  }

  /** After any run and a failure the next request starts anew. */
  lemma RetryAfterFailure(myId: Id, run: seq<Event>, failure: Event, e: Event, id: Id)
    requires Asks(e, id) && Fails(WatchAll(STRANGER, id, run), failure, id)
    ensures var s := Step(Run(Initial(myId), run), failure);
      (if e.GoPunch? then id != "" else id in s.members) ==> EntersNew(s, e, id)
  {
    AlwaysViewed(myId, id, run);
    StepView(Run(Initial(myId), run), id, failure);
  }

  /** The event enters a connection to the peer, or may do so. */
  predicate Enters(e: Event, id: Id) {
    (e.Installed? || e.Accepted? || e.GoPunch? || e.TcpReady?) && e.id == id
  }

  /** The event ends what is at that stage for a peer. */
  predicate Ends(stage: Stage, e: Event, id: Id) {
    || ((e.PunchFailed? || e.Left?) && e.id == id) || (e.Kill? && e.same && e.id == id) || e.Reset?
    || (e.GivenUp? && e.id == id && stage == Trying)
  }

  /** While nothing new is entered, a peer's stage stays until something ends it. */
  lemma {:induction false} StageLasts(p: Peer, id: Id, run: seq<Event>)
    requires forall e :: e in run ==> !Enters(e, id)
    ensures WatchAll(p, id, run).stage == if exists e :: e in run && Ends(p.stage, e, id) then Idle else p.stage
    decreases |run|
  {
    if run == [] {
    } else {
      var q := Watch(p, id, run[0]);
      assert run == [run[0]] + run[1..] && run[0] in run;
      StageLasts(q, id, run[1..]);
      if Ends(p.stage, run[0], id) {
        assert q.stage == Idle;
      } else {
        assert q.stage == p.stage;
      }
    }
  }

  /** An attempt or a connection refuses requests until it fails, its peer leaves or the network
      changes, and no longer. */
  lemma RefusesExact(myId: Id, before: seq<Event>, after: seq<Event>, m: Member, id: Id)
    requires id != "" && WatchAll(STRANGER, id, before).stage != Idle && forall e :: e in after ==> !Enters(e, id)
    ensures var s := Run(Run(Initial(myId), before), after);
      Starts(s, GoPunch(id, m)) <==> exists e :: e in after && Ends(WatchAll(STRANGER, id, before).stage, e, id)
  {
    AlwaysViewed(myId, id, before);
    RunView(Run(Initial(myId), before), id, after);
    StageLasts(WatchAll(STRANGER, id, before), id, after);
  }
}
