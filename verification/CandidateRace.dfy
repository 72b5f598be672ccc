/** The race between the candidate addresses of one punch: one worker thread for each candidate,
    interleaved at every step that touches what they share.  A worker's socket goes by the
    worker's number. */
module CandidateRace {
  import opened Basics

  /** Where a worker is: before its first look at the flag, before the semaphore, inside it
      before and while connecting, inside it with the result, past it with a socket, done. */
  datatype Phase = Starting | Queued | Admitted | Connecting | Tried(ok: bool) | Holding | Finished

  /** returned is what the waiting caller took away, once it has stopped waiting. */
  datatype Race = Race(workers: seq<Phase>, done: bool, win: Option<nat>, closed: set<nat>,
                       connected: set<nat>, returned: Option<Option<nat>>)

  function Begin(n: nat): Race {
    Race(seq(n, _ => Starting), false, None, {}, {}, None)
  }

  predicate Inside(p: Phase) {
    p.Admitted? || p.Connecting? || p.Tried?
  }

  function Busy(ws: seq<Phase>): nat {
    if ws == [] then 0 else Busy(ws[..|ws| - 1]) + if Inside(ws[|ws| - 1]) then 1 else 0
  }

  datatype Event =
    | Look(w: nat)
    | Enter(w: nat)
    | LookAgain(w: nat)
    | Connect(w: nat, ok: bool)
    | Leave(w: nat)
    | Settle(w: nat)
    | Collect

  predicate At(r: Race, w: nat, p: Phase) {
    w < |r.workers| && r.workers[w] == p
  }

  predicate Possible(limit: nat, r: Race, e: Event) {
    match e
    case Look(w) => At(r, w, Starting)
    case Enter(w) => At(r, w, Queued) && Busy(r.workers) < limit
    case LookAgain(w) => At(r, w, Admitted)
    case Connect(w, _) => At(r, w, Connecting)
    case Leave(w) => w < |r.workers| && r.workers[w].Tried?
    case Settle(w) => At(r, w, Holding)
    case Collect => r.returned == None
  }

  function Move(r: Race, w: nat, p: Phase): Race
    requires w < |r.workers|
  {
    r.(workers := r.workers[w := p])
  }

  function Step(limit: nat, r: Race, e: Event): Race
    requires Possible(limit, r, e)
  {
    match e
    case Look(w) => Move(r, w, if r.done then Finished else Queued)
    case Enter(w) => Move(r, w, Admitted)
    case LookAgain(w) => Move(r, w, if r.done then Finished else Connecting)
    case Connect(w, ok) => Move(r, w, Tried(ok)).(connected := if ok then r.connected + {w} else r.connected)
    case Leave(w) => Move(r, w, if r.workers[w].ok then Holding else Finished)
    case Settle(w) =>
      if r.done then Move(r, w, Finished).(closed := r.closed + {w})
      else Move(r, w, Finished).(win := Some(w), done := true)
    case Collect => r.(returned := Some(r.win))
  }

  predicate Legal(limit: nat, r: Race, run: seq<Event>)
    decreases |run|
  {
    run == [] || (Possible(limit, r, run[0]) && Legal(limit, Step(limit, r, run[0]), run[1..]))
  }

  function Run(limit: nat, r: Race, run: seq<Event>): Race
    requires Legal(limit, r, run)
    decreases |run|
  {
    if run == [] then r else Run(limit, Step(limit, r, run[0]), run[1..])
  }

  // ---------- the invariant ----------

  /** Every connected socket is closed, has won, or is still in its worker's hands. */
  predicate Accounted(r: Race) {
    forall c :: c in r.connected ==>
      c < |r.workers| && (c in r.closed || r.win == Some(c) || r.workers[c] == Tried(true) || r.workers[c] == Holding)
  }

  /** A socket is in one of these places only, and only if it is connected. */
  predicate InOnePlace(r: Race) {
    && r.closed <= r.connected
    && (r.win.Some? ==> r.win.value in r.connected && r.win.value !in r.closed)
    && forall c :: 0 <= c < |r.workers| && (r.workers[c] == Tried(true) || r.workers[c] == Holding) ==>
         c in r.connected && c !in r.closed && r.win != Some(c)
  }

  /** Only a worker that has tried, holds its socket or is done can have connected. */
  predicate ConnectedPast(r: Race) {
    forall c :: c in r.connected ==>
      c < |r.workers| && (r.workers[c] == Tried(true) || r.workers[c] == Holding || r.workers[c] == Finished)
  }

  predicate Told(r: Race) {
    (r.done <==> r.win.Some?) && (r.returned.Some? && r.returned.value.Some? ==> r.returned.value == r.win)
  }

  predicate Sound(limit: nat, r: Race) {
    Busy(r.workers) <= limit && Told(r) && Accounted(r) && InOnePlace(r) && ConnectedPast(r)
  }

  lemma {:induction false} BusyUpdate(ws: seq<Phase>, w: nat, p: Phase)
    requires w < |ws|
    ensures Busy(ws[w := p]) == Busy(ws) - (if Inside(ws[w]) then 1 else 0) + if Inside(p) then 1 else 0
  {
    var front := ws[..|ws| - 1];
    if w == |ws| - 1 {
      assert ws[w := p][..|ws| - 1] == front;
    } else {
      BusyUpdate(front, w, p);
      assert ws[w := p][..|ws| - 1] == front[w := p];
    }
  }

  lemma {:induction false} BusyNone(n: nat)
    ensures Busy(seq(n, _ => Starting)) == 0
  {
    if n == 0 {
    } else {
      BusyNone(n - 1);
      assert seq(n, _ => Starting)[..n - 1] == seq(n - 1, _ => Starting);
    }
  }

  lemma StepBusy(limit: nat, r: Race, e: Event)
    requires Busy(r.workers) <= limit && Possible(limit, r, e)
    ensures Busy(Step(limit, r, e).workers) <= limit
  {
    if !e.Collect? {
      BusyUpdate(r.workers, e.w, Step(limit, r, e).workers[e.w]);
    }
  }

  lemma StepPlaces(limit: nat, r: Race, e: Event)
    requires Told(r) && InOnePlace(r) && ConnectedPast(r) && Possible(limit, r, e)
    ensures InOnePlace(Step(limit, r, e)) && ConnectedPast(Step(limit, r, e)) && Told(Step(limit, r, e))
  {
  }

  lemma StepAccounted(limit: nat, r: Race, e: Event)
    requires Told(r) && Accounted(r) && Possible(limit, r, e)
    ensures Accounted(Step(limit, r, e))
  {
  }

  lemma StepSound(limit: nat, r: Race, e: Event)
    requires Sound(limit, r) && Possible(limit, r, e)
    ensures Sound(limit, Step(limit, r, e))
  {
    StepBusy(limit, r, e);
    StepPlaces(limit, r, e);
    StepAccounted(limit, r, e);
  }

  lemma {:induction false} RunSound(limit: nat, r: Race, run: seq<Event>)
    requires Sound(limit, r) && Legal(limit, r, run)
    ensures Sound(limit, Run(limit, r, run))
    ensures r.win.Some? ==> Run(limit, r, run).win == r.win
    ensures r.returned.Some? ==> Run(limit, r, run).returned == r.returned
    ensures |Run(limit, r, run).workers| == |r.workers|
    decreases |run|
  {
    if run == [] {
    } else {
      StepSound(limit, r, run[0]);
      RunSound(limit, Step(limit, r, run[0]), run[1..]);
    }
  }

  predicate AllFinished(r: Race) {
    forall w :: 0 <= w < |r.workers| ==> r.workers[w] == Finished
  }

  /** In every interleaving: no more workers are past the semaphore than it admits, and of the
      sockets connected so far at most one, the winner, stays open once all workers are done. */
  lemma RaceSafe(n: nat, limit: nat, run: seq<Event>)
    requires Legal(limit, Begin(n), run)
    ensures var r := Run(limit, Begin(n), run);
      && Busy(r.workers) <= limit && (r.done <==> r.win.Some?)
      && (r.win.Some? ==> r.win.value in r.connected && r.win.value !in r.closed)
      && (AllFinished(r) ==> r.connected == r.closed + if r.win.Some? then {r.win.value} else {})
  {
    BusyNone(n);
    RunSound(limit, Begin(n), run);
  }

  /** Once a winner is recorded no later step changes it, and once the caller has been given
      a result, none changes that. */
  lemma WinnerStays(n: nat, limit: nat, before: seq<Event>, after: seq<Event>)
    requires Legal(limit, Begin(n), before) && Legal(limit, Run(limit, Begin(n), before), after)
    ensures var r := Run(limit, Begin(n), before);
      var t := Run(limit, r, after);
      (r.win.Some? ==> t.win == r.win) && (r.returned.Some? ==> t.returned == r.returned)
  {
    BusyNone(n);
    RunSound(limit, Begin(n), before);
    RunSound(limit, Run(limit, Begin(n), before), after);
  }

  /** An open socket in nobody's hands: its worker is done with it, and the caller, who has
      stopped waiting, was not given it. */
  predicate Leaked(r: Race, c: nat) {
    && c in r.connected && c !in r.closed && c < |r.workers| && r.workers[c] == Finished
    && r.returned.Some? && r.returned.value != Some(c)
  }

  /** The worker is about to record its socket as the winner when nobody waits for it. */
  predicate ComesTooLate(r: Race, e: Event) {
    e.Settle? && !r.done && r.returned.Some?
  }

  /** In every reachable state: a step leaks a socket that was not leaked before if and only if
      it is a worker's settling, the flag is not yet set, and the caller has stopped waiting. */
  lemma LeakStepExact(n: nat, limit: nat, run: seq<Event>, e: Event, c: nat)
    requires Legal(limit, Begin(n), run) && Possible(limit, Run(limit, Begin(n), run), e)
    ensures var r := Run(limit, Begin(n), run);
      Leaked(Step(limit, r, e), c) <==> Leaked(r, c) || (ComesTooLate(r, e) && e.w == c)
  {
    BusyNone(n);
    RunSound(limit, Begin(n), run);
    LeakStep(limit, Run(limit, Begin(n), run), e, c);
  }

  lemma LeakStep(limit: nat, r: Race, e: Event, c: nat)
    requires Sound(limit, r) && Possible(limit, r, e)
    ensures Leaked(Step(limit, r, e), c) <==> Leaked(r, c) || (ComesTooLate(r, e) && e.w == c)
  {
  }

  /** A worker settles too late in the course of a run. */
  predicate Late(limit: nat, r: Race, run: seq<Event>, c: nat)
    requires Legal(limit, r, run)
    decreases |run|
  {
    run != [] && ((ComesTooLate(r, run[0]) && run[0].w == c) || Late(limit, Step(limit, r, run[0]), run[1..], c))
  }

  lemma {:induction false} LeakFrom(limit: nat, r: Race, run: seq<Event>, c: nat)
    requires Sound(limit, r) && Legal(limit, r, run)
    ensures Leaked(Run(limit, r, run), c) <==> Leaked(r, c) || Late(limit, r, run, c)
    decreases |run|
  {
    if run == [] {
    } else {
      LeakStep(limit, r, run[0], c);
      StepSound(limit, r, run[0]);
      LeakFrom(limit, Step(limit, r, run[0]), run[1..], c);
    }
  }

  /** In every interleaving a socket ends up leaked if and only if its worker settled when the
      flag was not yet set and the caller had already stopped waiting. */
  lemma LeakExact(n: nat, limit: nat, run: seq<Event>, c: nat)
    requires Legal(limit, Begin(n), run)
    ensures Leaked(Run(limit, Begin(n), run), c) <==> Late(limit, Begin(n), run, c)
  {
    BusyNone(n);
    LeakFrom(limit, Begin(n), run, c);
  }

  // ---------- winners ----------

  predicate ClosedAfterWin(r: Race) {
    r.closed != {} ==> r.win.Some?
  }

  lemma {:induction false} RunClosed(limit: nat, r: Race, run: seq<Event>)
    requires Legal(limit, r, run) && ClosedAfterWin(r) && Told(r) && InOnePlace(r) && ConnectedPast(r)
    ensures ClosedAfterWin(Run(limit, r, run))
    decreases |run|
  {
    if run == [] {
    } else {
      StepPlaces(limit, r, run[0]);
      RunClosed(limit, Step(limit, r, run[0]), run[1..]);
    }
  }

  /** In every interleaving, once all workers are done: there is a winner if and only if any
      connection came up at all. */
  lemma SomebodyWins(n: nat, limit: nat, run: seq<Event>)
    requires Legal(limit, Begin(n), run) && AllFinished(Run(limit, Begin(n), run))
    ensures var r := Run(limit, Begin(n), run); r.win.Some? <==> r.connected != {}
  {
    BusyNone(n);
    RunClosed(limit, Begin(n), run);
    RunSound(limit, Begin(n), run);
  }

  /** A worker that is connecting or has connected. */
  predicate Past(p: Phase) {
    p.Connecting? || p.Tried? || p.Holding? || p.Finished?
  }

  lemma StepLate(limit: nat, r: Race, e: Event, c: nat)
    requires Possible(limit, r, e) && r.done && c < |r.workers| && !Past(r.workers[c]) && c !in r.connected
    ensures var t := Step(limit, r, e);
      t.done && |t.workers| == |r.workers| && c !in t.connected && (!Past(t.workers[c]) || t.workers[c] == Finished)
  {
  }

  /** Once the flag is set, a worker that is not connecting by then never does. */
  lemma {:induction false} NoneStartsLate(limit: nat, r: Race, run: seq<Event>, c: nat)
    requires Legal(limit, r, run) && r.done && c < |r.workers| && c !in r.connected
    requires !Past(r.workers[c]) || r.workers[c] == Finished
    ensures c !in Run(limit, r, run).connected
    decreases |run|
  {
    if run == [] {
    } else {
      if r.workers[c] != Finished {
        StepLate(limit, r, run[0], c);
      }
      NoneStartsLate(limit, Step(limit, r, run[0]), run[1..], c);
    }
  }

  /** A worker that has not looked at the flag before it is set is done when it does: it never
      queues for the semaphore. */
  lemma {:induction false} NoneQueuesLate(limit: nat, r: Race, run: seq<Event>, c: nat)
    requires Legal(limit, r, run) && r.done && c < |r.workers|
    requires r.workers[c] == Starting || r.workers[c] == Finished
    ensures var t := Run(limit, r, run);
      |t.workers| == |r.workers| && (t.workers[c] == Starting || t.workers[c] == Finished)
    decreases |run|
  {
    if run == [] {
    } else {
      NoneQueuesLate(limit, Step(limit, r, run[0]), run[1..], c);
    }
  }

  // ---------- every race ends ----------

  lemma {:induction false} BusyPositive(ws: seq<Phase>) returns (w: nat)
    requires Busy(ws) > 0
    ensures w < |ws| && Inside(ws[w])
  {
    if Inside(ws[|ws| - 1]) {
      w := |ws| - 1;
    } else {
      w := BusyPositive(ws[..|ws| - 1]);
    }
  }

  /** The next step of a worker that is not waiting for the semaphore. */
  function Next(r: Race, w: nat): Event
    requires w < |r.workers| && r.workers[w] != Finished && r.workers[w] != Queued
  {
    match r.workers[w]
    case Starting => Look(w)
    case Admitted => LookAgain(w)
    case Connecting => Connect(w, false)
    case Tried(_) => Leave(w)
    case Holding => Settle(w)
  }

  /** As long as some worker is not done some worker can go on: the semaphore never makes all
      of them wait. */
  lemma SomebodyMoves(limit: nat, r: Race) returns (e: Event)
    requires limit >= 1 && !AllFinished(r)
    ensures Possible(limit, r, e) && !e.Collect?
  {
    var w :| 0 <= w < |r.workers| && r.workers[w] != Finished;
    if r.workers[w] != Queued {
      e := Next(r, w);
    } else if Busy(r.workers) < limit {
      e := Enter(w);
    } else {
      var i := BusyPositive(r.workers);
      e := Next(r, i);
    }
  }

  function StepsLeft(p: Phase): nat {
    match p
    case Starting => 6
    case Queued => 5
    case Admitted => 4
    case Connecting => 3
    case Tried(_) => 2
    case Holding => 1
    case Finished => 0
  }

  function AllStepsLeft(ws: seq<Phase>): nat {
    if ws == [] then 0 else AllStepsLeft(ws[..|ws| - 1]) + StepsLeft(ws[|ws| - 1])
  }

  lemma {:induction false} StepsUpdate(ws: seq<Phase>, w: nat, p: Phase)
    requires w < |ws|
    ensures AllStepsLeft(ws[w := p]) == AllStepsLeft(ws) - StepsLeft(ws[w]) + StepsLeft(p)
  {
    var front := ws[..|ws| - 1];
    if w == |ws| - 1 {
      assert ws[w := p][..|ws| - 1] == front;
    } else {
      StepsUpdate(front, w, p);
      assert ws[w := p][..|ws| - 1] == front[w := p];
    }
  }

  /** The steps of a run that a worker makes. */
  function Moves(run: seq<Event>): nat {
    if run == [] then 0 else (if run[0].Collect? then 0 else 1) + Moves(run[1..])
  }

  lemma {:induction false} StepsAtFirst(n: nat)
    ensures AllStepsLeft(Begin(n).workers) == 6 * n
  {
    if n == 0 {
    } else {
      StepsAtFirst(n - 1);
      assert Begin(n).workers[..n - 1] == Begin(n - 1).workers;
    }
  }

  /** Every worker makes at most six steps: no interleaving goes on for ever. */
  lemma RaceEnds(n: nat, limit: nat, run: seq<Event>)
    requires Legal(limit, Begin(n), run)
    ensures Moves(run) <= 6 * n
  {
    StepsAtFirst(n);
    RunShrinks(limit, Begin(n), run);
  }

  lemma {:induction false} RunShrinks(limit: nat, r: Race, run: seq<Event>)
    requires Legal(limit, r, run)
    ensures Moves(run) + AllStepsLeft(Run(limit, r, run).workers) <= AllStepsLeft(r.workers)
    decreases |run|
  {
    if run == [] {
    } else {
      var t := Step(limit, r, run[0]);
      if !run[0].Collect? {
        StepsUpdate(r.workers, run[0].w, t.workers[run[0].w]);
      }
      RunShrinks(limit, t, run[1..]);
    }
  }

  // ---------- a leak ----------

  /** A run takes an end from another one. */
  ghost predicate Leads(limit: nat, r: Race, run: seq<Event>, t: Race) {
    Legal(limit, r, run) && Run(limit, r, run) == t
  }

  lemma {:induction false} Extend(limit: nat, r: Race, run: seq<Event>, t: Race, e: Event)
    requires Leads(limit, r, run, t) && Possible(limit, t, e)
    ensures Leads(limit, r, run + [e], Step(limit, t, e))
    decreases |run|
  {
    if run == [] {
      assert ([] + [e])[1..] == [];
      assert Run(limit, Step(limit, r, e), []) == Step(limit, r, e);
    } else {
      Extend(limit, Step(limit, r, run[0]), run[1..], t, e);
      assert (run + [e])[1..] == run[1..] + [e];
      assert (run + [e])[0] == run[0];
    }
  }

  /** The first worker is somewhere, the others have not looked yet. */
  predicate OnlyFirst(r: Race, n: nat, p: Phase) {
    |r.workers| == n && n > 0 && r.workers[0] == p && forall w :: 0 < w < n ==> r.workers[w] == Starting
  }

  /** The first worker connects; meanwhile the caller stops waiting. */
  lemma Slow(n: nat, limit: nat) returns (run: seq<Event>, t: Race)
    requires n > 0 && limit > 0
    ensures Leads(limit, Begin(n), run, t) && OnlyFirst(t, n, Connecting)
    ensures !t.done && t.win == None && t.connected == {} && t.closed == {} && t.returned == Some(None)
  {
    run, t := [], Begin(n);
    BusyNone(n);
    BusyUpdate(t.workers, 0, Queued);
    Extend(limit, Begin(n), run, t, Look(0));
    run, t := run + [Look(0)], Step(limit, t, Look(0));
    Extend(limit, Begin(n), run, t, Enter(0));
    run, t := run + [Enter(0)], Step(limit, t, Enter(0));
    Extend(limit, Begin(n), run, t, LookAgain(0));
    run, t := run + [LookAgain(0)], Step(limit, t, LookAgain(0));
    Extend(limit, Begin(n), run, t, Collect);
    run, t := run + [Collect], Step(limit, t, Collect);
  }

  /** Its connection comes up after all and is recorded. */
  lemma FirstIsLate(n: nat, limit: nat) returns (run: seq<Event>, t: Race)
    requires n > 0 && limit > 0
    ensures Leads(limit, Begin(n), run, t) && OnlyFirst(t, n, Finished)
    ensures t.done && t.connected == {0} && t.closed == {} && t.returned == Some(None)
  {
    run, t := Slow(n, limit);
    Extend(limit, Begin(n), run, t, Connect(0, true));
    run, t := run + [Connect(0, true)], Step(limit, t, Connect(0, true));
    Extend(limit, Begin(n), run, t, Leave(0));
    run, t := run + [Leave(0)], Step(limit, t, Leave(0));
    Extend(limit, Begin(n), run, t, Settle(0));
    run, t := run + [Settle(0)], Step(limit, t, Settle(0));
  }

  /** The other workers look at the flag and are done. */
  lemma {:induction false} OthersLook(n: nat, limit: nat, k: nat) returns (run: seq<Event>, t: Race)
    requires 1 <= k <= n && limit > 0
    ensures Leads(limit, Begin(n), run, t) && |t.workers| == n
    ensures t.done && t.connected == {0} && t.closed == {} && t.returned == Some(None)
    ensures forall w :: 0 <= w < n ==> t.workers[w] == if w < k then Finished else Starting
  {
    if k == 1 {
      run, t := FirstIsLate(n, limit);
    } else {
      run, t := OthersLook(n, limit, k - 1);
      Extend(limit, Begin(n), run, t, Look(k - 1));
      run, t := run + [Look(k - 1)], Step(limit, t, Look(k - 1));
    }
  }

  /** For any number of candidates and any limit there is a race that leaks: all workers are
      done, and the only connection came up after the caller had given up. */
  lemma LateWinnerLeaks(n: nat, limit: nat) returns (run: seq<Event>)
    requires n >= 1 && limit >= 1
    ensures Legal(limit, Begin(n), run)
    ensures AllFinished(Run(limit, Begin(n), run)) && Leaked(Run(limit, Begin(n), run), 0)
  {
    var t;
    run, t := OthersLook(n, limit, n);
  }
}
