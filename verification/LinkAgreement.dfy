/** Both ends of a simultaneous open keep the same connection. */
module LinkAgreement {
  import opened Basics
  import opened LinkTable
  import opened LinkSafety

  // ---------- the order of identifiers ----------

  lemma {:induction false} LessTotal(a: Id, b: Id)
    ensures a != b <==> Less(a, b) || Less(b, a)
    ensures !(Less(a, b) && Less(b, a))
  {
    if a == "" || b == "" || a[0] != b[0] {
    } else {
      LessTotal(a[1..], b[1..]);
      assert a == [a[0]] + a[1..] && b == [b[0]] + b[1..];
    }
  }

  /** Up to k the two are the same, and then a has ended or has the smaller character. */
  predicate Differs(a: Id, b: Id, k: nat) {
    k <= |a| && k < |b| && a[..k] == b[..k] && (k == |a| || a[k] < b[k])
  }

  /** The order is that of the first difference. */
  lemma {:induction false} LessExact(a: Id, b: Id)
    ensures Less(a, b) <==> exists k :: Differs(a, b, k)
  {
    if b == "" {
    } else if a == "" {
      assert Differs(a, b, 0);
    } else {
      LessExact(a[1..], b[1..]);
      if a[0] < b[0] {
        assert Differs(a, b, 0);
      } else if a[0] == b[0] {
        if k: nat :| Differs(a[1..], b[1..], k) {
          assert a[..k + 1] == [a[0]] + a[1..][..k] && b[..k + 1] == [b[0]] + b[1..][..k];
          assert Differs(a, b, k + 1);
        }
      }
      if k: nat :| Differs(a, b, k) {
        LaterDifference(a, b, k);
      }
    }
  }

  lemma LaterDifference(a: Id, b: Id, k: nat)
    requires a != "" && b != "" && Differs(a, b, k)
    ensures if k == 0 then a[0] < b[0] else a[0] == b[0] && Differs(a[1..], b[1..], k - 1)
  {
    if k > 0 {
      assert a[..k][0] == a[0] && b[..k][0] == b[0];
      assert a[1..][..k - 1] == a[..k][1..] && b[1..][..k - 1] == b[..k][1..];
    }
  }

  // ---------- one end ----------

  datatype Arrival = Arrival(sock: Sock, preferred: bool)

  /** The socket that an event offers for a peer, if it does. */
  function Arrived(myId: Id, e: Event, id: Id): seq<Arrival> {
    match e
    case Installed(p, k) => if p == id then [Arrival(k, OutboundPreferred(myId, id))] else []
    case Accepted(p, k) => if p == id then [Arrival(k, InboundPreferred(myId, id))] else []
    case _ => []
  }

  /** The sockets offered for a peer during a run, in order. */
  function Arrivals(myId: Id, run: seq<Event>, id: Id): (r: seq<Arrival>)
    decreases |run|
  {
    if run == [] then [] else Arrived(myId, run[0], id) + Arrivals(myId, run[1..], id)
  }

  /** Nothing ends a connection to the peer, and the own identifier stays. */
  predicate CalmStep(e: Event, id: Id) {
    match e
    case PunchFailed(p) => p != id
    case Kill(p, same) => p != id || !same
    case Left(p) => p != id
    case Reset => false
    case Renamed(_) => false
    case _ => true
  }

  predicate Calm(run: seq<Event>, id: Id) {
    forall i :: 0 <= i < |run| ==> CalmStep(run[i], id)
  }

  /** The first preferred one if any is preferred, else the first. */
  predicate Wins(arrivals: seq<Arrival>, i: nat) {
    i < |arrivals| &&
    if arrivals[i].preferred then forall j :: 0 <= j < i ==> !arrivals[j].preferred
    else i == 0 && forall j :: 0 <= j < |arrivals| ==> !arrivals[j].preferred
  }

  /** The table after some arrivals: the winner is held, and all others are closed. */
  predicate Reflects(s: Manager, id: Id, arrivals: seq<Arrival>, i: nat) {
    if arrivals == [] then !Holds(s, id)
    else
      && Wins(arrivals, i) && Holds(s, id)
      && s.table[id].sock == Some(arrivals[i].sock) && s.table[id].preferred == arrivals[i].preferred
      && forall j :: 0 <= j < |arrivals| && j != i ==> arrivals[j].sock in s.closed
  }

  lemma ArrivalStep(s: Manager, id: Id, before: seq<Arrival>, i: nat, a: Arrival) returns (k: nat)
    requires HeldIffConnected(s) && Reflects(s, id, before, i)
    ensures Reflects(Offer(s, id, a.sock, a.preferred), id, before + [a], k)
  {
    k := if before == [] || (a.preferred && !before[i].preferred) then |before| else i;
    var all := before + [a];
    assert forall j :: 0 <= j < |before| ==> all[j] == before[j];
  }

  lemma CalmKeeps(s: Manager, id: Id, before: seq<Arrival>, i: nat, e: Event)
    requires HeldIffConnected(s) && Reflects(s, id, before, i) && CalmStep(e, id)
    requires Arrived(s.myId, e, id) == []
    ensures Reflects(Step(s, e), id, before, i)
  {
  }

  /** One calm event, an arrival or not. */
  lemma CalmOne(s: Manager, e: Event, id: Id, before: seq<Arrival>, i: nat) returns (k: nat)
    requires HeldIffConnected(s) && Reflects(s, id, before, i) && CalmStep(e, id)
    ensures Reflects(Step(s, e), id, before + Arrived(s.myId, e, id), k) && Step(s, e).myId == s.myId
  {
    var seen := Arrived(s.myId, e, id);
    if seen != [] {
      assert Step(s, e) == Offer(s, id, seen[0].sock, seen[0].preferred) && seen == [seen[0]];
      k := ArrivalStep(s, id, before, i, seen[0]);
    } else {
      CalmKeeps(s, id, before, i, e);
      assert before + seen == before;
      k := i;
    }
  }

  lemma CalmTail(run: seq<Event>, id: Id)
    requires run != [] && Calm(run, id)
    ensures CalmStep(run[0], id) && Calm(run[1..], id)
  {
    forall j | 0 <= j < |run| - 1 ensures CalmStep(run[1..][j], id) {
      assert run[1..][j] == run[j + 1];
    }
  }

  lemma Regroup(a: seq<Arrival>, b: seq<Arrival>, c: seq<Arrival>)
    ensures a + b + c == a + (b + c)
  {
  }

  lemma {:induction false} CalmFrom(s: Manager, run: seq<Event>, id: Id, before: seq<Arrival>, i: nat)
    returns (k: nat)
    requires Owned(s) && Legal(s, run) && Calm(run, id) && Reflects(s, id, before, i)
    ensures Reflects(Run(s, run), id, before + Arrivals(s.myId, run, id), k)
    decreases |run|
  {
    if run == [] {
      k := i;
      assert before + Arrivals(s.myId, run, id) == before;
    } else {
      var first := Arrived(s.myId, run[0], id);
      StepOwned(s, run[0]);
      CalmTail(run, id);
      var n := CalmOne(s, run[0], id, before, i);
      k := CalmFrom(Step(s, run[0]), run[1..], id, before + first, n);
      Regroup(before, first, Arrivals(s.myId, run[1..], id));
    }
  }

  /** While nothing fails, whatever else happens, an end keeps the first preferred socket that
      was offered, or the first if none is preferred, and closes every other. */
  lemma KeepsTheWinner(s: Manager, run: seq<Event>, id: Id) returns (i: nat)
    requires Owned(s) && !Holds(s, id) && Legal(s, run) && Calm(run, id)
    ensures Reflects(Run(s, run), id, Arrivals(s.myId, run, id), i)
  {
    i := CalmFrom(s, run, id, [], 0);
    assert [] + Arrivals(s.myId, run, id) == Arrivals(s.myId, run, id);
  }

  // ---------- two ends ----------

  /** A TCP connection between two peers: who opened it, and its socket at either end. */
  datatype Tcp = Tcp(opener: Id, opening: Sock, accepting: Sock)

  function SockAt(me: Id, c: Tcp): Sock {
    if c.opener == me then c.opening else c.accepting
  }

  predicate PreferredAt(me: Id, peer: Id, c: Tcp) {
    if c.opener == me then OutboundPreferred(me, peer) else InboundPreferred(me, peer)
  }

  /** Both ends prefer exactly what the larger identifier opened. */
  lemma PreferenceAgrees(me: Id, peer: Id, c: Tcp)
    requires me != "" && peer != "" && me != peer && (c.opener == me || c.opener == peer)
    ensures PreferredAt(me, peer, c) == PreferredAt(peer, me, c)
    ensures PreferredAt(me, peer, c) <==> (if Less(me, peer) then c.opener == peer else c.opener == me)
  {
    LessTotal(me, peer);
  }

  function ArrivalAt(me: Id, peer: Id, c: Tcp): Arrival {
    Arrival(SockAt(me, c), PreferredAt(me, peer, c))
  }

  /** A run in which the connections with a peer reach an end in some order. */
  predicate Brings(me: Id, peer: Id, run: seq<Event>, order: seq<Tcp>) {
    var seen := Arrivals(me, run, peer);
    |seen| == |order| && forall i :: 0 <= i < |order| ==> seen[i] == ArrivalAt(me, peer, order[i])
  }

  predicate Peers(a: Id, b: Id) {
    a != "" && b != "" && a != b
  }

  predicate Between(a: Id, b: Id, conns: seq<Tcp>) {
    forall i :: 0 <= i < |conns| ==> conns[i].opener == a || conns[i].opener == b
  }

  predicate Main(a: Id, b: Id, c: Tcp) {
    PreferredAt(a, b, c)
  }

  /** The connection that an order of arrival lets win, by its position. */
  predicate Chosen(a: Id, b: Id, order: seq<Tcp>, i: nat) {
    i < |order| &&
    if Main(a, b, order[i]) then forall j :: 0 <= j < i ==> !Main(a, b, order[j])
    else i == 0 && forall j :: 0 <= j < |order| ==> !Main(a, b, order[j])
  }

  /** An end of the pair after a calm run. */
  lemma EndKeeps(me: Id, peer: Id, s: Manager, run: seq<Event>, order: seq<Tcp>) returns (i: nat)
    requires Owned(s) && s.myId == me && !Holds(s, peer) && Legal(s, run) && Calm(run, peer)
    requires order != [] && Brings(me, peer, run, order)
    ensures Chosen(me, peer, order, i)
    ensures var t := Run(s, run);
      && Holds(t, peer) && t.table[peer].sock == Some(SockAt(me, order[i]))
      && forall j :: 0 <= j < |order| && j != i ==> SockAt(me, order[j]) in t.closed
  {
    i := KeepsTheWinner(s, run, peer);
  }

  lemma ChosenIsMain(a: Id, b: Id, order: seq<Tcp>, i: nat, m: nat)
    requires Chosen(a, b, order, i) && m < |order| && Main(a, b, order[m])
    requires forall j :: 0 <= j < |order| && Main(a, b, order[j]) ==> order[j] == order[m]
    ensures order[i] == order[m]
  {
    assert Main(a, b, order[i]);
  }

  lemma MainSymmetric(a: Id, b: Id, order: seq<Tcp>, i: nat)
    requires Peers(a, b) && Between(a, b, order) && i < |order|
    ensures Main(a, b, order[i]) == Main(b, a, order[i])
  {
    PreferenceAgrees(a, b, order[i]);
  }

  /** One end's share of the agreement. */
  lemma EndHolds(a: Id, b: Id, me: Id, peer: Id, s: Manager, run: seq<Event>, order: seq<Tcp>, c: Tcp)
    requires Peers(a, b) && ((me == a && peer == b) || (me == b && peer == a))
    requires Between(a, b, order) && Owned(s) && s.myId == me && !Holds(s, peer) && Legal(s, run) && Calm(run, peer)
    requires Brings(me, peer, run, order)
    requires c in order && Main(a, b, c) && forall d :: d in order && Main(a, b, d) ==> d == c
    ensures var t := Run(s, run);
      && Holds(t, peer) && t.table[peer].sock == Some(SockAt(me, c))
      && forall d :: d in order && d != c ==> SockAt(me, d) in t.closed
  {
    var m :| 0 <= m < |order| && order[m] == c;
    var i := EndKeeps(me, peer, s, run, order);
    forall j | 0 <= j < |order| ensures Main(me, peer, order[j]) == Main(a, b, order[j]) {
      MainSymmetric(a, b, order, j);
    }
    ChosenIsMain(me, peer, order, i, m);
  }

  /** However many connections arise, if exactly one was opened by the larger identifier then
      in every order of arrival at either end, and whatever else happens there short of a
      failure, both ends finish with that one and have closed every other. */
  lemma BothEndsAgree(a: Id, b: Id, s: Manager, t: Manager, runA: seq<Event>, runB: seq<Event>,
                      orderA: seq<Tcp>, orderB: seq<Tcp>, c: Tcp)
    requires Peers(a, b) && Between(a, b, orderA) && multiset(orderA) == multiset(orderB)
    requires Owned(s) && s.myId == a && !Holds(s, b) && Legal(s, runA) && Calm(runA, b) && Brings(a, b, runA, orderA)
    requires Owned(t) && t.myId == b && !Holds(t, a) && Legal(t, runB) && Calm(runB, a) && Brings(b, a, runB, orderB)
    requires c in orderA && c.opener == (if Less(a, b) then b else a)
    requires forall d :: d in orderA && d.opener == c.opener ==> d == c
    ensures Holds(Run(s, runA), b) && Run(s, runA).table[b].sock == Some(SockAt(a, c))
    ensures Holds(Run(t, runB), a) && Run(t, runB).table[a].sock == Some(SockAt(b, c))
    ensures forall d :: d in orderA && d != c ==>
      SockAt(a, d) in Run(s, runA).closed && SockAt(b, d) in Run(t, runB).closed
  {
    forall d ensures d in orderA <==> d in orderB {
      assert d in multiset(orderA) <==> d in multiset(orderB);
    }
    forall d | d in orderA ensures Main(a, b, d) <==> d.opener == c.opener {
      PreferenceAgrees(a, b, d);
    }
    EndHolds(a, b, a, b, s, runA, orderA, c);
    EndHolds(a, b, b, a, t, runB, orderB, c);
  }

  /** Simultaneous open: one connection from each side. */
  lemma SimultaneousOpen(a: Id, b: Id, runA: seq<Event>, runB: seq<Event>, orderA: seq<Tcp>, orderB: seq<Tcp>, x: Tcp,
      y: Tcp)
    requires Peers(a, b) && Less(b, a) && x.opener == a && y.opener == b
    requires orderA in {[x, y], [y, x]} && orderB in {[x, y], [y, x]}
    requires Legal(Initial(a), runA) && Calm(runA, b) && Brings(a, b, runA, orderA)
    requires Legal(Initial(b), runB) && Calm(runB, a) && Brings(b, a, runB, orderB)
    ensures var s, t := Run(Initial(a), runA), Run(Initial(b), runB);
      && Holds(s, b) && s.table[b].sock == Some(x.opening) && y.accepting in s.closed
      && Holds(t, a) && t.table[a].sock == Some(x.accepting) && y.opening in t.closed
  {
    LessTotal(a, b);
    BothEndsAgree(a, b, Initial(a), Initial(b), runA, runB, orderA, orderB, x);
  }

  // ---------- exactly when they agree ----------

  /** The events by which connections reach an end, and nothing else. */
  function Events(me: Id, peer: Id, order: seq<Tcp>): (r: seq<Event>)
    ensures |r| == |order|
  {
    if order == [] then []
    else [if order[0].opener == me then Installed(peer, order[0].opening) else Accepted(peer, order[0].accepting)]
         + Events(me, peer, order[1..])
  }

  /** Each connection comes once and has its own socket at either end. */
  ghost predicate Separate(a: Id, b: Id, conns: seq<Tcp>) {
    && (forall c :: c in conns ==> multiset(conns)[c] == 1)
    && forall c, d :: c in conns && d in conns && c != d ==>
         SockAt(a, c) != SockAt(a, d) && SockAt(b, c) != SockAt(b, d)
  }

  /** What an end has after the connections have reached it in some order. */
  function Kept(me: Id, peer: Id, order: seq<Tcp>): Option<Sock> {
    var t := Run(Initial(me), Events(me, peer, order));
    if peer in t.table then t.table[peer].sock else None
  }

  predicate SameKept(a: Id, b: Id, conns: seq<Tcp>, orderA: seq<Tcp>, orderB: seq<Tcp>) {
    exists i :: 0 <= i < |conns| && Kept(a, b, orderA) == Some(SockAt(a, conns[i]))
                                 && Kept(b, a, orderB) == Some(SockAt(b, conns[i]))
  }

  ghost predicate AgreeInEveryOrder(a: Id, b: Id, conns: seq<Tcp>) {
    forall orderA, orderB :: multiset(orderA) == multiset(conns) && multiset(orderB) == multiset(conns) ==>
      SameKept(a, b, conns, orderA, orderB)
  }

  predicate OneMain(a: Id, b: Id, conns: seq<Tcp>) {
    exists i :: 0 <= i < |conns| && Main(a, b, conns[i])
                && forall j :: 0 <= j < |conns| && j != i ==> !Main(a, b, conns[j])
  }

  lemma SameElements(xs: seq<Tcp>, ys: seq<Tcp>)
    requires multiset(xs) == multiset(ys)
    ensures |xs| == |ys| && forall c :: c in xs <==> c in ys
  {
    assert |multiset(xs)| == |xs| && |multiset(ys)| == |ys|;
    forall c ensures c in xs <==> c in ys {
      assert c in multiset(xs) <==> c in multiset(ys);
    }
  }

  lemma OnceOnly(xs: seq<Tcp>, i: nat, j: nat)
    requires i < j < |xs| && xs[i] == xs[j]
    ensures multiset(xs)[xs[i]] >= 2
  {
    assert xs == xs[..j] + xs[j..];
    assert xs[..j][i] == xs[i] && xs[j..][0] == xs[i];
    assert multiset(xs) == multiset(xs[..j]) + multiset(xs[j..]);
  }

  lemma {:induction false} EventsBring(me: Id, peer: Id, order: seq<Tcp>)
    ensures Brings(me, peer, Events(me, peer, order), order) && Calm(Events(me, peer, order), peer)
  {
    if order == [] {
    } else {
      EventsBring(me, peer, order[1..]);
      var es := Events(me, peer, order);
      assert es[1..] == Events(me, peer, order[1..]);
      assert forall i :: 0 < i < |order| ==> es[i] == es[1..][i - 1] && order[i] == order[1..][i - 1];
      var rest := Arrivals(me, es[1..], peer);
      assert Arrived(me, es[0], peer) == [ArrivalAt(me, peer, order[0])];
      assert Arrivals(me, es, peer) == [ArrivalAt(me, peer, order[0])] + rest;
    }
  }

  lemma {:induction false} EventsLegal(s: Manager, me: Id, peer: Id, order: seq<Tcp>)
    requires forall i :: 0 <= i < |order| ==> SockAt(me, order[i]) !in s.taken
    requires forall i, j :: 0 <= i < j < |order| ==> SockAt(me, order[i]) != SockAt(me, order[j])
    ensures Legal(s, Events(me, peer, order))
    decreases |order|
  {
    if order == [] {
    } else {
      var es := Events(me, peer, order);
      var t := Step(s, es[0]);
      assert es[1..] == Events(me, peer, order[1..]);
      assert t.taken == s.taken + {SockAt(me, order[0])};
      var rest := order[1..];
      forall i | 0 <= i < |rest| ensures SockAt(me, rest[i]) !in t.taken {
        assert SockAt(me, order[0]) != SockAt(me, order[i + 1]);
      }
      EventsLegal(t, me, peer, rest);
    }
  }

  /** An end keeps what the order of arrival makes it choose. */
  lemma KeptIsChosen(me: Id, peer: Id, order: seq<Tcp>) returns (i: nat)
    requires order != [] && forall c :: c in order ==> multiset(order)[c] == 1
    requires forall c, d :: c in order && d in order && c != d ==> SockAt(me, c) != SockAt(me, d)
    ensures Chosen(me, peer, order, i) && Kept(me, peer, order) == Some(SockAt(me, order[i]))
  {
    forall i, j | 0 <= i < j < |order| ensures SockAt(me, order[i]) != SockAt(me, order[j]) {
      if order[i] == order[j] {
        OnceOnly(order, i, j);
      }
    }
    EventsLegal(Initial(me), me, peer, order);
    EventsBring(me, peer, order);
    i := EndKeeps(me, peer, Initial(me), Events(me, peer, order), order);
  }

  lemma OnlyMainKept(me: Id, peer: Id, order: seq<Tcp>, c: Tcp)
    requires forall d :: d in order ==> multiset(order)[d] == 1
    requires forall d, e :: d in order && e in order && d != e ==> SockAt(me, d) != SockAt(me, e)
    requires c in order && (|order| == 1 || Main(me, peer, c))
    requires forall d :: d in order && Main(me, peer, d) ==> d == c
    ensures Kept(me, peer, order) == Some(SockAt(me, c))
  {
    var i := KeptIsChosen(me, peer, order);
    var m :| 0 <= m < |order| && order[m] == c;
    if |order| > 1 {
      ChosenIsMain(me, peer, order, i, m);
    }
  }

  lemma OneMainAgrees(a: Id, b: Id, conns: seq<Tcp>, orderA: seq<Tcp>, orderB: seq<Tcp>)
    requires Peers(a, b) && Between(a, b, conns) && Separate(a, b, conns)
    requires OneMain(a, b, conns) || |conns| == 1
    requires multiset(orderA) == multiset(conns) && multiset(orderB) == multiset(conns)
    ensures SameKept(a, b, conns, orderA, orderB)
  {
    SameElements(orderA, conns);
    SameElements(orderB, conns);
    var k :| 0 <= k < |conns| && (|conns| == 1 || (Main(a, b, conns[k])
      && forall h :: 0 <= h < |conns| && h != k ==> !Main(a, b, conns[h])));
    forall d | d in conns ensures Main(b, a, d) == Main(a, b, d) && (Main(a, b, d) ==> d == conns[k]) {
      PreferenceAgrees(a, b, d);
    }
    OnlyMainKept(a, b, orderA, conns[k]);
    OnlyMainKept(b, a, orderB, conns[k]);
  }

  function Front(conns: seq<Tcp>, i: nat): seq<Tcp>
    requires i < |conns|
  {
    [conns[i]] + conns[..i] + conns[i + 1..]
  }

  lemma FrontPermutes(conns: seq<Tcp>, i: nat)
    requires i < |conns|
    ensures multiset(Front(conns, i)) == multiset(conns)
  {
    assert conns == conns[..i] + [conns[i]] + conns[i + 1..];
  }

  /** A connection that arrives first and is not beaten is kept. */
  lemma FrontKept(a: Id, b: Id, conns: seq<Tcp>, i: nat)
    requires Separate(a, b, conns) && i < |conns|
    requires Main(a, b, conns[i]) || forall j :: 0 <= j < |conns| ==> !Main(a, b, conns[j])
    ensures Kept(a, b, Front(conns, i)) == Some(SockAt(a, conns[i]))
  {
    var order := Front(conns, i);
    FrontPermutes(conns, i);
    SameElements(order, conns);
    var k := KeptIsChosen(a, b, order);
    assert order[k] in conns;
    assert order[0] == conns[i];
  }

  lemma Disagree(a: Id, b: Id, conns: seq<Tcp>, i: nat, j: nat)
    requires Peers(a, b) && Between(a, b, conns) && Separate(a, b, conns) && i < |conns| && j < |conns| && i != j
    requires Main(a, b, conns[i]) || forall j :: 0 <= j < |conns| ==> !Main(a, b, conns[j])
    requires Main(a, b, conns[j]) || forall j :: 0 <= j < |conns| ==> !Main(a, b, conns[j])
    ensures !SameKept(a, b, conns, Front(conns, i), Front(conns, j))
  {
    forall h | 0 <= h < |conns| ensures Main(b, a, conns[h]) == Main(a, b, conns[h]) {
      PreferenceAgrees(a, b, conns[h]);
    }
    FrontKept(a, b, conns, i);
    FrontKept(b, a, conns, j);
    if conns[i] == conns[j] {
      OnceOnly(conns, if i < j then i else j, if i < j then j else i);
    }
    forall k | 0 <= k < |conns|
      ensures SockAt(a, conns[i]) != SockAt(a, conns[k]) || SockAt(b, conns[j]) != SockAt(b, conns[k])
    {
      assert conns[k] != conns[i] || conns[k] != conns[j];
    }
  }

  /** For connections between two peers with distinct, non-empty identifiers: both ends keep
      the same one in every order of arrival if and only if there is only one, or exactly one
      was opened by the larger identifier. */
  lemma AgreementExact(a: Id, b: Id, conns: seq<Tcp>)
    requires Peers(a, b) && Between(a, b, conns) && Separate(a, b, conns) && conns != []
    ensures AgreeInEveryOrder(a, b, conns) <==> |conns| == 1 || OneMain(a, b, conns)
  {
    if |conns| == 1 || OneMain(a, b, conns) {
      forall orderA, orderB | multiset(orderA) == multiset(conns) && multiset(orderB) == multiset(conns)
        ensures SameKept(a, b, conns, orderA, orderB)
      {
        OneMainAgrees(a, b, conns, orderA, orderB);
      }
    } else {
      var i, j := 0, 1;
      if m :| 0 <= m < |conns| && Main(a, b, conns[m]) {
        i := m;
        j :| 0 <= j < |conns| && j != i && Main(a, b, conns[j]);
      }
      FrontPermutes(conns, i);
      FrontPermutes(conns, j);
      Disagree(a, b, conns, i, j);
    }
  }

  // ---------- without identifiers ----------

  /** Nothing happens to a peer's connection but further offers. */
  predicate NothingEnds(run: seq<Event>, id: Id) {
    forall e :: e in run ==>
      !(((e.PunchFailed? || e.Left? || e.Kill?) && e.id == id) || e.Reset?)
  }

  lemma PreferredStep(s: Manager, e: Event, id: Id)
    requires Holds(s, id) && s.table[id].preferred && NothingEnds([e], id)
    ensures var t := Step(s, e); Holds(t, id) && t.table[id] == s.table[id]
  {
    assert e in [e];
  }

  lemma {:induction false} PreferredStays(s: Manager, run: seq<Event>, id: Id)
    requires Holds(s, id) && s.table[id].preferred && NothingEnds(run, id)
    ensures var t := Run(s, run); Holds(t, id) && t.table[id] == s.table[id]
    decreases |run|
  {
    if run == [] {
    } else {
      assert run[0] in run && forall e :: e in run[1..] ==> e in run;
      PreferredStep(s, run[0], id);
      PreferredStays(Step(s, run[0]), run[1..], id);
    }
  }

  /** A connection that comes up before the own identifier is known is never given up for
      another one, from whichever side, whatever identifier comes later. */
  lemma UnnamedStays(s: Manager, e: Event, run: seq<Event>)
    requires s.myId == "" && (e.Installed? || e.Accepted?) && !Holds(s, e.id) && NothingEnds(run, e.id)
    ensures var t := Run(Step(s, e), run); Holds(t, e.id) && t.table[e.id].sock == Some(e.sock)
  {
    PreferredStays(Step(s, e), run, e.id);
  }
}
