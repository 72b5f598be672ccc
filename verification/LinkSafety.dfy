/** Who owns a socket: in every run of the connection table, what has been taken over is either
    held by exactly one connected entry, or closed. */
module LinkSafety {
  import opened Basics
  import opened LinkTable

  predicate HeldIffConnected(s: Manager) {
    forall id :: id in s.table ==> (s.table[id].sock.Some? <==> s.table[id].phase == Connected)
  }

  predicate HeldOnce(s: Manager) {
    forall a, b :: a in s.table && b in s.table && a != b && s.table[a].sock.Some? ==>
      s.table[a].sock != s.table[b].sock
  }

  predicate HeldIsOpen(s: Manager) {
    forall id :: id in s.table && s.table[id].sock.Some? ==>
      s.table[id].sock.value in s.taken && s.table[id].sock.value !in s.closed
  }

  predicate NoneLeaks(s: Manager) {
    forall k :: k in s.taken ==> k in s.closed || k in HeldSocks(s)
  }

  predicate Owned(s: Manager) {
    HeldIffConnected(s) && HeldOnce(s) && HeldIsOpen(s) && NoneLeaks(s) && s.closed <= s.taken
  }

  lemma OfferOwned(s: Manager, id: Id, sock: Sock, preferred: bool)
    requires Owned(s) && sock !in s.taken
    ensures Owned(Offer(s, id, sock, preferred))
  {
    OfferLeaksNone(s, id, sock, preferred);
  }

  lemma OfferLeaksNone(s: Manager, id: Id, sock: Sock, preferred: bool)
    requires NoneLeaks(s)
    ensures NoneLeaks(Offer(s, id, sock, preferred))
  {
    var t := Offer(s, id, sock, preferred);
    forall k | k in t.taken ensures k in t.closed || k in HeldSocks(t) {
      if k == sock {
        assert k in t.closed || t.table[id].sock == Some(k);
      } else if k in HeldSocks(s) {
        var h :| h in s.table && s.table[h].sock == Some(k);
        assert h == id ==> k in SockOf(s, id);
        assert k in t.closed || (h in t.table && t.table[h].sock == Some(k));
      }
    }
  }

  /** An entry without a socket gets another phase, or a new entry takes its place. */
  lemma RewriteOwned(s: Manager, t: Manager, id: Id, e: Entry)
    requires Owned(s) && (id in s.table ==> s.table[id].sock.None?)
    requires e.sock.None? && e.phase != Connected
    requires t.table == s.table[id := e] && t.taken == s.taken && t.closed == s.closed
    ensures Owned(t)
  {
    forall k | k in t.taken ensures k in t.closed || k in HeldSocks(t) {
      if k in HeldSocks(s) {
        var h :| h in s.table && s.table[h].sock == Some(k);
        assert h in t.table && t.table[h].sock == Some(k);
      }
    }
  }

  lemma FailOwned(s: Manager, id: Id)
    requires Owned(s)
    ensures Owned(Fail(s, id))
  {
    var t := Fail(s, id);
    forall k | k in t.taken ensures k in t.closed || k in HeldSocks(t) {
      if k in HeldSocks(s) {
        var h :| h in s.table && s.table[h].sock == Some(k);
        assert h == id || (h in t.table && t.table[h].sock == Some(k));
      }
    }
  }

  lemma LeaveOwned(s: Manager, id: Id)
    requires Owned(s)
    ensures Owned(Leave(s, id))
  {
    var t := Leave(s, id);
    forall k | k in t.taken ensures k in t.closed || k in HeldSocks(t) {
      if k in HeldSocks(s) {
        var h :| h in s.table && s.table[h].sock == Some(k);
        assert h == id || (h in t.table && t.table[h].sock == Some(k));
      }
    }
  }

  lemma CloseAllOwned(s: Manager)
    requires Owned(s)
    ensures Owned(CloseAll(s)) && CloseAll(s).closed == s.taken
  {
  }

  lemma StepOwned(s: Manager, e: Event)
    requires Owned(s) && Possible(s, e)
    ensures Owned(Step(s, e))
  {
    match e
    case Installed(id, sock) => OfferOwned(s, id, sock, OutboundPreferred(s.myId, id));
    case Accepted(id, sock) => OfferOwned(s, id, sock, InboundPreferred(s.myId, id));
    case GoPunch(id, m) =>
      if id != "" && !Busy(s, id) { RewriteOwned(s, PunchGo(s, id, m), id, FRESH); }
    case TcpReady(id) =>
      if id in s.members && !Busy(s, id) { RewriteOwned(s, PeerTcpReady(s, id), id, FRESH); }
    case PunchFailed(id) => FailOwned(s, id);
    case GivenUp(id) =>
      if id in s.table && s.table[id].phase != Connected {
        RewriteOwned(s, GiveUp(s, id), id, s.table[id].(phase := Failed));
      }
    case Kill(id, same) => FailOwned(s, id);
    case Added(id, m) =>
    case Left(id) => LeaveOwned(s, id);
    case Reset => CloseAllOwned(s);
    case Renamed(id) =>
  }

  /** In every run: an entry holds a socket exactly when it is connected, no two entries hold
      the same, none that is held has been closed, and every socket taken over is held or closed. */
  lemma {:induction false} RunOwned(s: Manager, run: seq<Event>)
    requires Owned(s) && Legal(s, run)
    ensures Owned(Run(s, run))
    decreases |run|
  {
    if run == [] {
    } else {
      StepOwned(s, run[0]);
      RunOwned(Step(s, run[0]), run[1..]);
    }
  }

  lemma AlwaysOwned(myId: Id, run: seq<Event>)
    requires Legal(Initial(myId), run)
    ensures Owned(Run(Initial(myId), run))
  {
    RunOwned(Initial(myId), run);
  }

  /** Stopping, or a change of network, at any moment leaves no socket open. */
  lemma ResetClosesEverything(myId: Id, run: seq<Event>)
    requires Legal(Initial(myId), run)
    ensures var t := Step(Run(Initial(myId), run), Reset); t.closed == t.taken && t.table == map[]
  {
    AlwaysOwned(myId, run);
    CloseAllOwned(Run(Initial(myId), run));
  }

  // ---------- whom an accepted connection belongs to ----------

  /** The address is a host alone, without colons, or that host with a port behind a colon. */
  predicate HasHost(address: string, host: string) {
    || (address == host && ':' !in address)
    || (|host| < |address| && address[|host|] == ':' && address[..|host|] == host && ':' !in address[|host| + 1..])
  }

  lemma {:induction false} HostExact(address: string, host: string)
    ensures Host(address) == host <==> HasHost(address, host)
    decreases |address|
  {
    if ':' !in address {
    } else {
      var front, last := address[..|address| - 1], address[|address| - 1];
      assert address == front + [last];
      if last == ':' {
        assert |host| < |front| ==> address[|host| + 1..][|front| - |host| - 1] == ':';
      } else {
        HostExact(front, host);
        assert |host| < |front| ==> address[|host| + 1..] == front[|host| + 1..] + [last];
      }
    }
  }

  predicate OnlyOne(members: map<Id, Member>, who: Id, fits: Member -> bool) {
    who in members && forall m :: m in members ==> (fits(members[m]) <==> m == who)
  }

  /** A connection is attributed to the one member that published its very address; if none
      did, to the one member at that host; and if there is none either, to nobody. */
  lemma ClaimExact(members: map<Id, Member>, ip: string, port: string, who: Option<Id>, m: Id)
    requires MayClaim(members, ip, port, who) && ip != ""
    ensures OnlyOne(members, m, (x: Member) => x.pubTcp == ip + ":" + port) ==> who == Some(m)
    ensures (forall x :: x in members ==> members[x].pubTcp != ip + ":" + port) ==>
      && (OnlyOne(members, m, (x: Member) => HasHost(x.pubTcp, ip)) ==> who == Some(m))
      && ((forall x :: x in members ==> !HasHost(members[x].pubTcp, ip)) <==> who == None)
  {
    forall x | x in members ensures Host(members[x].pubTcp) == ip <==> HasHost(members[x].pubTcp, ip) {
      HostExact(members[x].pubTcp, ip);
    }
  }
}
