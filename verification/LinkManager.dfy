/** The connection table itself: connection objects in a dictionary, changed in place by the
    events.  Every method does to the table what LinkTable says. */
module LinkManager {
  import opened Basics
  import opened LinkTable
  import opened LinkSafety

  /** One long-lived connection to a member. */
  class Conn {
    var phase: Phase
    var sock: Option<Sock>
    var preferred: bool

    constructor ()
      ensures phase == Connecting && sock == None && preferred
    {
      phase, sock, preferred := Connecting, None, true;
    }
  }

  class Links {
    var myId: Id
    var members: map<Id, Member>
    var connections: map<Id, Conn>
    /** The sockets handed over so far, and those closed so far. */
    var taken: set<Sock>
    var closed: set<Sock>

    /** No connection object serves two members. */
    ghost predicate Valid()
      reads this
    {
      forall a, b :: a in connections && b in connections && a != b ==> connections[a] != connections[b]
    }

    ghost function Table(): (t: map<Id, Entry>)
      reads this, connections.Values
    {
      map id | id in connections ::
        Entry(connections[id].phase, connections[id].sock, connections[id].preferred)
    }

    ghost function State(): (s: Manager)
      reads this, connections.Values
    {
      Manager(myId, members, Table(), taken, closed)
    }

    constructor (myId: Id)
      ensures Valid() && State() == Initial(myId)
    {
      this.myId := myId;
      members, connections, taken, closed := map[], map[], {}, {};
      new;
      assert Table() == map[];
    }

    method CloseSock(conn: Conn)
      modifies conn`sock, this`closed
      ensures conn.sock == None
      ensures closed == old(closed) + (if old(conn.sock).Some? then {old(conn.sock).value} else {})
    {
      if conn.sock.Some? {
        closed := closed + {conn.sock.value};
        conn.sock := None;
      }
    }

    method CloseEntry(id: Id)
      requires Valid() && id in connections
      modifies this`closed, connections[id]
      ensures Valid() && State() == Closing(old(State()), id)
    {
      ghost var conn, e := connections[id], Table()[id];
      CloseSock(connections[id]);
      assert Table() == old(Table())[id := e.(sock := None)];
    }

    method Drop(id: Id)
      requires Valid()
      modifies this`connections
      ensures Valid() && State() == old(State()).(table := old(Table()) - {id})
    {
      connections := connections - {id};
    }

    /** Puts a new connection object into the table; the old one, if any, has to be closed. */
    method Replace(id: Id, conn: Conn)
      requires Valid() && conn !in connections.Values
      modifies this`connections
      ensures Valid()
      ensures State() == old(State()).(table := old(Table())[id := Entry(conn.phase, conn.sock, conn.preferred)])
    {
      connections := connections[id := conn];
    }

    method Connect(id: Id, sock: Sock, preferred: bool)
      requires Valid()
      modifies this`connections
      ensures Valid()
      ensures State() == old(State()).(table := old(Table())[id := Entry(Connected, Some(sock), preferred)])
    {
      var conn := new Conn();
      conn.phase := Connected;
      conn.sock := Some(sock);
      conn.preferred := preferred;
      Replace(id, conn);
    }

    /** A socket offered for a peer is closed, or takes the place of what is there. */
    method TakeOver(id: Id, sock: Sock, preferred: bool)
      requires Valid()
      modifies this, connections.Values
      ensures Valid() && State() == Offer(old(State()), id, sock, preferred)
    {
      ghost var was := State();
      taken := taken + {sock};
      assert State() == was.(taken := was.taken + {sock});
      if id in connections && connections[id].phase == Connected && connections[id].sock.Some?
         && !(preferred && !connections[id].preferred)
      {
        closed := closed + {sock};
        return;
      }
      assert !(Holds(was, id) && !(preferred && !was.table[id].preferred));
      if id in connections {
        CloseEntry(id);
      }
      assert State() == Closing(was.(taken := was.taken + {sock}), id);
      Connect(id, sock, preferred);
    }

    method InstallSocket(id: Id, sock: Sock)
      requires Valid()
      modifies this, connections.Values
      ensures Valid() && State() == Install(old(State()), id, sock)
    {
      TakeOver(id, sock, OutboundPreferred(myId, id));
    }

    /** The member that an accepted connection comes from, if there is one. */
    method Claimant(ip: string, port: string) returns (who: Option<Id>)
      ensures MayClaim(members, ip, port, who)
    {
      var key := ip + ":" + port;
      who := None;
      var todo := members.Keys;
      while todo != {} && who.None?
        invariant todo <= members.Keys
        invariant who.None? ==> forall m :: m in members && m !in todo ==> members[m].pubTcp != key
        invariant who.Some? ==> who.value in members && members[who.value].pubTcp == key
        decreases todo, who.None?
      {
        var m :| m in todo;
        todo := todo - {m};
        if members[m].pubTcp != "" && members[m].pubTcp == key {
          who := Some(m);
        }
      }
      if who.None? && ip != "" {
        todo := members.Keys;
        while todo != {} && who.None?
          invariant todo <= members.Keys
          invariant who.None? ==> forall m :: m in members && m !in todo ==>
            members[m].pubTcp == "" || Host(members[m].pubTcp) != ip
          invariant who.Some? ==>
            who.value in members && members[who.value].pubTcp != "" && Host(members[who.value].pubTcp) == ip
          decreases todo, who.None?
        {
          var m :| m in todo;
          todo := todo - {m};
          if members[m].pubTcp != "" && Host(members[m].pubTcp) == ip {
            who := Some(m);
          }
        }
      }
    }

    /** Whether an accepted connection was taken over; if not, it stays the caller's. */
    method OnInbound(sock: Sock, ip: string, port: string) returns (mine: bool, ghost who: Option<Id>)
      requires Valid()
      modifies this, connections.Values
      ensures Valid() && MayClaim(old(members), ip, port, who) && mine == who.Some?
      ensures State() == if mine then Inbound(old(State()), who.value, sock) else old(State())
    {
      var found := Claimant(ip, port);
      who := found;
      if found.None? {
        return false, who;
      }
      TakeOver(found.value, sock, InboundPreferred(myId, found.value));
      mine := true;
    }

    /** Whether a punch task is to be started. */
    method OnPunchGo(id: Id, member: Member) returns (start: bool)
      requires Valid()
      modifies this
      ensures Valid() && State() == PunchGo(old(State()), id, member)
      ensures start == Starts(old(State()), GoPunch(id, member))
    {
      if id == "" {
        return false;
      }
      members := members[id := member];
      if id in connections && connections[id].phase != Failed {
        return false;
      }
      EnterFresh(id);
      start := true;
    }

    method EnterFresh(id: Id)
      requires Valid()
      modifies this`connections
      ensures Valid() && State() == old(State()).(table := old(Table())[id := FRESH])
    {
      var conn := new Conn();
      Replace(id, conn);
    }

    method OnPeerTcpReady(id: Id) returns (start: bool)
      requires Valid()
      modifies this
      ensures Valid() && State() == PeerTcpReady(old(State()), id)
      ensures start == Starts(old(State()), TcpReady(id))
    {
      if id in connections && connections[id].phase != Failed {
        return false;
      }
      if id !in members {
        return false;
      }
      EnterFresh(id);
      start := true;
    }

    method OnPeerPunchFail(id: Id)
      requires Valid()
      modifies this, connections.Values
      ensures Valid() && State() == Fail(old(State()), id)
    {
      if id in connections {
        CloseSock(connections[id]);
        connections[id].phase := Failed;
      }
    }

    /** A punch task has run out of attempts; whether the failure is to be reported. */
    method MarkFailed(id: Id) returns (failed: bool)
      requires Valid()
      modifies connections.Values
      ensures Valid() && State() == GiveUp(old(State()), id)
      ensures failed == (id in old(connections) && old(connections[id].phase) != Connected)
    {
      if id in connections && connections[id].phase != Connected {
        connections[id].phase := Failed;
        return true;
      }
      return false;
    }

    /** The keepalive loop has found a connection dead that it looked up some time before. */
    method OnDead(id: Id, conn: Conn) returns (killed: bool)
      requires Valid()
      modifies this, connections.Values
      ensures Valid() && killed == (id in old(connections) && old(connections)[id] == conn)
      ensures State() == Step(old(State()), Kill(id, killed))
    {
      if id in connections && connections[id] == conn {
        CloseSock(conn);
        conn.phase := Failed;
        return true;
      }
      return false;
    }

    method OnAddMember(id: Id, member: Member)
      requires Valid()
      modifies this`members
      ensures Valid() && State() == AddMember(old(State()), id, member)
    {
      if id != "" {
        members := members[id := member];
      }
    }

    method OnMemberLeave(id: Id)
      requires Valid()
      modifies this, connections.Values
      ensures Valid() && State() == Leave(old(State()), id)
    {
      ghost var was := State();
      if id in connections {
        CloseEntry(id);
      }
      assert State() == Closing(was, id);
      Drop(id);
      members := members - {id};
    }

    method CloseSockets()
      requires Valid()
      modifies this`closed, connections.Values
      ensures closed == old(closed) + old(HeldSocks(State()))
    {
      ghost var table := Table();
      var todo := connections.Keys;
      while todo != {}
        invariant todo <= connections.Keys
        invariant forall id :: id in todo ==> connections[id].sock == table[id].sock
        invariant closed == old(closed) + SocksOf(table, connections.Keys - todo)
      {
        var id :| id in todo;
        SocksOfOne(table, connections.Keys - todo, id);
        assert connections.Keys - todo + {id} == connections.Keys - (todo - {id});
        todo := todo - {id};
        CloseSock(connections[id]);
      }
      assert connections.Keys - todo == connections.Keys;
    }

    /** The table's part of stopping and of a change of network. */
    method CloseEverything()
      requires Valid()
      modifies this, connections.Values
      ensures Valid() && State() == CloseAll(old(State()))
    {
      CloseSockets();
      connections := map[];
    }
  }

  ghost function SocksOf(table: map<Id, Entry>, ids: set<Id>): set<Sock> {
    set id | id in table && id in ids && table[id].sock.Some? :: table[id].sock.value
  }

  lemma SocksOfOne(table: map<Id, Entry>, ids: set<Id>, id: Id)
    requires id in table
    ensures SocksOf(table, ids + {id})
         == SocksOf(table, ids) + (if table[id].sock.Some? then {table[id].sock.value} else {})
  {
  }
}
