/** The signalling server itself: its tables, the handlers that change them in place, and that
    each handler does to the tables what RoomState says. */
module RoomServer {
  import opened Basics
  import opened RoomState
  import opened RoomSafety

  class SignalServer {
    const cfg: Config
    var rooms: Rooms
    var roomPwd: map<string, Option<string>>
    var idIndex: map<Id, Place>
    var tcpMappings: map<Id, Addr>
    var tcpSocks: map<Id, Sock>
    var tcpTs: map<Id, int>
    var udpMappings: map<Id, Addr>

    ghost function State(): (s: Server)
      reads this
    {
      Server(rooms, roomPwd, idIndex, tcpMappings, tcpSocks, tcpTs, udpMappings)
    }

    constructor (cfg: Config)
      ensures this.cfg == cfg && State() == EMPTY
    {
      this.cfg := cfg;
      rooms, roomPwd, idIndex := map[], map[], map[];
      tcpMappings, tcpSocks, tcpTs, udpMappings := map[], map[], map[], map[];
    }

    /** Which id the device gets again: the one it asks for, or else one it has in the room. */
    static method ChooseId(members: map<Id, Member>, req: JoinRequest) returns (id: Option<Id>)
      ensures MayGet(members, req, id)
    {
      id := None;
      if req.reuseId != "" && |req.reuseId| <= MAX_REUSE_ID {
        if req.reuseId !in members || (req.did != "" && members[req.reuseId].did == req.did) {
          id := Some(req.reuseId);
        }
      }
      if id.None? && req.did != "" {
        var todo := members.Keys;
        while todo != {} && id.None?
          invariant todo <= members.Keys
          invariant id.None? ==> forall m :: m in members && m !in todo ==> members[m].did != req.did
          invariant id.Some? ==> id.value in SameDevice(members, req.did)
          decreases todo, id.None?
        {
          var m :| m in todo;
          todo := todo - {m};
          if members[m].did == req.did {
            id := Some(m);
          }
        }
        assert id.None? ==> SameDevice(members, req.did) == {};
      }
    }

    method DropDuplicate(room: string, m: Id)
      requires room in rooms
      modifies this`rooms, this`idIndex, this`tcpMappings, this`tcpSocks, this`udpMappings
      ensures rooms == old(rooms)[room := old(rooms[room]) - {m}]
      ensures idIndex == old(idIndex) - {m} && tcpMappings == old(tcpMappings) - {m}
      ensures tcpSocks == old(tcpSocks) - {m} && udpMappings == old(udpMappings) - {m}
    {
      rooms := rooms[room := rooms[room] - {m}];
      idIndex := idIndex - {m};
      tcpSocks := tcpSocks - {m};
      tcpMappings := tcpMappings - {m};
      udpMappings := udpMappings - {m};
    }

    /** Removes the device's other members from the room. */
    method DropDuplicates(room: string, did: string, keep: Option<Id>) returns (removed: set<Id>)
      requires room in rooms
      modifies this`rooms, this`idIndex, this`tcpMappings, this`tcpSocks, this`udpMappings
      ensures removed == Duplicates(old(rooms[room]), did, keep)
      ensures rooms == old(rooms)[room := old(rooms[room]) - removed] && idIndex == old(idIndex) - removed
      ensures tcpMappings == old(tcpMappings) - removed && tcpSocks == old(tcpSocks) - removed
      ensures udpMappings == old(udpMappings) - removed
    {
      ghost var was := State();
      ghost var members := rooms[room];
      removed := {};
      Minus(members, removed, "");
      if did != "" {
        var todo := set m | m in rooms[room] && rooms[room][m].did == did && Some(m) != keep;
        assert todo == Duplicates(members, did, keep);
        while todo != {}
          invariant removed !! todo && removed + todo == Duplicates(members, did, keep)
          invariant rooms == was.rooms[room := members - removed] && idIndex == was.idIndex - removed
          invariant tcpMappings == was.tcpMappings - removed && tcpSocks == was.tcpSocks - removed
          invariant udpMappings == was.udpMappings - removed
        {
          var m :| m in todo;
          todo := todo - {m};
          Minus(members, removed, m);
          Minus(was.idIndex, removed, m);
          Minus(was.tcpMappings, removed, m);
          Minus(was.tcpSocks, removed, m);
          Minus(was.udpMappings, removed, m);
          DropDuplicate(room, m);
          removed := removed + {m};
        }
      }
    }

    method Unmap(id: Id)
      modifies this`tcpMappings, this`tcpSocks, this`udpMappings
      ensures State() == ForgetMappings(old(State()), {id})
    {
      tcpSocks := tcpSocks - {id};
      tcpMappings := tcpMappings - {id};
      udpMappings := udpMappings - {id};
    }

    /** A device enters again: all that belonged to its network of before goes. */
    method DropTraces(room: string, did: string, id: Option<Id>) returns (removed: set<Id>)
      requires room in rooms
      modifies this`rooms, this`idIndex, this`tcpMappings, this`tcpSocks, this`udpMappings
      ensures removed == Duplicates(old(rooms[room]), did, id)
      ensures State() == Rebind(old(State()), room, did, id)
    {
      ghost var was := State();
      removed := DropDuplicates(room, did, id);
      if id.Some? {
        Unmap(id.value);
        Minus(was.tcpMappings, removed, id.value);
        Minus(was.tcpSocks, removed, id.value);
        Minus(was.udpMappings, removed, id.value);
      }
    }

    /** The first locked section of a join, which also creates the room. */
    method OpenGate(req: JoinRequest) returns (refusal: Option<Refusal>)
      requires req.room in rooms ==> req.room in roomPwd
      modifies this`rooms, this`roomPwd
      ensures refusal == Gate(cfg, old(State()), req)
      ensures State() == if refusal.Some? then old(State()) else Opened(cfg, old(State()), req)
    {
      if req.room == "" {
        return Some(NoRoom);
      }
      if req.room !in rooms {
        rooms := rooms[req.room := map[]];
        roomPwd := roomPwd[req.room := if req.pwd != "" then Some(cfg.digest(req.room, req.pwd)) else None];
        return None;
      }
      var stored := roomPwd[req.room];
      if stored.None? && req.pwd != "" {
        return Some(RoomOpen);
      } else if stored.Some? && req.pwd == "" {
        return Some(NeedPassword);
      } else if stored.Some? && cfg.digest(req.room, req.pwd) != stored.value {
        return Some(BadPassword);
      }
      return None;
    }

    method Settle(req: JoinRequest, addr: Addr, now: int, id: Id, removed: set<Id>) returns (o: Outcome)
      requires req.room in rooms && req.room in roomPwd
      modifies this`rooms, this`idIndex
      ensures (State(), o) == RoomState.Settle(cfg, old(State()), req, addr, now, id, removed)
    {
      if |rooms[req.room]| >= cfg.maxRoomSize && id !in rooms[req.room] {
        return Refused(RoomFull);
      }
      o := Joined(id, rooms[req.room].Keys - {id}, removed, roomPwd[req.room].None?);
      rooms := rooms[req.room := rooms[req.room][id := NewMember(req, addr, now)]];
      idIndex := idIndex[id := Place(req.room, addr)];
    }

    /** The second locked section of a join. */
    method Admit(req: JoinRequest, addr: Addr, now: int, newId: Id) returns (o: Outcome, ghost id: Option<Id>)
      requires req.room in rooms && req.room in roomPwd
      modifies this`rooms, this`idIndex, this`tcpMappings, this`tcpSocks, this`udpMappings
      ensures MayGet(old(rooms[req.room]), req, id)
      ensures (State(), o) == Enter(cfg, old(State()), req, addr, now, id, newId)
    {
      var chosen := ChooseId(rooms[req.room], req);
      id := chosen;
      var removed := DropTraces(req.room, req.did, chosen);
      o := Settle(req, addr, now, if chosen.None? then newId else chosen.value, removed);
    }

    method HandleJoin(req: JoinRequest, addr: Addr, now: int, newId: Id) returns (o: Outcome, ghost id: Option<Id>)
      requires req.room in rooms ==> req.room in roomPwd
      modifies this
      ensures MayGet(MembersMet(old(State()), req), req, id)
      ensures (State(), o) == Join(cfg, old(State()), req, addr, now, id, newId)
    {
      ghost var was := State();
      id := SomeId(MembersMet(was, req), req);
      var refusal := OpenGate(req);
      if refusal.Some? {
        o := Refused(refusal.value);
      } else {
        assert State() == Opened(cfg, was, req) && MembersMet(was, req) == rooms[req.room];
        o, id := Admit(req, addr, now, newId);
      }
    }

    method LeaveRoom(room: string, id: Id)
      modifies this`rooms, this`roomPwd
      ensures rooms == DropMember(old(rooms), room, id)
      ensures roomPwd == if room in rooms then old(roomPwd) else old(roomPwd) - {room}
    {
      if room in rooms {
        rooms := rooms[room := rooms[room] - {id}];
      }
      if room !in rooms || rooms[room] == map[] {
        rooms := rooms - {room};
        roomPwd := roomPwd - {room};
      }
    }

    method RemoveMember(id: Id)
      modifies this
      ensures State() == Remove(old(State()), id)
    {
      if id !in idIndex {
        return;
      }
      var room := idIndex[id].room;
      idIndex := idIndex - {id};
      LeaveRoom(room, id);
      tcpSocks := tcpSocks - {id};
      tcpMappings := tcpMappings - {id};
      tcpTs := tcpTs - {id};
      udpMappings := udpMappings - {id};
    }

    method HandleHb(id: Id, addr: Addr, now: int)
      modifies this`rooms
      ensures State() == Heartbeat(old(State()), id, addr, now)
    {
      if id in idIndex {
        var room := idIndex[id].room;
        if room in rooms && id in rooms[room] {
          rooms := rooms[room := rooms[room][id := rooms[room][id].(lastHb := now, pub := addr)]];
        }
      }
    }

    method HandleUdpHello(id: Id, addr: Addr, now: int)
      modifies this`rooms, this`udpMappings
      ensures State() == UdpHello(old(State()), id, addr, now)
    {
      if id == "" {
        return;
      }
      udpMappings := udpMappings[id := addr];
      if id in idIndex {
        var room := idIndex[id].room;
        if room in rooms && id in rooms[room] {
          rooms := rooms[room := rooms[room][id := rooms[room][id].(lastHb := now)]];
        }
      }
    }

    /** The connection that held the mapping before, if any, is handed back to be closed. */
    method HandleTcpReg(id: Id, addr: Addr, sock: Sock, now: int) returns (replaced: Option<Sock>)
      modifies this`rooms, this`tcpMappings, this`tcpTs, this`tcpSocks
      ensures State() == TcpRegister(old(State()), id, addr, sock, now)
      ensures replaced == if id != "" && id in old(tcpSocks) then Some(old(tcpSocks[id])) else None
    {
      if id == "" {
        return None;
      }
      tcpMappings := tcpMappings[id := addr];
      tcpTs := tcpTs[id := now];
      replaced := if id in tcpSocks then Some(tcpSocks[id]) else None;
      tcpSocks := tcpSocks[id := sock];
      if id in idIndex {
        var room := idIndex[id].room;
        if room in rooms && id in rooms[room] {
          rooms := rooms[room := rooms[room][id := rooms[room][id].(lastHb := now)]];
        }
      }
    }

    method HandleTcpEnd(id: Id, sock: Sock, now: int)
      modifies this`tcpSocks, this`tcpTs
      ensures State() == TcpDrop(old(State()), id, sock, now)
    {
      if id in tcpSocks && tcpSocks[id] == sock {
        tcpSocks := tcpSocks - {id};
        tcpTs := tcpTs[id := now];
      }
    }

    /** The stale members go one by one; order is the order in which they went. */
    method RemoveStale(stale: set<Id>) returns (ghost order: seq<Id>)
      modifies this
      ensures Enumerates(order, stale) && State() == RemoveEach(old(State()), order)
    {
      var todo := stale;
      order := [];
      while todo != {}
        invariant todo <= stale && Enumerates(order, stale - todo)
        invariant State() == RemoveEach(old(State()), order)
      {
        var id :| id in todo;
        todo := todo - {id};
        RemoveMember(id);
        assert (order + [id])[..|order|] == order;
        order := order + [id];
      }
    }

    /** One pass of the cleaning loop. */
    method CleanupPass(deadline: int, now: int) returns (ghost order: seq<Id>)
      modifies this
      ensures Enumerates(order, Stale(old(State()), deadline))
      ensures State() == CleaningPass(old(State()), order, now)
    {
      var stale := FindStale(deadline);
      order := RemoveStale(stale);
      DropExpired(now);
    }

    method FindStale(deadline: int) returns (stale: set<Id>)
      ensures stale == Stale(State(), deadline)
    {
      stale := set id | id in idIndex &&
        (if idIndex[id].room in rooms && id in rooms[idIndex[id].room]
         then rooms[idIndex[id].room][id].lastHb else 0) < deadline;
    }

    method DropExpired(now: int)
      modifies this`tcpMappings, this`tcpTs
      ensures State() == Expire(old(State()), now)
    {
      ghost var was := State();
      var expired := set id | id in tcpTs && id !in tcpSocks && now - tcpTs[id] > TCP_MAPPING_GRACE_MS;
      assert expired == Expired(was, now);
      ghost var done := {};
      while expired != {}
        invariant done !! expired && done + expired == Expired(was, now)
        invariant tcpMappings == was.tcpMappings - done && tcpTs == was.tcpTs - done
      {
        var id :| id in expired;
        expired := expired - {id};
        tcpMappings, tcpTs := tcpMappings - {id}, tcpTs - {id};
        done := done + {id};
      }
      assert done == Expired(was, now);
    }
  }

  lemma Minus<K, V>(m: map<K, V>, ks: set<K>, k: K)
    ensures (m - ks) - {k} == m - (ks + {k}) && m - {} == m
  {
  }

  /** Every request has an id it may be given. */
  ghost function SomeId(members: map<Id, Member>, req: JoinRequest): (id: Option<Id>)
    ensures MayGet(members, req, id)
  {
    if ReuseAccepted(members, req) then Some(req.reuseId)
    else if req.did != "" && SameDevice(members, req.did) != {} then
      var m :| m in SameDevice(members, req.did); Some(m)
    else None
  }
}
