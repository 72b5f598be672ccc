/** What a join answers, whom it spares, and which id it hands out. */
module RoomJoins {
  import opened Basics
  import opened RoomState
  import opened RoomSafety
  import opened RoomRuns

  /** Why a join is refused: it names no room; it sends a password to an open room; none, or
      another one, to a protected room; or the room is full once the device's other members
      have gone. */
  predicate RefusedFor(cfg: Config, s: Server, req: JoinRequest, id: Option<Id>, newId: Id, code: Refusal) {
    var known := req.room != "" && req.room in s.rooms && req.room in s.roomPwd;
    var fits := known && s.roomPwd[req.room] == if req.pwd == "" then None else Some(cfg.digest(req.room, req.pwd));
    match code
    case NoRoom => req.room == ""
    case RoomOpen => known && s.roomPwd[req.room] == None && req.pwd != ""
    case NeedPassword => known && s.roomPwd[req.room] != None && req.pwd == ""
    case BadPassword => known && s.roomPwd[req.room] != None && req.pwd != "" && !fits
    case RoomFull => req.room != "" && (req.room in s.rooms ==> fits) && !HasPlace(cfg, s, req, id, newId)
  }

  lemma RefusalExact(cfg: Config, s: Server, req: JoinRequest, addr: Addr, now: int, id: Option<Id>, newId: Id,
      code: Refusal)
    requires req.room in s.rooms ==> req.room in s.roomPwd
    ensures Join(cfg, s, req, addr, now, id, newId).1 == Refused(code) <==> RefusedFor(cfg, s, req, id, newId, code)
  {
    GateRefuses(cfg, s, req, code);
    GateExact(cfg, s, req);
    if Gate(cfg, s, req).None? {
      OutcomeExact(cfg, Opened(cfg, s, req), req, addr, now, id, newId);
    }
  }

  lemma GateRefuses(cfg: Config, s: Server, req: JoinRequest, code: Refusal)
    requires req.room in s.rooms ==> req.room in s.roomPwd
    ensures code != RoomFull ==> (Gate(cfg, s, req) == Some(code) <==> RefusedFor(cfg, s, req, None, "", code))
  {
  }

  lemma OutcomeExact(cfg: Config, s: Server, req: JoinRequest, addr: Addr, now: int, id: Option<Id>, newId: Id)
    requires req.room in s.rooms && req.room in s.roomPwd
    ensures var o := Enter(cfg, s, req, addr, now, id, newId).1;
      if HasPlace(cfg, s, req, id, newId) then o.Joined? else o == Refused(RoomFull)
  {
    EnterMeaning(cfg, s, req, addr, now, id, newId);
  }

  /** The first to join a room sets its password, or leaves it open. */
  lemma RoomCreated(cfg: Config, s: Server, req: JoinRequest, addr: Addr, now: int, id: Option<Id>, newId: Id)
    requires req.room !in s.rooms
    ensures var (t, o) := Join(cfg, s, req, addr, now, id, newId);
      o.Joined? ==>
        && req.room in t.roomPwd
        && t.roomPwd[req.room] == if req.pwd == "" then None else Some(cfg.digest(req.room, req.pwd))
  {
    if Gate(cfg, s, req).None? {
      EnterMeaning(cfg, Opened(cfg, s, req), req, addr, now, id, newId);
    }
  }

  /** The answer to a join names the other members of the room as it then is, the members that
      have gone, and says whether the room is open. */
  lemma JoinReports(cfg: Config, s: Server, req: JoinRequest, addr: Addr, now: int, id: Option<Id>, newId: Id)
    requires RoomsMatchPasswords(s) && newId !in MembersMet(s, req)
    ensures req.room in s.rooms ==> req.room in s.roomPwd
    ensures var (t, o) := Join(cfg, s, req, addr, now, id, newId);
      o.Joined? ==>
        && req.room in t.rooms && req.room in t.roomPwd && o.id in t.rooms[req.room]
        && o.others == t.rooms[req.room].Keys - {o.id}
        && o.removed == MembersMet(s, req).Keys - t.rooms[req.room].Keys
        && (o.roomIsOpen <==> t.roomPwd[req.room] == None)
  {
    assert req.room in s.rooms ==> req.room in s.roomPwd;
    if Gate(cfg, s, req).None? {
      EnterReports(cfg, Opened(cfg, s, req), req, addr, now, id, newId);
    }
  }

  lemma SettleReports(cfg: Config, s: Server, req: JoinRequest, addr: Addr, now: int, id: Id, removed: set<Id>)
    requires req.room in s.rooms && req.room in s.roomPwd
    ensures var (t, o) := Settle(cfg, s, req, addr, now, id, removed);
      o.Joined? ==>
        && req.room in t.rooms && t.roomPwd == s.roomPwd && t.rooms[req.room].Keys == s.rooms[req.room].Keys + {id}
        && o.id == id && o.others == t.rooms[req.room].Keys - {o.id} && o.removed == removed
        && (o.roomIsOpen <==> t.roomPwd[req.room] == None)
  {
    var members := s.rooms[req.room];
    var after := members[id := NewMember(req, addr, now)];
    assert after.Keys == members.Keys + {id} && members.Keys - {id} == after.Keys - {id};
    assert Settle(cfg, s, req, addr, now, id, removed).1.Joined? ==>
        Settle(cfg, s, req, addr, now, id, removed).0.rooms[req.room] == after;
  }

  lemma EnterReports(cfg: Config, s: Server, req: JoinRequest, addr: Addr, now: int, id: Option<Id>, newId: Id)
    requires req.room in s.rooms && req.room in s.roomPwd && newId !in s.rooms[req.room]
    ensures var (t, o) := Enter(cfg, s, req, addr, now, id, newId);
      o.Joined? ==>
        && req.room in t.rooms && req.room in t.roomPwd && o.id in t.rooms[req.room]
        && o.others == t.rooms[req.room].Keys - {o.id}
        && o.removed == s.rooms[req.room].Keys - t.rooms[req.room].Keys
        && (o.roomIsOpen <==> t.roomPwd[req.room] == None)
  {
    var removed := Duplicates(s.rooms[req.room], req.did, id);
    RebindMeaning(s, req, id);
    SettleReports(cfg, Rebind(s, req.room, req.did, id), req, addr, now, GivenId(id, newId), removed);
    RemovedAre(s.rooms[req.room].Keys, removed, GivenId(id, newId));
  }

  lemma RemovedAre(before: set<Id>, removed: set<Id>, id: Id)
    requires removed <= before && id !in removed
    ensures before - (before - removed + {id}) == removed
  {
  }

  /** The member of another device, or of one that does not identify itself. */
  predicate Other(m: Member, req: JoinRequest) {
    req.did == "" || m.did != req.did
  }

  lemma NotTheOthers(members: map<Id, Member>, req: JoinRequest, id: Option<Id>, newId: Id, k: Id)
    requires MayGet(members, req, id) && newId !in members && k in members && Other(members[k], req)
    ensures k !in Duplicates(members, req.did, id) && k != GivenId(id, newId)
  {
  }

  lemma EnterSpares(cfg: Config, s: Server, req: JoinRequest, addr: Addr, now: int, id: Option<Id>, newId: Id, k: Id)
    requires req.room in s.rooms && req.room in s.roomPwd && k in s.rooms[req.room]
    requires k !in Duplicates(s.rooms[req.room], req.did, id) && k != GivenId(id, newId)
    ensures var t := Enter(cfg, s, req, addr, now, id, newId).0;
      req.room in t.rooms && k in t.rooms[req.room] && t.rooms[req.room][k] == s.rooms[req.room][k]
  {
    EnterMeaning(cfg, s, req, addr, now, id, newId);
  }

  /** Nobody can take the seat of a member of another device: a join with any request leaves
      every such member of the room as it was. */
  lemma JoinSpares(cfg: Config, s: Server, req: JoinRequest, addr: Addr, now: int, id: Option<Id>, newId: Id, k: Id)
    requires RoomsMatchPasswords(s) && MayGet(MembersMet(s, req), req, id) && newId !in MembersMet(s, req)
    requires k in MembersMet(s, req) && Other(MembersMet(s, req)[k], req)
    ensures req.room in s.rooms ==> req.room in s.roomPwd
    ensures var t := Join(cfg, s, req, addr, now, id, newId).0;
      req.room in t.rooms && k in t.rooms[req.room] && t.rooms[req.room][k] == s.rooms[req.room][k]
  {
    assert req.room in s.rooms ==> req.room in s.roomPwd;
    if Gate(cfg, s, req).None? {
      NotTheOthers(s.rooms[req.room], req, id, newId, k);
      EnterSpares(cfg, s, req, addr, now, id, newId, k);
    }
  }

  /** The id that a join asks for is handed out if and only if it is not empty, nor longer than
      64 characters, nor that of another device's member of the room; or if its own device has
      it there already. */
  lemma ReuseExact(cfg: Config, s: Server, req: JoinRequest, addr: Addr, now: int, id: Option<Id>, newId: Id)
    requires RoomsMatchPasswords(s) && OneMemberPerDevice(MembersMet(s, req)) && MayGet(MembersMet(s, req), req, id)
    requires newId != req.reuseId
    ensures req.room in s.rooms ==> req.room in s.roomPwd
    ensures var o := Join(cfg, s, req, addr, now, id, newId).1;
      o.Joined? ==> (o.id == req.reuseId <==> Reusable(MembersMet(s, req), req))
  {
    assert req.room in s.rooms ==> req.room in s.roomPwd;
    if Gate(cfg, s, req).None? {
      EnterMeaning(cfg, Opened(cfg, s, req), req, addr, now, id, newId);
    }
  }

  predicate Reusable(members: map<Id, Member>, req: JoinRequest) {
    || (req.reuseId in members && !Other(members[req.reuseId], req))
    || (req.reuseId !in members && req.reuseId != "" && |req.reuseId| <= 64)
  }
}
