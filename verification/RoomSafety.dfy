/** What holds of the signalling server's state in every run of its handlers. */
module RoomSafety {
  import opened Basics
  import opened RoomState

  // ---------- consistency ----------

  ghost predicate RoomsMatchPasswords(s: Server) {
    forall r :: r in s.rooms <==> r in s.roomPwd
  }

  predicate OneMemberPerDevice(members: map<Id, Member>) {
    forall a, b :: a in members && b in members && a != b && members[a].did != "" ==>
      members[a].did != members[b].did
  }

  predicate DevicesDistinct(s: Server) {
    forall r :: r in s.rooms ==> OneMemberPerDevice(s.rooms[r])
  }

  predicate IndexedIsMember(s: Server) {
    forall id :: id in s.idIndex ==> s.idIndex[id].room in s.rooms && id in s.rooms[s.idIndex[id].room]
  }

  predicate MemberIsIndexed(s: Server) {
    forall r, id :: r in s.rooms && id in s.rooms[r] ==> id in s.idIndex && s.idIndex[id].room == r
  }

  ghost predicate MappingsNested(s: Server) {
    forall id :: (id in s.tcpSocks ==> id in s.tcpMappings) && (id in s.tcpMappings ==> id in s.tcpTs)
  }

  /** Rooms have at most the maximal number of members, and none is empty but some of those
      that a join has just created and not entered yet. */
  predicate RoomsSized(cfg: Config, s: Server, awaiting: set<string>) {
    forall r :: r in s.rooms ==> |s.rooms[r]| <= cfg.maxRoomSize && (r in awaiting || 1 <= |s.rooms[r]|)
  }

  /** What every handler keeps, whatever ids joins hand out. */
  ghost predicate Sturdy(cfg: Config, s: Server, awaiting: set<string>) {
    && RoomsMatchPasswords(s) && DevicesDistinct(s) && IndexedIsMember(s) && MappingsNested(s)
    && RoomsSized(cfg, s, awaiting)
  }

  /** With the other direction of the index as well. */
  ghost predicate Consistent(cfg: Config, s: Server) {
    Sturdy(cfg, s, {}) && MemberIsIndexed(s)
  }

  // ---------- joining ----------

  /** The id that a join would hand out belongs to a member of another room. */
  predicate TakesForeignId(s: Server, req: JoinRequest, id: Option<Id>, newId: Id) {
    GivenId(id, newId) in s.idIndex && s.idIndex[GivenId(id, newId)].room != req.room
  }

  lemma DuplicatesGone(members: map<Id, Member>, did: string, keep: Option<Id>, myId: Id, m: Member)
    requires OneMemberPerDevice(members) && m.did == did
    requires keep.Some? ==> keep.value == myId
    ensures var left := members - Duplicates(members, did, keep);
      OneMemberPerDevice(left) && OneMemberPerDevice(left[myId := m])
  {
  }

  lemma RemoveSize(m: map<Id, Member>, ids: set<Id>)
    ensures |m - ids| <= |m|
  {
    assert (m - ids).Keys == m.Keys - ids;
    assert m.Keys == (m.Keys - ids) + (m.Keys * ids);
  }

  lemma OpenedSturdy(cfg: Config, awaiting: set<string>, s: Server, req: JoinRequest)
    requires Sturdy(cfg, s, awaiting)
    ensures Sturdy(cfg, Opened(cfg, s, req), awaiting + {req.room}) && req.room in Opened(cfg, s, req).rooms
    ensures MemberIsIndexed(s) ==> MemberIsIndexed(Opened(cfg, s, req))
  {
    if req.room !in s.rooms {
      OpenRoomSturdy(cfg, awaiting, s, req);
      OpenRoomMembers(cfg, s, req);
    }
  }

  lemma OpenRoomSturdy(cfg: Config, awaiting: set<string>, s: Server, req: JoinRequest)
    requires Sturdy(cfg, s, awaiting) && req.room !in s.rooms
    ensures Sturdy(cfg, OpenRoom(cfg, s, req), awaiting + {req.room})
  {
    var t := OpenRoom(cfg, s, req);
    assert RoomsMatchPasswords(t);
    assert DevicesDistinct(t);
    assert IndexedIsMember(t);
    assert MappingsNested(t);
  }

  lemma OpenRoomMembers(cfg: Config, s: Server, req: JoinRequest)
    requires req.room !in s.rooms
    ensures MemberIsIndexed(s) ==> MemberIsIndexed(OpenRoom(cfg, s, req))
  {
  }

  lemma EnterMappings(cfg: Config, s: Server, req: JoinRequest, addr: Addr, now: int, id: Option<Id>, newId: Id)
    requires req.room in s.rooms && req.room in s.roomPwd && MappingsNested(s)
    ensures MappingsNested(Enter(cfg, s, req, addr, now, id, newId).0)
  {
  }

  /** The room before the newcomer has its place. */
  function Left(s: Server, req: JoinRequest, id: Option<Id>): map<Id, Member>
    requires req.room in s.rooms
  {
    s.rooms[req.room] - Duplicates(s.rooms[req.room], req.did, id)
  }

  /** What rooms, passwords and index are after the second section of a join. */
  ghost predicate Entered(cfg: Config, s: Server, req: JoinRequest, m: Member, id: Option<Id>, myId: Id, t: Server,
      o: Outcome)
    requires req.room in s.rooms
  {
    var left := Left(s, req, id);
    var kept := s.idIndex - Duplicates(s.rooms[req.room], req.did, id);
    && t.rooms == s.rooms[req.room := if o.Joined? then left[myId := m] else left]
    && t.roomPwd == s.roomPwd
    && t.idIndex == (if o.Joined? then kept[myId := Place(req.room, m.pub)] else kept)
    && (o.Joined? ==> o.id == myId && (|left| < cfg.maxRoomSize || myId in left))
    && (o.Refused? ==> o.code == RoomFull && |left| >= cfg.maxRoomSize && myId !in left)
  }

  lemma RebindMeaning(s: Server, req: JoinRequest, id: Option<Id>)
    requires req.room in s.rooms
    ensures var t := Rebind(s, req.room, req.did, id);
      && t.rooms == s.rooms[req.room := Left(s, req, id)] && t.roomPwd == s.roomPwd
      && t.idIndex == s.idIndex - Duplicates(s.rooms[req.room], req.did, id)
  {
  }

  lemma SettleMeaning(cfg: Config, s: Server, t: Server, req: JoinRequest, addr: Addr, now: int, id: Option<Id>,
      myId: Id, removed: set<Id>)
    requires req.room in s.rooms && req.room in s.roomPwd && t.roomPwd == s.roomPwd
    requires t.rooms == s.rooms[req.room := Left(s, req, id)]
    requires t.idIndex == s.idIndex - Duplicates(s.rooms[req.room], req.did, id)
    ensures var (u, o) := Settle(cfg, t, req, addr, now, myId, removed);
      Entered(cfg, s, req, NewMember(req, addr, now), id, myId, u, o)
  {
  }

  lemma EnterMeaning(cfg: Config, s: Server, req: JoinRequest, addr: Addr, now: int, id: Option<Id>, newId: Id)
    requires req.room in s.rooms && req.room in s.roomPwd
    ensures var (t, o) := Enter(cfg, s, req, addr, now, id, newId);
      Entered(cfg, s, req, NewMember(req, addr, now), id, GivenId(id, newId), t, o)
  {
    RebindMeaning(s, req, id);
    SettleMeaning(cfg, s, Rebind(s, req.room, req.did, id), req, addr, now, id, GivenId(id, newId),
                  Duplicates(s.rooms[req.room], req.did, id));
  }

  lemma EnteredRooms(cfg: Config, s: Server, req: JoinRequest, m: Member, id: Option<Id>, myId: Id, t: Server,
      o: Outcome)
    requires req.room in s.rooms && RoomsMatchPasswords(s) && DevicesDistinct(s)
    requires Entered(cfg, s, req, m, id, myId, t, o) && m.did == req.did && (id.Some? ==> id.value == myId)
    ensures RoomsMatchPasswords(t) && DevicesDistinct(t)
  {
    DuplicatesGone(s.rooms[req.room], req.did, id, myId, m);
  }

  lemma EnteredSized(cfg: Config, awaiting: set<string>, s: Server, req: JoinRequest, m: Member, id: Option<Id>,
      myId: Id, t: Server, o: Outcome)
    requires cfg.maxRoomSize >= 1 && req.room in s.rooms && RoomsSized(cfg, s, awaiting + {req.room})
    requires Entered(cfg, s, req, m, id, myId, t, o)
    ensures RoomsSized(cfg, t, awaiting)
  {
    RemoveSize(s.rooms[req.room], Duplicates(s.rooms[req.room], req.did, id));
    SeatSize(cfg, Left(s, req, id), myId, m);
    assert 1 <= |t.rooms[req.room]| <= cfg.maxRoomSize;
  }

  lemma SeatSize(cfg: Config, left: map<Id, Member>, id: Id, m: Member)
    requires |left| <= cfg.maxRoomSize
    ensures |left| < cfg.maxRoomSize || id in left ==> 1 <= |left[id := m]| <= cfg.maxRoomSize
  {
    assert left[id := m].Keys == left.Keys + {id};
  }

  lemma EnteredIndexed(cfg: Config, s: Server, req: JoinRequest, m: Member, id: Option<Id>, myId: Id, t: Server,
      o: Outcome)
    requires req.room in s.rooms && IndexedIsMember(s)
    requires Entered(cfg, s, req, m, id, myId, t, o)
    ensures IndexedIsMember(t)
  {
    forall k | k in t.idIndex ensures t.idIndex[k].room in t.rooms && k in t.rooms[t.idIndex[k].room] {
      assert (o.Joined? && k == myId) || (k in s.idIndex && t.idIndex[k] == s.idIndex[k]);
    }
  }

  lemma EnteredMembers(cfg: Config, s: Server, req: JoinRequest, m: Member, id: Option<Id>, myId: Id, t: Server,
      o: Outcome)
    requires req.room in s.rooms && MemberIsIndexed(s)
    requires Entered(cfg, s, req, m, id, myId, t, o)
    requires o.Refused? || (myId in s.idIndex ==> s.idIndex[myId].room == req.room)
    ensures MemberIsIndexed(t)
  {
    forall r, k | r in t.rooms && k in t.rooms[r] ensures k in t.idIndex && t.idIndex[k].room == r {
      if !(o.Joined? && k == myId) {
        assert k in s.rooms[r] && s.idIndex[k].room == r;
        assert k !in Duplicates(s.rooms[req.room], req.did, id) by {
          assert k in s.rooms[req.room] ==> r == req.room;
        }
      }
    }
  }

  lemma EnteredForeign(cfg: Config, s: Server, req: JoinRequest, m: Member, id: Option<Id>, myId: Id, t: Server,
      o: Outcome)
    requires req.room in s.rooms && IndexedIsMember(s)
    requires Entered(cfg, s, req, m, id, myId, t, o)
    requires o.Joined? && myId in s.idIndex && s.idIndex[myId].room != req.room
    ensures !MemberIsIndexed(t)
  {
    var other := s.idIndex[myId].room;
    assert other in t.rooms && myId in t.rooms[other] && t.idIndex[myId].room == req.room;
  }

  lemma EnteredSturdy(cfg: Config, awaiting: set<string>, s: Server, req: JoinRequest, m: Member, id: Option<Id>,
      myId: Id, t: Server, o: Outcome)
    requires cfg.maxRoomSize >= 1 && Sturdy(cfg, s, awaiting + {req.room}) && req.room in s.rooms
    requires Entered(cfg, s, req, m, id, myId, t, o) && MappingsNested(t)
    requires m.did == req.did && (id.Some? ==> id.value == myId)
    ensures Sturdy(cfg, t, awaiting)
  {
    EnteredRooms(cfg, s, req, m, id, myId, t, o);
    EnteredIndexed(cfg, s, req, m, id, myId, t, o);
    EnteredSized(cfg, awaiting, s, req, m, id, myId, t, o);
  }

  lemma EnterSturdy(cfg: Config, awaiting: set<string>, s: Server, req: JoinRequest, addr: Addr, now: int,
      id: Option<Id>, newId: Id)
    requires cfg.maxRoomSize >= 1 && Sturdy(cfg, s, awaiting + {req.room}) && req.room in s.rooms
    ensures req.room in s.roomPwd
    ensures Sturdy(cfg, Enter(cfg, s, req, addr, now, id, newId).0, awaiting)
  {
    EnterMappings(cfg, s, req, addr, now, id, newId);
    EnterMeaning(cfg, s, req, addr, now, id, newId);
    var (t, o) := Enter(cfg, s, req, addr, now, id, newId);
    EnteredSturdy(cfg, awaiting, s, req, NewMember(req, addr, now), id, GivenId(id, newId), t, o);
  }

  /** Whatever id it hands out, a join keeps all but the index of other rooms' members. */
  lemma JoinSturdy(cfg: Config, awaiting: set<string>, s: Server, req: JoinRequest, addr: Addr, now: int,
      id: Option<Id>, newId: Id)
    requires cfg.maxRoomSize >= 1 && Sturdy(cfg, s, awaiting)
    ensures req.room in s.rooms ==> req.room in s.roomPwd
    ensures Sturdy(cfg, Join(cfg, s, req, addr, now, id, newId).0, awaiting)
  {
    assert req.room in s.rooms ==> req.room in s.roomPwd;
    if Gate(cfg, s, req).None? {
      OpenedSturdy(cfg, awaiting, s, req);
      EnterSturdy(cfg, awaiting, Opened(cfg, s, req), req, addr, now, id, newId);
    }
  }

  /** There is room for the newcomer once its device's other members have gone. */
  predicate HasPlace(cfg: Config, s: Server, req: JoinRequest, id: Option<Id>, newId: Id) {
    var left := MembersMet(s, req) - Duplicates(MembersMet(s, req), req.did, id);
    |left| < cfg.maxRoomSize || GivenId(id, newId) in left
  }

  lemma EnterExact(cfg: Config, s: Server, req: JoinRequest, addr: Addr, now: int, id: Option<Id>, newId: Id)
    requires req.room in s.rooms && req.room in s.roomPwd && IndexedIsMember(s) && MemberIsIndexed(s)
    ensures MemberIsIndexed(Enter(cfg, s, req, addr, now, id, newId).0) <==>
      !(HasPlace(cfg, s, req, id, newId) && TakesForeignId(s, req, id, newId))
  {
    EnterMeaning(cfg, s, req, addr, now, id, newId);
    var (t, o) := Enter(cfg, s, req, addr, now, id, newId);
    var m, myId := NewMember(req, addr, now), GivenId(id, newId);
    assert o.Joined? <==> HasPlace(cfg, s, req, id, newId);
    if o.Joined? && TakesForeignId(s, req, id, newId) {
      EnteredForeign(cfg, s, req, m, id, myId, t, o);
    } else {
      EnteredMembers(cfg, s, req, m, id, myId, t, o);
    }
  }

  /** The join's part in whether every member is indexed. */
  lemma JoinMembers(cfg: Config, s: Server, req: JoinRequest, addr: Addr, now: int, id: Option<Id>, newId: Id)
    requires IndexedIsMember(s) && MemberIsIndexed(s) && (req.room in s.rooms ==> req.room in s.roomPwd)
    ensures MemberIsIndexed(Join(cfg, s, req, addr, now, id, newId).0) <==>
      !(Gate(cfg, s, req).None? && HasPlace(cfg, s, req, id, newId) && TakesForeignId(s, req, id, newId))
  {
    if Gate(cfg, s, req).None? {
      OpenedIndexed(cfg, s, req);
      EnterExact(cfg, Opened(cfg, s, req), req, addr, now, id, newId);
    }
  }

  lemma OpenedIndexed(cfg: Config, s: Server, req: JoinRequest)
    ensures IndexedIsMember(s) ==> IndexedIsMember(Opened(cfg, s, req))
    ensures MemberIsIndexed(s) ==> MemberIsIndexed(Opened(cfg, s, req))
  {
    if req.room !in s.rooms {
      OpenRoomMembers(cfg, s, req);
      OpenRoomIndexed(cfg, s, req);
    }
  }

  lemma OpenRoomIndexed(cfg: Config, s: Server, req: JoinRequest)
    requires req.room !in s.rooms
    ensures IndexedIsMember(s) ==> IndexedIsMember(OpenRoom(cfg, s, req))
  {
  }

  /** A join leaves a consistent state consistent unless it passes the gate, finds a place, and
      the id it is given is at that moment indexed in another room; then it does not. */
  lemma JoinExact(cfg: Config, s: Server, req: JoinRequest, addr: Addr, now: int, id: Option<Id>, newId: Id)
    requires cfg.maxRoomSize >= 1 && Consistent(cfg, s)
    ensures req.room in s.rooms ==> req.room in s.roomPwd
    ensures Consistent(cfg, Join(cfg, s, req, addr, now, id, newId).0) <==>
      !(Gate(cfg, s, req).None? && HasPlace(cfg, s, req, id, newId) && TakesForeignId(s, req, id, newId))
  {
    JoinSturdy(cfg, {}, s, req, addr, now, id, newId);
    JoinMembers(cfg, s, req, addr, now, id, newId);
  }

  /** A concrete join that breaks consistency: a reuse id that is in use in another room. */
  lemma ForeignReuseBreaks(cfg: Config, addr: Addr, now: int) returns (s: Server, req: JoinRequest)
    requires cfg.maxRoomSize >= 1
    ensures Consistent(cfg, s) && MayGet(MembersMet(s, req), req, Some("1")) && req.room !in s.rooms
    ensures !Consistent(cfg, Join(cfg, s, req, addr, now, Some("1"), "2").0)
  {
    var m := Member("a", addr, [], 0, now, "");
    s := EMPTY.(rooms := map["x" := map["1" := m]],
                roomPwd := map["x" := None], idIndex := map["1" := Place("x", addr)]);
    req := JoinRequest("y", "", "", "1", "b", [], 0);
    assert |s.rooms["x"]| == 1;
    ForeignReuse(cfg, s, req, addr, now);
  }

  lemma ForeignReuse(cfg: Config, s: Server, req: JoinRequest, addr: Addr, now: int)
    requires cfg.maxRoomSize >= 1 && Consistent(cfg, s)
    requires req.room != "" && req.room !in s.rooms && req.did == "" && TakesForeignId(s, req, Some("1"), "2")
    ensures !Consistent(cfg, Join(cfg, s, req, addr, now, Some("1"), "2").0)
  {
    assert MembersMet(s, req) - {} == map[];
    JoinExact(cfg, s, req, addr, now, Some("1"), "2");
  }

  lemma GateExact(cfg: Config, s: Server, req: JoinRequest)
    requires req.room in s.rooms ==> req.room in s.roomPwd
    ensures Gate(cfg, s, req).None? <==>
      req.room != "" && (req.room in s.rooms ==>
        s.roomPwd[req.room] == if req.pwd == "" then None else Some(cfg.digest(req.room, req.pwd)))
    ensures Gate(cfg, s, req) != Some(RoomFull)
  {
  }

  lemma EnterOutcome(cfg: Config, s: Server, req: JoinRequest, addr: Addr, now: int, id: Option<Id>, newId: Id)
    requires req.room in s.rooms && req.room in s.roomPwd
    ensures var o := Enter(cfg, s, req, addr, now, id, newId).1; o.Joined? || o == Refused(RoomFull)
  {
  }

  /** Who gets in: whoever finds no room, or an open room while sending no password, or a
      protected room while sending the password it was created with; a refusal at this point
      changes nothing. */
  lemma JoinGuarded(cfg: Config, s: Server, req: JoinRequest, addr: Addr, now: int, id: Option<Id>, newId: Id)
    requires req.room in s.rooms ==> req.room in s.roomPwd
    ensures var (t, o) := Join(cfg, s, req, addr, now, id, newId);
      && (o.Joined? || o.code == RoomFull <==>
            req.room != "" && (req.room in s.rooms ==>
              s.roomPwd[req.room] == if req.pwd == "" then None else Some(cfg.digest(req.room, req.pwd))))
      && (o.Refused? && o.code != RoomFull ==> t == s)
  {
    GateExact(cfg, s, req);
    if Gate(cfg, s, req).None? {
      EnterOutcome(cfg, Opened(cfg, s, req), req, addr, now, id, newId);
    }
  }

  lemma EnteredOthers(cfg: Config, s: Server, req: JoinRequest, addr: Addr, now: int, id: Option<Id>, newId: Id,
      r: string)
    requires req.room in s.rooms && req.room in s.roomPwd && r in s.rooms && r != req.room
    ensures var t := Enter(cfg, s, req, addr, now, id, newId).0; r in t.rooms && t.rooms[r] == s.rooms[r]
  {
    EnterMeaning(cfg, s, req, addr, now, id, newId);
  }

  /** A join leaves every other room alone. */
  lemma JoinOtherRooms(cfg: Config, s: Server, req: JoinRequest, addr: Addr, now: int, id: Option<Id>, newId: Id,
      r: string)
    requires req.room in s.rooms ==> req.room in s.roomPwd
    requires r in s.rooms && r != req.room
    ensures var t := Join(cfg, s, req, addr, now, id, newId).0; r in t.rooms && t.rooms[r] == s.rooms[r]
  {
    if Gate(cfg, s, req).None? {
      EnteredOthers(cfg, Opened(cfg, s, req), req, addr, now, id, newId, r);
    }
  }

  lemma JoinPasswords(cfg: Config, s: Server, req: JoinRequest, addr: Addr, now: int, id: Option<Id>, newId: Id,
      r: string)
    requires req.room in s.rooms ==> req.room in s.roomPwd
    requires r in s.rooms && r in s.roomPwd
    ensures var t := Join(cfg, s, req, addr, now, id, newId).0; r in t.roomPwd && t.roomPwd[r] == s.roomPwd[r]
  {
    if Gate(cfg, s, req).None? {
      EnterMeaning(cfg, Opened(cfg, s, req), req, addr, now, id, newId);
    }
  }

  /** After a join the room holds exactly one member of a device that identifies itself, and
      a device that is already in the room and does not ask for another id keeps its own. */
  lemma JoinIdentity(cfg: Config, s: Server, req: JoinRequest, addr: Addr, now: int, id: Option<Id>, newId: Id)
    requires RoomsMatchPasswords(s) && OneMemberPerDevice(MembersMet(s, req)) && MayGet(MembersMet(s, req), req, id)
    ensures req.room in s.rooms ==> req.room in s.roomPwd
    ensures var (t, o) := Join(cfg, s, req, addr, now, id, newId);
      o.Joined? && req.did != "" ==>
        && req.room in t.rooms && SameDevice(t.rooms[req.room], req.did) == {o.id}
        && (forall m :: m in SameDevice(MembersMet(s, req), req.did) && (req.reuseId == "" || req.reuseId == m)
                        ==> o.id == m)
  {
    assert req.room in s.rooms ==> req.room in s.roomPwd;
    if Gate(cfg, s, req).None? && req.did != "" {
      EnterMeaning(cfg, Opened(cfg, s, req), req, addr, now, id, newId);
      IdentityIn(MembersMet(s, req), req, id, newId, addr, now);
    }
  }

  lemma IdentityIn(members: map<Id, Member>, req: JoinRequest, id: Option<Id>, newId: Id, addr: Addr, now: int)
    requires OneMemberPerDevice(members) && MayGet(members, req, id) && req.did != ""
    ensures var myId := if id.Some? then id.value else newId;
      var left := members - Duplicates(members, req.did, id);
      && SameDevice(left[myId := NewMember(req, addr, now)], req.did) == {myId}
      && (forall m :: m in SameDevice(members, req.did) && (req.reuseId == "" || req.reuseId == m) ==> myId == m)
  {
  }

  // ---------- leaving ----------

  lemma RemoveIndexed(s: Server, id: Id)
    requires IndexedIsMember(s) && id in s.idIndex
    ensures IndexedIsMember(Remove(s, id))
  {
    var room := s.idIndex[id].room;
    var t := Remove(s, id);
    forall m | m in t.idIndex ensures t.idIndex[m].room in t.rooms && m in t.rooms[t.idIndex[m].room] {
      assert m in s.rooms[s.idIndex[m].room];
      if s.idIndex[m].room == room {
        assert m in s.rooms[room] - {id};
      }
    }
  }

  lemma RemoveMembers(s: Server, id: Id)
    requires MemberIsIndexed(s) && IndexedIsMember(s) && id in s.idIndex
    ensures MemberIsIndexed(Remove(s, id))
  {
    var t := Remove(s, id);
    forall r, m | r in t.rooms && m in t.rooms[r] ensures m in t.idIndex && t.idIndex[m].room == r {
      assert m in s.rooms[r];
    }
  }

  lemma DropSized(rooms: Rooms, room: string, id: Id, most: nat, awaiting: set<string>)
    requires room in rooms && forall r :: r in rooms ==> |rooms[r]| <= most && (r in awaiting || 1 <= |rooms[r]|)
    ensures var t := DropMember(rooms, room, id);
      forall r :: r in t ==> |t[r]| <= most && (r in awaiting || 1 <= |t[r]|)
  {
    RemoveSize(rooms[room], {id});
    SizePositive(rooms[room] - {id});
  }

  lemma SizePositive(m: map<Id, Member>)
    ensures m != map[] ==> |m| >= 1
  {
  }

  lemma RemoveSized(cfg: Config, awaiting: set<string>, s: Server, id: Id)
    requires RoomsSized(cfg, s, awaiting) && IndexedIsMember(s)
    ensures RoomsSized(cfg, Remove(s, id), awaiting)
  {
    if id in s.idIndex {
      DropSized(s.rooms, s.idIndex[id].room, id, cfg.maxRoomSize, awaiting);
    }
  }

  lemma RemoveRooms(s: Server, id: Id)
    requires RoomsMatchPasswords(s) && DevicesDistinct(s) && IndexedIsMember(s)
    ensures RoomsMatchPasswords(Remove(s, id)) && DevicesDistinct(Remove(s, id))
  {
    if id in s.idIndex {
      assert OneMemberPerDevice(s.rooms[s.idIndex[id].room] - {id});
    }
  }

  lemma RemoveMappings(s: Server, id: Id)
    requires MappingsNested(s)
    ensures MappingsNested(Remove(s, id))
  {
  }

  lemma RemoveSturdy(cfg: Config, awaiting: set<string>, s: Server, id: Id)
    requires Sturdy(cfg, s, awaiting)
    ensures Sturdy(cfg, Remove(s, id), awaiting)
  {
    RemoveRooms(s, id);
    RemoveMappings(s, id);
    RemoveSized(cfg, awaiting, s, id);
    if id in s.idIndex {
      RemoveIndexed(s, id);
    }
  }

  lemma {:induction false} RemoveEachSturdy(cfg: Config, awaiting: set<string>, s: Server, ids: seq<Id>)
    requires Sturdy(cfg, s, awaiting)
    ensures Sturdy(cfg, RemoveEach(s, ids), awaiting)
  {
    if ids == [] {
    } else {
      RemoveEachSturdy(cfg, awaiting, s, ids[..|ids| - 1]);
      RemoveSturdy(cfg, awaiting, RemoveEach(s, ids[..|ids| - 1]), ids[|ids| - 1]);
    }
  }

  lemma {:induction false} RemoveEachMembers(s: Server, ids: seq<Id>)
    requires IndexedIsMember(s) && MemberIsIndexed(s)
    ensures IndexedIsMember(RemoveEach(s, ids)) && MemberIsIndexed(RemoveEach(s, ids))
  {
    if ids == [] {
    } else {
      var t, id := RemoveEach(s, ids[..|ids| - 1]), ids[|ids| - 1];
      RemoveEachMembers(s, ids[..|ids| - 1]);
      if id in t.idIndex {
        RemoveIndexed(t, id);
        RemoveMembers(t, id);
      }
    }
  }

  // ---------- heartbeats and mappings ----------

  lemma SetMemberSturdy(cfg: Config, awaiting: set<string>, s: Server, id: Id, m: Member)
    requires Sturdy(cfg, s, awaiting) && MemberAt(s, id).Some? && m.did == MemberAt(s, id).value.did
    ensures Sturdy(cfg, SetMember(s, id, m), awaiting)
  {
    var room := s.idIndex[id].room;
    assert OneMemberPerDevice(s.rooms[room]);
    assert OneMemberPerDevice(s.rooms[room][id := m]);
    SetMemberIndexed(s, id, m);
    SetMemberSized(cfg, awaiting, s, id, m);
  }

  lemma SetMemberIndexed(s: Server, id: Id, m: Member)
    requires MemberAt(s, id).Some?
    ensures IndexedIsMember(s) ==> IndexedIsMember(SetMember(s, id, m))
    ensures MemberIsIndexed(s) ==> MemberIsIndexed(SetMember(s, id, m))
  {
  }

  lemma SetMemberSized(cfg: Config, awaiting: set<string>, s: Server, id: Id, m: Member)
    requires RoomsSized(cfg, s, awaiting) && MemberAt(s, id).Some?
    ensures RoomsSized(cfg, SetMember(s, id, m), awaiting)
  {
    var room := s.idIndex[id].room;
    assert s.rooms[room][id := m].Keys == s.rooms[room].Keys;
    assert |s.rooms[room][id := m].Keys| == |s.rooms[room].Keys|;
  }

  lemma TouchKeeps(cfg: Config, awaiting: set<string>, s: Server, id: Id, now: int)
    ensures Sturdy(cfg, s, awaiting) ==> Sturdy(cfg, Touch(s, id, now), awaiting)
    ensures MemberIsIndexed(s) ==> MemberIsIndexed(Touch(s, id, now))
  {
    var m := MemberAt(s, id);
    if m.Some? {
      SetMemberIndexed(s, id, m.value.(lastHb := now));
      if Sturdy(cfg, s, awaiting) {
        SetMemberSturdy(cfg, awaiting, s, id, m.value.(lastHb := now));
      }
    }
  }

  lemma HeartbeatKeeps(cfg: Config, awaiting: set<string>, s: Server, id: Id, addr: Addr, now: int)
    ensures Sturdy(cfg, s, awaiting) ==> Sturdy(cfg, Heartbeat(s, id, addr, now), awaiting)
    ensures MemberIsIndexed(s) ==> MemberIsIndexed(Heartbeat(s, id, addr, now))
  {
    var m := MemberAt(s, id);
    if m.Some? {
      SetMemberIndexed(s, id, m.value.(lastHb := now, pub := addr));
      if Sturdy(cfg, s, awaiting) {
        SetMemberSturdy(cfg, awaiting, s, id, m.value.(lastHb := now, pub := addr));
      }
    }
  }

  /** Rooms and index the same, mappings still nested: nothing is lost. */
  lemma MappingChange(cfg: Config, awaiting: set<string>, s: Server, t: Server)
    requires MappingsNested(s) ==> MappingsNested(t)
    requires t.rooms == s.rooms && t.roomPwd == s.roomPwd && t.idIndex == s.idIndex
    ensures Sturdy(cfg, s, awaiting) ==> Sturdy(cfg, t, awaiting)
    ensures MemberIsIndexed(s) ==> MemberIsIndexed(t)
  {
  }

  lemma HelloKeeps(cfg: Config, awaiting: set<string>, s: Server, id: Id, addr: Addr, now: int)
    ensures Sturdy(cfg, s, awaiting) ==> Sturdy(cfg, UdpHello(s, id, addr, now), awaiting)
    ensures MemberIsIndexed(s) ==> MemberIsIndexed(UdpHello(s, id, addr, now))
  {
    if id != "" {
      var t := s.(udpMappings := s.udpMappings[id := addr]);
      assert UdpHello(s, id, addr, now) == Touch(t, id, now);
      MappingChange(cfg, awaiting, s, t);
      TouchKeeps(cfg, awaiting, t, id, now);
    }
  }

  lemma RegisterKeeps(cfg: Config, awaiting: set<string>, s: Server, id: Id, addr: Addr, sock: Sock, now: int)
    ensures Sturdy(cfg, s, awaiting) ==> Sturdy(cfg, TcpRegister(s, id, addr, sock, now), awaiting)
    ensures MemberIsIndexed(s) ==> MemberIsIndexed(TcpRegister(s, id, addr, sock, now))
  {
    if id != "" {
      var t := s.(tcpMappings := s.tcpMappings[id := addr], tcpTs := s.tcpTs[id := now],
                  tcpSocks := s.tcpSocks[id := sock]);
      assert TcpRegister(s, id, addr, sock, now) == Touch(t, id, now);
      MappingChange(cfg, awaiting, s, t);
      TouchKeeps(cfg, awaiting, t, id, now);
    }
  }

  lemma DropKeeps(cfg: Config, awaiting: set<string>, s: Server, id: Id, sock: Sock, now: int)
    ensures Sturdy(cfg, s, awaiting) ==> Sturdy(cfg, TcpDrop(s, id, sock, now), awaiting)
    ensures MemberIsIndexed(s) ==> MemberIsIndexed(TcpDrop(s, id, sock, now))
  {
    MappingChange(cfg, awaiting, s, TcpDrop(s, id, sock, now));
  }

  // ---------- cleaning up ----------

  /** The rooms without some members, and without those rooms that this empties. */
  function Trim(rooms: Rooms, ids: set<Id>): Rooms {
    map r | r in rooms && rooms[r] - ids != map[] :: rooms[r] - ids
  }

  /** The members leave all at once. */
  function RemoveAll(s: Server, ids: set<Id>): Server {
    var rooms := Trim(s.rooms, ids);
    Server(rooms, map r | r in s.roomPwd && r in rooms :: s.roomPwd[r],
           s.idIndex - ids, s.tcpMappings - ids, s.tcpSocks - ids, s.tcpTs - ids, s.udpMappings - ids)
  }

  predicate NoEmptyRoom(s: Server) {
    forall r :: r in s.rooms ==> s.rooms[r] != map[]
  }

  lemma SizedNotEmpty(cfg: Config, s: Server)
    requires RoomsSized(cfg, s, {})
    ensures NoEmptyRoom(s)
  {
  }

  lemma TrimNone(rooms: Rooms)
    requires forall r :: r in rooms ==> rooms[r] != map[]
    ensures Trim(rooms, {}) == rooms
  {
    forall r | r in rooms ensures r in Trim(rooms, {}) && Trim(rooms, {})[r] == rooms[r] {
      assert rooms[r] - {} == rooms[r];
    }
  }

  lemma RemoveNone(s: Server)
    requires RoomsMatchPasswords(s) && NoEmptyRoom(s)
    ensures RemoveAll(s, {}) == s
  {
    TrimNone(s.rooms);
    var t := RemoveAll(s, {});
    assert t.roomPwd == s.roomPwd;
    assert t.idIndex == s.idIndex && t.tcpMappings == s.tcpMappings && t.tcpSocks == s.tcpSocks;
    assert t.tcpTs == s.tcpTs && t.udpMappings == s.udpMappings;
  }

  lemma TrimOne(members: map<Id, Member>, ids: set<Id>, id: Id)
    ensures (members - ids) - {id} == members - (ids + {id})
    ensures id !in members ==> members - ids == members - (ids + {id})
  {
  }

  lemma TrimStep(rooms: Rooms, ids: set<Id>, room: string, id: Id)
    requires room in rooms && id in rooms[room] && id !in ids
    requires forall r :: r in rooms && r != room ==> id !in rooms[r]
    ensures room in Trim(rooms, ids)
    ensures DropMember(Trim(rooms, ids), room, id) == Trim(rooms, ids + {id})
  {
    var t := Trim(rooms, ids);
    assert id in rooms[room] - ids;
    TrimOne(rooms[room], ids, id);
    var u, v := DropMember(t, room, id), Trim(rooms, ids + {id});
    forall r ensures r in u <==> r in v {
      if r in rooms && r != room {
        TrimOne(rooms[r], ids, id);
      }
    }
    forall r | r in u ensures u[r] == v[r] {
      if r != room {
        TrimOne(rooms[r], ids, id);
      }
    }
  }

  lemma RemovedPasswords(s: Server, ids: set<Id>, id: Id)
    requires id in s.idIndex && id !in ids
    requires var room := s.idIndex[id].room;
      room in s.rooms && DropMember(Trim(s.rooms, ids), room, id) == Trim(s.rooms, ids + {id})
    ensures Remove(RemoveAll(s, ids), id).roomPwd == RemoveAll(s, ids + {id}).roomPwd
  {
    assert RemoveAll(s, ids).idIndex[id] == s.idIndex[id];
  }

  lemma RemovedTables(s: Server, ids: set<Id>, id: Id)
    requires id in s.idIndex && id !in ids
    ensures var u, v := Remove(RemoveAll(s, ids), id), RemoveAll(s, ids + {id});
      && u.idIndex == v.idIndex && u.tcpMappings == v.tcpMappings && u.tcpSocks == v.tcpSocks
      && u.tcpTs == v.tcpTs && u.udpMappings == v.udpMappings
  {
    assert id in RemoveAll(s, ids).idIndex;
  }

  /** Removing members one at a time, in any order, is removing them at once. */
  lemma RemoveAllStep(s: Server, ids: set<Id>, id: Id)
    requires IndexedIsMember(s) && MemberIsIndexed(s) && id in s.idIndex && id !in ids
    ensures Remove(RemoveAll(s, ids), id) == RemoveAll(s, ids + {id})
  {
    var room := s.idIndex[id].room;
    TrimStep(s.rooms, ids, room, id);
    assert RemoveAll(s, ids).idIndex[id].room == room;
    RemovedPasswords(s, ids, id);
    RemovedTables(s, ids, id);
  }

  /** In whatever order members leave one by one, they are gone as if at once. */
  lemma {:induction false} RemoveEachIsAll(s: Server, ids: seq<Id>, all: set<Id>)
    requires RoomsMatchPasswords(s) && NoEmptyRoom(s) && IndexedIsMember(s) && MemberIsIndexed(s)
    requires Enumerates(ids, all) && forall id :: id in ids ==> id in s.idIndex
    ensures RemoveEach(s, ids) == RemoveAll(s, all)
  {
    if ids == [] {
      assert all == {};
      RemoveNone(s);
    } else {
      var front, id := ids[..|ids| - 1], ids[|ids| - 1];
      assert ids == front + [id];
      var rest := all - {id};
      assert rest + {id} == all;
      assert forall k :: k in front ==> k != id;
      RemoveEachIsAll(s, front, rest);
      RemoveAllStep(s, rest, id);
    }
  }

  lemma ExpireKeeps(cfg: Config, awaiting: set<string>, s: Server, now: int)
    ensures Sturdy(cfg, s, awaiting) ==> Sturdy(cfg, Expire(s, now), awaiting)
    ensures MemberIsIndexed(s) ==> MemberIsIndexed(Expire(s, now))
  {
    MappingChange(cfg, awaiting, s, Expire(s, now));
  }

  lemma StaleMember(s: Server, deadline: int, r: string, id: Id)
    requires MemberIsIndexed(s) && r in s.rooms && id in s.rooms[r]
    ensures id in Stale(s, deadline) <==> s.rooms[r][id].lastHb < deadline
  {
    assert MemberAt(s, id) == Some(s.rooms[r][id]);
  }

  /** A cleaning pass removes exactly the members not heard of since the deadline, and
      changes no other member. */
  lemma CleaningExact(cfg: Config, s: Server, stale: seq<Id>, deadline: int, now: int, r: string, id: Id)
    requires Consistent(cfg, s) && Enumerates(stale, Stale(s, deadline))
    ensures var t := CleaningPass(s, stale, now);
      && ((r in t.rooms && id in t.rooms[r])
          <==> (r in s.rooms && id in s.rooms[r] && s.rooms[r][id].lastHb >= deadline))
      && (r in t.rooms && id in t.rooms[r] ==> t.rooms[r][id] == s.rooms[r][id])
  {
    SizedNotEmpty(cfg, s);
    RemoveEachIsAll(s, stale, Stale(s, deadline));
    TrimExact(s, deadline, r, id);
  }

  lemma TrimExact(s: Server, deadline: int, r: string, id: Id)
    requires MemberIsIndexed(s)
    ensures var t := Trim(s.rooms, Stale(s, deadline));
      && ((r in t && id in t[r]) <==> (r in s.rooms && id in s.rooms[r] && s.rooms[r][id].lastHb >= deadline))
      && (r in t && id in t[r] ==> t[r][id] == s.rooms[r][id])
  {
    if r in s.rooms && id in s.rooms[r] {
      StaleMember(s, deadline, r, id);
      assert id !in Stale(s, deadline) ==> id in s.rooms[r] - Stale(s, deadline);
    }
  }

  /** Whatever the state, members that leave take their mappings with them and no others. */
  lemma {:induction false} RemoveEachTables(s: Server, ids: seq<Id>, id: Id)
    requires forall k :: k in ids ==> k in s.idIndex
    requires forall i, j :: 0 <= i < j < |ids| ==> ids[i] != ids[j]
    ensures var t := RemoveEach(s, ids);
      && (id in t.idIndex <==> id in s.idIndex && id !in ids)
      && (id in t.tcpMappings <==> id in s.tcpMappings && id !in ids)
      && (id in t.tcpSocks <==> id in s.tcpSocks && id !in ids)
      && (id in t.tcpTs <==> id in s.tcpTs && id !in ids)
      && (id in t.tcpTs ==> t.tcpTs[id] == s.tcpTs[id])
  {
    if ids == [] {
    } else {
      var front, last := ids[..|ids| - 1], ids[|ids| - 1];
      RemoveEachTables(s, front, id);
      RemoveEachTables(s, front, last);
      assert id in ids <==> id in front || id == last;
    }
  }

  /** Of nested mapping tables a cleaning pass leaves no mapping without a connection that is
      older than the grace period, and of the members that stay it drops only such mappings. */
  lemma CleaningMappings(s: Server, stale: seq<Id>, deadline: int, now: int, id: Id)
    requires MappingsNested(s) && Enumerates(stale, Stale(s, deadline))
    ensures var t := CleaningPass(s, stale, now);
      && (id in t.tcpMappings ==> id in t.tcpTs && (id in t.tcpSocks || now - t.tcpTs[id] <= TCP_MAPPING_GRACE_MS))
      && (id in s.tcpMappings && id !in stale && id !in t.tcpMappings
          ==> id !in s.tcpSocks && now - s.tcpTs[id] > TCP_MAPPING_GRACE_MS)
  {
    RemoveEachTables(s, stale, id);
  }

  // ---------- restarting ----------

  /** A restart restores rooms, members, index and passwords; only the heartbeat times are
      new and the connections gone. */
  lemma RestartRestores(s: Server, now: int)
    requires RoomsMatchPasswords(s)
    ensures var t := Load(Save(s), now);
      && t.idIndex == s.idIndex && t.roomPwd == s.roomPwd
      && (forall r :: r in t.rooms <==> r in s.rooms)
      && (forall r, m :: r in s.rooms ==> (m in t.rooms[r] <==> m in s.rooms[r]))
      && (forall r, m :: r in s.rooms && m in s.rooms[r] ==> t.rooms[r][m] == s.rooms[r][m].(lastHb := now))
  {
    assert Load(Save(s), now).roomPwd == s.roomPwd;
  }

  lemma RestartSized(cfg: Config, awaiting: set<string>, s: Server, now: int)
    requires RoomsSized(cfg, s, awaiting)
    ensures RoomsSized(cfg, Load(Save(s), now), awaiting)
  {
    RestartSizes(s, now);
  }

  lemma RestartSizes(s: Server, now: int)
    ensures var t := Load(Save(s), now); forall r :: r in t.rooms ==> r in s.rooms && |t.rooms[r]| == |s.rooms[r]|
  {
    var t := Load(Save(s), now);
    forall r | r in t.rooms ensures |t.rooms[r]| == |s.rooms[r]| {
      assert t.rooms[r].Keys == s.rooms[r].Keys;
      assert |t.rooms[r].Keys| == |s.rooms[r].Keys|;
    }
  }

  lemma RestartSturdy(cfg: Config, awaiting: set<string>, s: Server, now: int)
    requires Sturdy(cfg, s, awaiting)
    ensures Sturdy(cfg, Load(Save(s), now), awaiting)
  {
    RestartKeeps(s, now);
    RestartSized(cfg, awaiting, s, now);
  }

  lemma RestartKeeps(s: Server, now: int)
    requires RoomsMatchPasswords(s) && DevicesDistinct(s) && IndexedIsMember(s)
    ensures var t := Load(Save(s), now);
      RoomsMatchPasswords(t) && DevicesDistinct(t) && IndexedIsMember(t) && MappingsNested(t)
  {
    RestartRestores(s, now);
    RestartParts(s, Load(Save(s), now), now);
  }

  lemma RestartParts(s: Server, t: Server, now: int)
    requires RoomsMatchPasswords(s) && DevicesDistinct(s) && IndexedIsMember(s)
    requires t.idIndex == s.idIndex && t.roomPwd == s.roomPwd && t.tcpSocks == map[] && t.tcpMappings == map[]
    requires forall r :: r in t.rooms <==> r in s.rooms
    requires forall r, m :: r in s.rooms ==> (m in t.rooms[r] <==> m in s.rooms[r])
    requires forall r, m :: r in s.rooms && m in s.rooms[r] ==> t.rooms[r][m] == s.rooms[r][m].(lastHb := now)
    ensures RoomsMatchPasswords(t) && DevicesDistinct(t) && IndexedIsMember(t) && MappingsNested(t)
  {
    RestartDevices(s, t);
    RestartIndexed(s, t);
    RestartMatched(s, t);
  }

  lemma RestartMatched(s: Server, t: Server)
    requires RoomsMatchPasswords(s) && t.roomPwd == s.roomPwd && t.tcpSocks == map[] && t.tcpMappings == map[]
    requires forall r :: r in t.rooms <==> r in s.rooms
    ensures RoomsMatchPasswords(t) && MappingsNested(t)
  {
  }

  lemma RestartDevices(s: Server, t: Server)
    requires DevicesDistinct(s)
    requires forall r :: r in t.rooms <==> r in s.rooms
    requires forall r, m :: r in s.rooms ==> (m in t.rooms[r] <==> m in s.rooms[r])
    requires forall r, m :: r in s.rooms && m in s.rooms[r] ==> t.rooms[r][m].did == s.rooms[r][m].did
    ensures DevicesDistinct(t)
  {
    forall r | r in t.rooms ensures OneMemberPerDevice(t.rooms[r]) {
      assert OneMemberPerDevice(s.rooms[r]);
    }
  }

  lemma RestartIndexed(s: Server, t: Server)
    requires t.idIndex == s.idIndex
    requires forall r :: r in t.rooms <==> r in s.rooms
    requires forall r, m :: r in s.rooms ==> (m in t.rooms[r] <==> m in s.rooms[r])
    ensures IndexedIsMember(s) ==> IndexedIsMember(t)
    ensures MemberIsIndexed(s) ==> MemberIsIndexed(t)
  {
  }
}
