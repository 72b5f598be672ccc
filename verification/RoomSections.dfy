/** The two locked sections of a join as two events, with whatever other handlers do in
    between.  The first section leaves the thread with the room's dictionary in hand; if the
    room is destroyed before the second one, the newcomer enters a dictionary that no table
    refers to any more, together with whoever else still holds it. */
module RoomSections {
  import opened Basics
  import opened RoomState
  import opened RoomSafety
  import opened RoomRuns

  /** A join between its sections; its dictionary is the room's, or lost with the room at some
      moment. */
  datatype Door = Door(req: JoinRequest, lost: Option<nat>)

  /** The server, the joins between their sections, the number of events so far, and what the
      lost dictionaries hold: those of a room lost at a moment are one, empty unless recorded. */
  datatype Hall = Hall(server: Server, doors: map<nat, Door>, clock: nat, adrift: map<(nat, string), map<Id, Member>>)

  /** What the second section of a join sees as its room's members. */
  function MembersSeen(h: Hall, d: Door): map<Id, Member> {
    match d.lost
    case None => MembersMet(h.server, d.req)
    case Some(moment) => if (moment, d.req.room) in h.adrift then h.adrift[(moment, d.req.room)] else map[]
  }

  datatype Event =
    | Opening(n: nat, req: JoinRequest)
    | Entering(n: nat, addr: Addr, now: int, given: Option<Id>, newId: Id)
    | Between(change: Change)

  /** The server as it would be if members were those of the room. */
  function Seen(s: Server, room: string, members: map<Id, Member>): Server {
    s.(rooms := s.rooms[room := members],
       roomPwd := s.roomPwd[room := if room in s.roomPwd then s.roomPwd[room] else None])
  }

  /** The second section on a lost dictionary: the server's rooms stay as they are. */
  function EnterLost(cfg: Config, s: Server, members: map<Id, Member>, req: JoinRequest, addr: Addr, now: int,
      id: Option<Id>, newId: Id): (Server, map<Id, Member>)
  {
    var (t, o) := Enter(cfg, Seen(s, req.room, members), req, addr, now, id, newId);
    (t.(rooms := s.rooms, roomPwd := s.roomPwd), if req.room in t.rooms then t.rooms[req.room] else members)
  }

  predicate Possible(cfg: Config, h: Hall, e: Event) {
    var s := h.server;
    match e
    case Opening(n, req) => n !in h.doors && (req.room in s.rooms ==> req.room in s.roomPwd)
    case Entering(n, _, _, given, _) =>
      n in h.doors && var d := h.doors[n];
      MayGet(MembersSeen(h, d), d.req, given) && (d.lost.None? ==> d.req.room in s.rooms && d.req.room in s.roomPwd)
    case Between(c) => !c.Joining? && Allowed(s, c)
  }

  /** Whose room has just been destroyed has lost its dictionary. */
  function Watch(doors: map<nat, Door>, s: Server, moment: nat): map<nat, Door> {
    map n | n in doors :: if doors[n].req.room in s.rooms || doors[n].lost.Some? then doors[n]
                          else doors[n].(lost := Some(moment))
  }

  function NextServer(cfg: Config, h: Hall, e: Event): Server
    requires Possible(cfg, h, e)
  {
    var s := h.server;
    match e
    case Opening(_, req) => if Gate(cfg, s, req).Some? then s else Opened(cfg, s, req)
    case Entering(n, addr, now, given, newId) =>
      var d := h.doors[n];
      if d.lost.None? then Enter(cfg, s, d.req, addr, now, given, newId).0
      else EnterLost(cfg, s, MembersSeen(h, d), d.req, addr, now, given, newId).0
    case Between(c) => Apply(cfg, s, c)
  }

  function NextDoors(cfg: Config, h: Hall, e: Event): map<nat, Door>
    requires Possible(cfg, h, e)
  {
    match e
    case Opening(n, req) => if Gate(cfg, h.server, req).Some? then h.doors else h.doors[n := Door(req, None)]
    case Entering(n, _, _, _, _) => h.doors - {n}
    case Between(_) => h.doors
  }

  function NextAdrift(cfg: Config, h: Hall, e: Event): map<(nat, string), map<Id, Member>>
    requires Possible(cfg, h, e)
  {
    if e.Entering? && h.doors[e.n].lost.Some? then
      var d := h.doors[e.n];
      h.adrift[(d.lost.value, d.req.room) :=
                 EnterLost(cfg, h.server, MembersSeen(h, d), d.req, e.addr, e.now, e.given, e.newId).1]
    else h.adrift
  }

  function Step(cfg: Config, h: Hall, e: Event): Hall
    requires Possible(cfg, h, e)
  {
    var s := NextServer(cfg, h, e);
    Hall(s, Watch(NextDoors(cfg, h, e), s, h.clock), h.clock + 1, NextAdrift(cfg, h, e))
  }

  predicate Legal(cfg: Config, h: Hall, run: seq<Event>)
    decreases |run|
  {
    run == [] || (Possible(cfg, h, run[0]) && Legal(cfg, Step(cfg, h, run[0]), run[1..]))
  }

  function Run(cfg: Config, h: Hall, run: seq<Event>): Hall
    requires Legal(cfg, h, run)
    decreases |run|
  {
    if run == [] then h else Run(cfg, Step(cfg, h, run[0]), run[1..])
  }

  // ---------- what every event keeps ----------

  /** The rooms that a join has opened and still holds. */
  function Awaiting(doors: map<nat, Door>): set<string> {
    set n | n in doors && doors[n].lost.None? :: doors[n].req.room
  }

  predicate DoorsOpenOnto(h: Hall) {
    forall n :: n in h.doors && h.doors[n].lost.None? ==> h.doors[n].req.room in h.server.rooms
  }

  /** The index is exact, and the server sturdy but for rooms just created. */
  ghost predicate Linked(cfg: Config, h: Hall) {
    Sturdy(cfg, h.server, Awaiting(h.doors)) && MemberIsIndexed(h.server) && DoorsOpenOnto(h)
  }

  lemma SturdyWith(cfg: Config, s: Server, awaiting: set<string>, others: set<string>)
    requires Sturdy(cfg, s, awaiting) && forall r :: r in awaiting ==> r in others || r !in s.rooms
    ensures Sturdy(cfg, s, others)
  {
  }

  /** What becomes of a sturdy server's doors when they are watched. */
  lemma WatchedLinked(cfg: Config, h: Hall, awaiting: set<string>, doors: map<nat, Door>, moment: nat)
    requires Sturdy(cfg, h.server, awaiting) && MemberIsIndexed(h.server)
    requires forall r :: r in awaiting ==> r in Awaiting(doors) || r !in h.server.rooms
    requires h.doors == Watch(doors, h.server, moment)
    ensures Linked(cfg, h)
  {
    var s, watched := h.server, h.doors;
    forall r | r in awaiting ensures r in Awaiting(watched) || r !in s.rooms {
      if r in s.rooms {
        var n :| n in doors && doors[n].lost.None? && doors[n].req.room == r;
        assert watched[n].lost.None? && watched[n].req.room == r;
      }
    }
    SturdyWith(cfg, s, awaiting, Awaiting(watched));
  }

  lemma OpeningKeeps(cfg: Config, h: Hall, n: nat, req: JoinRequest)
    requires cfg.maxRoomSize >= 1 && Linked(cfg, h) && Possible(cfg, h, Opening(n, req))
    ensures Linked(cfg, Step(cfg, h, Opening(n, req)))
  {
    var s, e := h.server, Opening(n, req);
    if Gate(cfg, s, req).Some? {
      WatchedLinked(cfg, Step(cfg, h, e), Awaiting(h.doors), h.doors, h.clock);
    } else {
      OpenedSturdy(cfg, Awaiting(h.doors), s, req);
      OpenedDoors(h.doors, n, req);
      WatchedLinked(cfg, Step(cfg, h, e), Awaiting(h.doors) + {req.room}, NextDoors(cfg, h, e), h.clock);
    }
  }

  lemma OpenedDoors(doors: map<nat, Door>, n: nat, req: JoinRequest)
    requires n !in doors
    ensures forall r :: r in Awaiting(doors) + {req.room} ==> r in Awaiting(doors[n := Door(req, None)])
  {
    var more := doors[n := Door(req, None)];
    forall r | r in Awaiting(doors) + {req.room} ensures r in Awaiting(more) {
      if r == req.room {
        assert more[n].lost.None? && more[n].req.room == r;
      } else {
        var k :| k in doors && doors[k].lost.None? && doors[k].req.room == r;
        assert more[k].lost.None? && more[k].req.room == r;
      }
    }
  }

  lemma BetweenKeeps(cfg: Config, h: Hall, c: Change)
    requires cfg.maxRoomSize >= 1 && Linked(cfg, h) && Possible(cfg, h, Between(c))
    ensures Linked(cfg, Step(cfg, h, Between(c)))
  {
    ApplySturdy(cfg, Awaiting(h.doors), h.server, c);
    ApplyMembers(cfg, h.server, c);
    WatchedLinked(cfg, Step(cfg, h, Between(c)), Awaiting(h.doors), h.doors, h.clock);
  }

  // ---------- the second section ----------

  /** What decides whether the second section leaves the index exact.  With its room still
      there: whether it takes a place under an id of another room.  With the room gone: whether
      the id has in the meantime become a member of a room created anew under that name, unless
      there is no place for it; and whether the device's other members in the lost dictionary,
      which leave the index, have become members of any room, unless it is that id. */
  predicate Good(cfg: Config, h: Hall, e: Event)
    requires Possible(cfg, h, e)
  {
    match e
    case Entering(n, _, _, given, newId) =>
      var s, d := h.server, h.doors[n];
      if d.lost.None? then !(HasPlace(cfg, s, d.req, given, newId) && TakesForeignId(s, d.req, given, newId))
      else GoodLost(cfg, s, MembersSeen(h, d), d.req, given, newId)
    case _ => true
  }

  predicate GoodLost(cfg: Config, s: Server, members: map<Id, Member>, req: JoinRequest, given: Option<Id>, newId: Id) {
    var myId, seated := GivenId(given, newId), HasPlace(cfg, Seen(s, req.room, members), req, given, newId);
    && (seated ==> req.room in s.rooms && myId in s.rooms[req.room])
    && (forall k :: k in Duplicates(members, req.did, given) && k in s.idIndex ==> seated && k == myId)
  }

  lemma DoorLeft(doors: map<nat, Door>, n: nat, r: string)
    requires n in doors && r in Awaiting(doors)
    ensures r in Awaiting(doors - {n}) || r == doors[n].req.room
  {
    var k :| k in doors && doors[k].lost.None? && doors[k].req.room == r;
    if k != n {
      assert k in doors - {n};
    }
  }

  lemma EnteringOpen(cfg: Config, h: Hall, n: nat, addr: Addr, now: int, given: Option<Id>, newId: Id)
    requires cfg.maxRoomSize >= 1 && Linked(cfg, h)
    requires var e := Entering(n, addr, now, given, newId); Possible(cfg, h, e) && h.doors[n].lost.None?
    ensures var e := Entering(n, addr, now, given, newId); Linked(cfg, Step(cfg, h, e)) <==> Good(cfg, h, e)
  {
    var s, d := h.server, h.doors[n];
    var awaiting := Awaiting(h.doors - {n});
    forall r | r in Awaiting(h.doors) ensures r in awaiting + {d.req.room} {
      DoorLeft(h.doors, n, r);
    }
    SturdyWith(cfg, s, Awaiting(h.doors), awaiting + {d.req.room});
    EnterSturdy(cfg, awaiting, s, d.req, addr, now, given, newId);
    EnterExact(cfg, s, d.req, addr, now, given, newId);
    var t := Enter(cfg, s, d.req, addr, now, given, newId).0;
    if MemberIsIndexed(t) {
      WatchedLinked(cfg, Step(cfg, h, Entering(n, addr, now, given, newId)), awaiting, h.doors - {n}, h.clock);
    }
  }

  /** What the index becomes when an id enters a lost dictionary. */
  ghost predicate IndexAfter(s: Server, t: Server, dups: set<Id>, seated: bool, myId: Id, place: Place) {
    t.rooms == s.rooms && t.idIndex == if seated then (s.idIndex - dups)[myId := place] else s.idIndex - dups
  }

  lemma LostIndex(cfg: Config, s: Server, members: map<Id, Member>, req: JoinRequest, addr: Addr, now: int,
      id: Option<Id>, newId: Id)
    ensures IndexAfter(s, EnterLost(cfg, s, members, req, addr, now, id, newId).0, Duplicates(members, req.did, id),
                       HasPlace(cfg, Seen(s, req.room, members), req, id, newId), GivenId(id, newId),
                       Place(req.room, addr))
  {
    var u := Seen(s, req.room, members);
    EnterMeaning(cfg, u, req, addr, now, id, newId);
    assert MembersMet(u, req) == members && u.rooms[req.room] == members && u.idIndex == s.idIndex;
  }

  lemma LostBreaks(s: Server, t: Server, dups: set<Id>, seated: bool, myId: Id, place: Place)
    requires IndexedIsMember(s) && MemberIsIndexed(s) && IndexAfter(s, t, dups, seated, myId, place)
    requires IndexedIsMember(t) && MemberIsIndexed(t)
    ensures seated ==> place.room in s.rooms && myId in s.rooms[place.room]
    ensures forall k :: k in dups && k in s.idIndex ==> seated && k == myId
  {
    if seated {
      assert myId in t.idIndex;
    }
    forall k | k in dups && k in s.idIndex ensures seated && k == myId {
      var r := s.idIndex[k].room;
      assert r in t.rooms && k in t.rooms[r];
      assert k in t.idIndex;
    }
  }

  lemma LostKeeps(s: Server, t: Server, dups: set<Id>, seated: bool, myId: Id, place: Place)
    requires IndexedIsMember(s) && MemberIsIndexed(s) && IndexAfter(s, t, dups, seated, myId, place)
    requires seated ==> place.room in s.rooms && myId in s.rooms[place.room]
    requires forall k :: k in dups && k in s.idIndex ==> seated && k == myId
    ensures IndexedIsMember(t) && MemberIsIndexed(t)
  {
    forall k | k in t.idIndex ensures t.idIndex[k].room in t.rooms && k in t.rooms[t.idIndex[k].room] {
      assert (seated && k == myId) || (k in s.idIndex && t.idIndex[k] == s.idIndex[k]);
    }
    forall r, k | r in t.rooms && k in t.rooms[r] ensures k in t.idIndex && t.idIndex[k].room == r {
      assert k in s.idIndex && s.idIndex[k].room == r;
    }
  }

  lemma LostExact(cfg: Config, s: Server, members: map<Id, Member>, req: JoinRequest, addr: Addr, now: int,
      id: Option<Id>, newId: Id)
    requires IndexedIsMember(s) && MemberIsIndexed(s)
    ensures var t := EnterLost(cfg, s, members, req, addr, now, id, newId).0;
      IndexedIsMember(t) && MemberIsIndexed(t) <==> GoodLost(cfg, s, members, req, id, newId)
  {
    var t := EnterLost(cfg, s, members, req, addr, now, id, newId).0;
    var dups, myId := Duplicates(members, req.did, id), GivenId(id, newId);
    var seated := HasPlace(cfg, Seen(s, req.room, members), req, id, newId);
    LostIndex(cfg, s, members, req, addr, now, id, newId);
    if GoodLost(cfg, s, members, req, id, newId) {
      LostKeeps(s, t, dups, seated, myId, Place(req.room, addr));
    } else if IndexedIsMember(t) && MemberIsIndexed(t) {
      LostBreaks(s, t, dups, seated, myId, Place(req.room, addr));
    }
  }

  lemma LostTables(cfg: Config, s: Server, members: map<Id, Member>, req: JoinRequest, addr: Addr, now: int,
      id: Option<Id>, newId: Id)
    requires MappingsNested(s)
    ensures var t := EnterLost(cfg, s, members, req, addr, now, id, newId).0;
      MappingsNested(t) && t.rooms == s.rooms && t.roomPwd == s.roomPwd
  {
    EnterMappings(cfg, Seen(s, req.room, members), req, addr, now, id, newId);
  }

  lemma LostSturdy(cfg: Config, awaiting: set<string>, s: Server, t: Server)
    requires Sturdy(cfg, s, awaiting) && t.rooms == s.rooms && t.roomPwd == s.roomPwd
    requires MappingsNested(t) && IndexedIsMember(t)
    ensures Sturdy(cfg, t, awaiting)
  {
  }

  lemma LostDoorGone(doors: map<nat, Door>, n: nat)
    requires n in doors && doors[n].lost.Some?
    ensures forall r :: r in Awaiting(doors) ==> r in Awaiting(doors - {n})
  {
    forall r | r in Awaiting(doors) ensures r in Awaiting(doors - {n}) {
      var k :| k in doors && doors[k].lost.None? && doors[k].req.room == r;
      assert k in doors - {n};
    }
  }

  lemma EnteringLost(cfg: Config, h: Hall, n: nat, addr: Addr, now: int, given: Option<Id>, newId: Id)
    requires cfg.maxRoomSize >= 1 && Linked(cfg, h)
    requires var e := Entering(n, addr, now, given, newId); Possible(cfg, h, e) && h.doors[n].lost.Some?
    ensures var e := Entering(n, addr, now, given, newId); Linked(cfg, Step(cfg, h, e)) <==> Good(cfg, h, e)
  {
    var s, d, e := h.server, h.doors[n], Entering(n, addr, now, given, newId);
    var t := EnterLost(cfg, s, MembersSeen(h, d), d.req, addr, now, given, newId).0;
    LostExact(cfg, s, MembersSeen(h, d), d.req, addr, now, given, newId);
    LostTables(cfg, s, MembersSeen(h, d), d.req, addr, now, given, newId);
    if Good(cfg, h, e) {
      LostSturdy(cfg, Awaiting(h.doors), s, t);
      LostDoorGone(h.doors, n);
      WatchedLinked(cfg, Step(cfg, h, e), Awaiting(h.doors), h.doors - {n}, h.clock);
    }
  }

  /** The exact condition under which the second section keeps the tables linked. */
  lemma EnteringExact(cfg: Config, h: Hall, n: nat, addr: Addr, now: int, given: Option<Id>, newId: Id)
    requires cfg.maxRoomSize >= 1 && Linked(cfg, h) && Possible(cfg, h, Entering(n, addr, now, given, newId))
    ensures var e := Entering(n, addr, now, given, newId); Linked(cfg, Step(cfg, h, e)) <==> Good(cfg, h, e)
  {
    if h.doors[n].lost.None? {
      EnteringOpen(cfg, h, n, addr, now, given, newId);
    } else {
      EnteringLost(cfg, h, n, addr, now, given, newId);
    }
  }

  lemma StepLinked(cfg: Config, h: Hall, e: Event)
    requires cfg.maxRoomSize >= 1 && Linked(cfg, h) && Possible(cfg, h, e)
    ensures Linked(cfg, Step(cfg, h, e)) <==> Good(cfg, h, e)
  {
    match e
    case Opening(n, req) => OpeningKeeps(cfg, h, n, req);
    case Entering(n, addr, now, given, newId) => EnteringExact(cfg, h, n, addr, now, given, newId);
    case Between(c) => BetweenKeeps(cfg, h, c);
  }

  predicate AllGood(cfg: Config, h: Hall, run: seq<Event>)
    requires Legal(cfg, h, run)
    decreases |run|
  {
    run == [] || (Good(cfg, h, run[0]) && AllGood(cfg, Step(cfg, h, run[0]), run[1..]))
  }

  /** In every interleaving of sections and handlers in which each second section meets that
      condition, the tables stay linked. */
  lemma {:induction false} InterleavedLinked(cfg: Config, h: Hall, run: seq<Event>)
    requires cfg.maxRoomSize >= 1 && Linked(cfg, h) && Legal(cfg, h, run) && AllGood(cfg, h, run)
    ensures Linked(cfg, Run(cfg, h, run))
    decreases |run|
  {
    if run == [] {
    } else {
      StepLinked(cfg, h, run[0]);
      InterleavedLinked(cfg, Step(cfg, h, run[0]), run[1..]);
    }
  }

  // ---------- when the room is still there ----------

  function Leavers(e: Event): set<Id> {
    if e.Between? && e.change.Leaving? then {e.change.id}
    else if e.Between? && e.change.Cleaning? then set id | id in e.change.stale
    else {}
  }

  /** The event takes a room's last members away. */
  predicate Empties(s: Server, e: Event, room: string) {
    room in s.rooms && s.rooms[room] != map[] && s.rooms[room].Keys <= Leavers(e)
  }

  lemma RemoveRoom(s: Server, id: Id, room: string)
    requires IndexedIsMember(s) && MemberIsIndexed(s) && id in s.idIndex
    ensures room in Remove(s, id).rooms <==>
      room in s.rooms && (s.rooms[room] == map[] || s.rooms[room] - {id} != map[])
    ensures room in Remove(s, id).rooms ==> Remove(s, id).rooms[room] == s.rooms[room] - {id}
  {
    if room in s.rooms && s.idIndex[id].room != room {
      assert id !in s.rooms[room];
      assert s.rooms[room] - {id} == s.rooms[room];
    }
  }

  /** What is left of a room with members m when some ids have left it. */
  ghost predicate Reduced(s: Server, room: string, m: map<Id, Member>, ids: set<Id>) {
    && (room in s.rooms <==> m == map[] || m - ids != map[])
    && (room in s.rooms ==> s.rooms[room] == m - ids)
  }

  lemma ReducedNext(s: Server, room: string, m: map<Id, Member>, ids: set<Id>, id: Id)
    requires IndexedIsMember(s) && MemberIsIndexed(s) && id in s.idIndex && Reduced(s, room, m, ids)
    ensures Reduced(Remove(s, id), room, m, ids + {id})
  {
    RemoveRoom(s, id, room);
    OneMoreGone(m, ids, id);
  }

  lemma {:induction false} RemoveEachRoom(s: Server, ids: seq<Id>, room: string)
    requires IndexedIsMember(s) && MemberIsIndexed(s) && room in s.rooms
    requires forall id :: id in ids ==> id in s.idIndex
    requires forall i, j :: 0 <= i < j < |ids| ==> ids[i] != ids[j]
    ensures Reduced(RemoveEach(s, ids), room, s.rooms[room], set id | id in ids)
  {
    if ids != [] {
      var front, id := ids[..|ids| - 1], ids[|ids| - 1];
      var before := set k | k in front;
      assert ids == front + [id] && (set k | k in ids) == before + {id};
      RemoveEachRoom(s, front, room);
      RemoveEachMembers(s, front);
      RemoveEachTables(s, front, id);
      ReducedNext(RemoveEach(s, front), room, s.rooms[room], before, id);
    } else {
      assert s.rooms[room] - (set id | id in ids) == s.rooms[room];
    }
  }

  lemma OneMoreGone(m: map<Id, Member>, ids: set<Id>, id: Id)
    ensures (m - ids) - {id} == m - (ids + {id})
    ensures m - (ids + {id}) != map[] ==> m - ids != map[]
    ensures m != map[] && m - ids == map[] ==> m - (ids + {id}) == map[]
  {
  }

  lemma KeysGone(m: map<Id, Member>, ids: set<Id>)
    ensures m - ids == map[] <==> m.Keys <= ids
  {
    if m - ids == map[] {
      assert forall k :: k in m && k !in ids ==> k in m - ids;
    } else {
      assert exists k :: k in m - ids;
    }
  }

  /** An event destroys a room if and only if it takes its last members away. */
  lemma DestroysExact(cfg: Config, h: Hall, e: Event, room: string)
    requires Linked(cfg, h) && Possible(cfg, h, e) && room in h.server.rooms
    ensures room !in NextServer(cfg, h, e).rooms <==> Empties(h.server, e, room)
  {
    var s := h.server;
    match e
    case Opening(_, _) =>
    case Entering(n, addr, now, given, newId) => EnteringDestroysNothing(cfg, h, n, addr, now, given, newId, room);
    case Between(c) => ChangeDestroys(cfg, s, c, room);
  }

  lemma EnteringDestroysNothing(cfg: Config, h: Hall, n: nat, addr: Addr, now: int, given: Option<Id>, newId: Id,
      room: string)
    requires MappingsNested(h.server) && Possible(cfg, h, Entering(n, addr, now, given, newId))
    requires room in h.server.rooms
    ensures room in NextServer(cfg, h, Entering(n, addr, now, given, newId)).rooms
  {
    var d := h.doors[n];
    if d.lost.None? {
      EnterMeaning(cfg, h.server, d.req, addr, now, given, newId);
    } else {
      LostTables(cfg, h.server, MembersSeen(h, d), d.req, addr, now, given, newId);
    }
  }

  lemma ChangeDestroys(cfg: Config, s: Server, c: Change, room: string)
    requires IndexedIsMember(s) && MemberIsIndexed(s) && Allowed(s, c) && !c.Joining? && room in s.rooms
    ensures room !in Apply(cfg, s, c).rooms <==> Empties(s, Between(c), room)
  {
    match c
    case Leaving(id) =>
      KeysGone(s.rooms[room], {id});
      if id in s.idIndex {
        RemoveRoom(s, id, room);
      } else {
        assert id !in s.rooms[room];
      }
    case Cleaning(stale, _, now) =>
      KeysGone(s.rooms[room], set id | id in stale);
      RemoveEachRoom(s, stale, room);
    case Beating(_, _, _) =>
    case Hello(_, _, _) =>
    case Registering(_, _, _, _) =>
    case Dropping(_, _, _) =>
  }

  /** At some point of a run a room's last members are taken away. */
  predicate Emptied(cfg: Config, h: Hall, run: seq<Event>, room: string)
    requires Legal(cfg, h, run)
    decreases |run|
  {
    run != [] && (Empties(h.server, run[0], room) || Emptied(cfg, Step(cfg, h, run[0]), run[1..], room))
  }

  predicate NeverEnters(run: seq<Event>, n: nat) {
    forall e :: e in run ==> !(e.Entering? && e.n == n)
  }

  lemma StillWaits(cfg: Config, h: Hall, e: Event, n: nat)
    requires Possible(cfg, h, e) && n in h.doors && !(e.Entering? && e.n == n)
    ensures var t := Step(cfg, h, e);
      && n in t.doors && t.doors[n].req == h.doors[n].req
      && (t.doors[n].lost.None? <==> h.doors[n].lost.None? && h.doors[n].req.room in NextServer(cfg, h, e).rooms)
  {
  }

  lemma StillOpen(cfg: Config, h: Hall, e: Event, n: nat)
    requires Linked(cfg, h) && Possible(cfg, h, e) && !(e.Entering? && e.n == n)
    requires n in h.doors && h.doors[n].lost.None?
    ensures var t := Step(cfg, h, e);
      && n in t.doors && t.doors[n].req == h.doors[n].req
      && (t.doors[n].lost.None? <==> !Empties(h.server, e, h.doors[n].req.room))
  {
    StillWaits(cfg, h, e, n);
    DestroysExact(cfg, h, e, h.doors[n].req.room);
  }

  lemma {:induction false} LostStays(cfg: Config, h: Hall, run: seq<Event>, n: nat)
    requires Legal(cfg, h, run) && NeverEnters(run, n) && n in h.doors && h.doors[n].lost.Some?
    ensures var t := Run(cfg, h, run); n in t.doors && t.doors[n].lost.Some?
    decreases |run|
  {
    if run == [] {
    } else {
      assert run[0] in run && forall e :: e in run[1..] ==> e in run;
      StillWaits(cfg, h, run[0], n);
      LostStays(cfg, Step(cfg, h, run[0]), run[1..], n);
    }
  }

  /** Whatever happens between the two sections of a join, the second one finds its room if and
      only if at no point the room's last members have left. */
  lemma {:induction false} FindsItsRoom(cfg: Config, h: Hall, run: seq<Event>, n: nat)
    requires cfg.maxRoomSize >= 1 && Linked(cfg, h) && Legal(cfg, h, run) && AllGood(cfg, h, run)
    requires NeverEnters(run, n) && n in h.doors && h.doors[n].lost.None?
    ensures var t := Run(cfg, h, run);
      n in t.doors && (t.doors[n].lost.None? <==> !Emptied(cfg, h, run, h.doors[n].req.room))
    decreases |run|
  {
    if run == [] {
    } else {
      var room, t := h.doors[n].req.room, Step(cfg, h, run[0]);
      assert run[0] in run && forall e :: e in run[1..] ==> e in run;
      StepLinked(cfg, h, run[0]);
      StillOpen(cfg, h, run[0], n);
      if Empties(h.server, run[0], room) {
        LostStays(cfg, t, run[1..], n);
      } else {
        FindsItsRoom(cfg, t, run[1..], n);
      }
    }
  }

  // ---------- restarts ----------

  /** A restart ends the joins that are between their sections. */
  function Restarted(h: Hall, now: int): Hall {
    Hall(Load(Save(h.server), now), map[], 0, map[])
  }

  /** A state file written at any moment reloads to linked tables if and only if none of the
      joins then between their sections held an empty room. */
  lemma ReloadExact(cfg: Config, h: Hall, now: int)
    requires Linked(cfg, h)
    ensures Linked(cfg, Restarted(h, now)) <==>
      forall n :: n in h.doors && h.doors[n].lost.None? ==> h.server.rooms[h.doors[n].req.room] != map[]
  {
    if n :| n in h.doors && h.doors[n].lost.None? && h.server.rooms[h.doors[n].req.room] == map[] {
      ReloadUnsized(cfg, h.server, now, h.doors[n].req.room);
      assert Awaiting(Restarted(h, now).doors) == {};
    } else {
      OthersOccupied(cfg, h, {});
      ReloadLinked(cfg, h, now);
    }
  }

  /** Rooms that no join holds empty have members. */
  lemma OthersOccupied(cfg: Config, h: Hall, empty: set<string>)
    requires Linked(cfg, h)
    requires forall n :: n in h.doors && h.doors[n].lost.None? && h.doors[n].req.room !in empty ==>
                           h.server.rooms[h.doors[n].req.room] != map[]
    ensures Sturdy(cfg, h.server, empty)
  {
    var s := h.server;
    forall r | r in s.rooms ensures r in empty || 1 <= |s.rooms[r]| {
      if r in Awaiting(h.doors) && r !in empty {
        var n :| n in h.doors && h.doors[n].lost.None? && h.doors[n].req.room == r;
        assert s.rooms[r] != map[];
      }
    }
  }

  lemma ReloadLinked(cfg: Config, h: Hall, now: int)
    requires Sturdy(cfg, h.server, {}) && MemberIsIndexed(h.server)
    ensures Linked(cfg, Restarted(h, now))
  {
    RestartSturdy(cfg, {}, h.server, now);
    RestartRestores(h.server, now);
    RestartIndexed(h.server, Load(Save(h.server), now));
    assert Awaiting(Restarted(h, now).doors) == {};
  }

  lemma ReloadUnsized(cfg: Config, s: Server, now: int, room: string)
    requires RoomsMatchPasswords(s) && room in s.rooms && s.rooms[room] == map[]
    ensures var t := Load(Save(s), now); room in t.rooms && t.rooms[room] == map[] && !RoomsSized(cfg, t, {})
  {
    RestartRestores(s, now);
    RestartSizes(s, now);
  }

  // ---------- an interleaving that breaks the tables ----------

  const NOBODY := Hall(EMPTY, map[], 0, map[])

  function Plain(): JoinRequest {
    JoinRequest("x", "", "", "", "name", [], 0)
  }

  ghost predicate Leads(cfg: Config, h: Hall, run: seq<Event>, t: Hall) {
    Legal(cfg, h, run) && Run(cfg, h, run) == t
  }

  lemma LeadsNext(cfg: Config, h: Hall, e: Event, run: seq<Event>, t: Hall)
    requires Possible(cfg, h, e) && Leads(cfg, Step(cfg, h, e), run, t)
    ensures Leads(cfg, h, [e] + run, t)
  {
    assert ([e] + run)[1..] == run;
  }

  lemma LeadsFrom(cfg: Config, h: Hall, run: seq<Event>, t: Hall)
    requires run != [] && Leads(cfg, h, run, t)
    ensures Possible(cfg, h, run[0]) && Leads(cfg, Step(cfg, h, run[0]), run[1..], t)
  {
  }

  lemma {:induction false} ThenTo(cfg: Config, h: Hall, run: seq<Event>, t: Hall, e: Event, u: Hall)
    requires Leads(cfg, h, run, t) && Leads(cfg, t, [e], u)
    ensures Leads(cfg, h, run + [e], u)
    decreases |run|
  {
    if run == [] {
      assert run + [e] == [e];
    } else {
      LeadsFrom(cfg, h, run, t);
      ThenTo(cfg, Step(cfg, h, run[0]), run[1..], t, e, u);
      LeadsNext(cfg, h, run[0], run[1..] + [e], u);
      assert run + [e] == [run[0]] + (run[1..] + [e]);
    }
  }

  lemma Then(cfg: Config, h: Hall, run: seq<Event>, t: Hall, e: Event)
    requires Leads(cfg, h, run, t) && Possible(cfg, t, e)
    ensures Leads(cfg, h, run + [e], Step(cfg, t, e))
  {
    LeadsNext(cfg, t, e, [], Step(cfg, t, e));
    assert [e] + [] == [e];
    ThenTo(cfg, h, run, t, e, Step(cfg, t, e));
  }

  /** One newcomer finds no room and creates it, a second one finds it. */
  ghost predicate BothInside(cfg: Config, h: Hall) {
    && Linked(cfg, h) && h.server.rooms == map["x" := map[]] && h.server.roomPwd == map["x" := None]
    && h.server.idIndex == map[] && h.doors == map[0 := Door(Plain(), None), 1 := Door(Plain(), None)]
    && h.adrift == map[]
  }

  lemma TwoOpen(cfg: Config) returns (run: seq<Event>, h: Hall)
    requires cfg.maxRoomSize >= 1
    ensures Leads(cfg, NOBODY, run, h) && BothInside(cfg, h)
  {
    var first, second := Opening(0, Plain()), Opening(1, Plain());
    var h1 := Step(cfg, NOBODY, first);
    StepLinked(cfg, NOBODY, first);
    assert h1.doors == map[0 := Door(Plain(), None)];
    h := Step(cfg, h1, second);
    StepLinked(cfg, h1, second);
    Then(cfg, NOBODY, [], NOBODY, first);
    Then(cfg, NOBODY, [first], h1, second);
    run := [first] + [second];
  }

  /** The second one is inside, the first one still between its sections. */
  ghost predicate OneInside(cfg: Config, h: Hall) {
    && Linked(cfg, h) && h.doors == map[0 := Door(Plain(), None)]
    && "x" in h.server.rooms && h.server.rooms["x"].Keys == {"2"} && h.adrift == map[]
  }

  lemma OneEnters(cfg: Config, h: Hall, addr: Addr, now: int) returns (e: Event)
    requires cfg.maxRoomSize >= 1 && BothInside(cfg, h)
    ensures Possible(cfg, h, e) && OneInside(cfg, Step(cfg, h, e))
  {
    e := Entering(1, addr, now, None, "2");
    NewcomerAlone(cfg, h.server, addr, now);
    EnteringExact(cfg, h, 1, addr, now, None, "2");
    OneWaits(cfg, h, e);
  }

  lemma OneWaits(cfg: Config, h: Hall, e: Event)
    requires BothInside(cfg, h) && e.Entering? && e.n == 1 && Possible(cfg, h, e) && "x" in NextServer(cfg, h, e).rooms
    ensures Step(cfg, h, e).doors == map[0 := Door(Plain(), None)] && Step(cfg, h, e).adrift == map[]
  {
    assert h.doors - {1} == map[0 := Door(Plain(), None)];
    WatchOne(NextServer(cfg, h, e), h.clock);
  }

  lemma NewcomerAlone(cfg: Config, s: Server, addr: Addr, now: int)
    requires cfg.maxRoomSize >= 1 && s.rooms == map["x" := map[]] && "x" in s.roomPwd
    ensures var t := Enter(cfg, s, Plain(), addr, now, None, "2").0; "x" in t.rooms && t.rooms["x"].Keys == {"2"}
  {
    EnterMeaning(cfg, s, Plain(), addr, now, None, "2");
    var nobody: map<Id, Member> := map[];
    assert nobody - {} == nobody && |nobody| == 0;
  }

  /** The second one leaves, and takes the room with it. */
  lemma OneLeaves(cfg: Config, h: Hall) returns (e: Event)
    requires cfg.maxRoomSize >= 1 && OneInside(cfg, h)
    ensures Possible(cfg, h, e)
    ensures var t := Step(cfg, h, e);
      Linked(cfg, t) && t.doors == map[0 := Door(Plain(), Some(h.clock))] && "x" !in t.server.rooms && t.adrift == map[]
  {
    e := Between(Leaving("2"));
    LastLeaves(cfg, h);
    StepLinked(cfg, h, e);
    WatchOne(NextServer(cfg, h, e), h.clock);
  }

  lemma LastLeaves(cfg: Config, h: Hall)
    requires OneInside(cfg, h)
    ensures "x" !in NextServer(cfg, h, Between(Leaving("2"))).rooms
  {
    DestroysExact(cfg, h, Between(Leaving("2")), "x");
  }

  lemma WatchOne(s: Server, moment: nat)
    ensures Watch(map[0 := Door(Plain(), None)], s, moment) ==
      map[0 := Door(Plain(), if "x" in s.rooms then None else Some(moment))]
  {
  }

  /** Between the sections of a join another member enters the room it created and leaves
      again: the newcomer's id is indexed in a room that does not exist. */
  lemma RoomLostBetween(cfg: Config, addr: Addr, now: int) returns (run: seq<Event>, h: Hall)
    requires cfg.maxRoomSize >= 1
    ensures Linked(cfg, NOBODY) && Leads(cfg, NOBODY, run, h) && !Linked(cfg, h)
    ensures "1" in h.server.idIndex && h.server.idIndex["1"].room !in h.server.rooms
  {
    run, h := TwoOpen(cfg);
    var e := OneEnters(cfg, h, addr, now);
    Then(cfg, NOBODY, run, h, e);
    run, h := run + [e], Step(cfg, h, e);
    e := OneLeaves(cfg, h);
    Then(cfg, NOBODY, run, h, e);
    run, h := run + [e], Step(cfg, h, e);
    e := Entering(0, addr, now, None, "1");
    StepLinked(cfg, h, e);
    Then(cfg, NOBODY, run, h, e);
    run, h := run + [e], Step(cfg, h, e);
  }

  /** A state file written while a newcomer is between its sections keeps its room, empty, in
      every run after a restart in which nobody joins that room. */
  lemma EmptyRoomReloaded(cfg: Config, now: int, run: seq<RoomRuns.Event>) returns (h: Hall)
    requires cfg.maxRoomSize >= 1
    ensures Leads(cfg, NOBODY, [Opening(0, Plain())], h) && Linked(cfg, h) && !Linked(cfg, Restarted(h, now))
    ensures var start := [Restarted(h, now).server];
      RoomRuns.Legal(cfg, start, run) && Shuns(run, "x") ==> KeepsEmpty(cfg, RoomRuns.Run(cfg, start, run), "x")
  {
    var e := Opening(0, Plain());
    h := Step(cfg, NOBODY, e);
    Then(cfg, NOBODY, [], NOBODY, e);
    assert [] + [e] == [e];
    StepLinked(cfg, NOBODY, e);
    assert h.doors[0].lost.None? && h.server.rooms["x"] == map[];
    ReloadExact(cfg, h, now);
    OthersOccupied(cfg, h, {"x"});
    ReloadedEmpty(cfg, h.server, now, "x");
    var start := [Restarted(h, now).server];
    if RoomRuns.Legal(cfg, start, run) && Shuns(run, "x") {
      EmptyRoomStays(cfg, start, run, "x");
    }
  }

  lemma ReloadedEmpty(cfg: Config, s: Server, now: int, room: string)
    requires Sturdy(cfg, s, {room}) && room in s.rooms && s.rooms[room] == map[]
    ensures KeepsEmpty(cfg, [Load(Save(s), now)], room)
  {
    RestartSturdy(cfg, {room}, s, now);
    ReloadUnsized(cfg, s, now, room);
  }
}
