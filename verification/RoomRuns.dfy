/** Runs of the signalling server's handlers, cleaning passes and restarts. */
module RoomRuns {
  import opened Basics
  import opened RoomState
  import opened RoomSafety

  /** One handler call, or one cleaning pass. */
  datatype Change =
    | Joining(req: JoinRequest, addr: Addr, now: int, given: Option<Id>, newId: Id)
    | Leaving(id: Id)
    | Beating(id: Id, addr: Addr, now: int)
    | Hello(id: Id, addr: Addr, now: int)
    | Registering(id: Id, addr: Addr, sock: Sock, now: int)
    | Dropping(id: Id, sock: Sock, now: int)
    | Cleaning(stale: seq<Id>, deadline: int, now: int)

  /** A room always has a password entry, as AlwaysSturdy shows. */
  predicate Allowed(s: Server, c: Change) {
    match c
    case Joining(req, _, _, given, _) =>
      MayGet(MembersMet(s, req), req, given) && (req.room in s.rooms ==> req.room in s.roomPwd)
    case Cleaning(stale, deadline, _) => Enumerates(stale, Stale(s, deadline))
    case _ => true
  }

  /** A join does not hand out an id that is in use in another room. */
  predicate Fair(s: Server, c: Change) {
    c.Joining? ==> !TakesForeignId(s, c.req, c.given, c.newId)
  }

  function Apply(cfg: Config, s: Server, c: Change): Server
    requires Allowed(s, c)
  {
    match c
    case Joining(req, addr, now, id, newId) => Join(cfg, s, req, addr, now, id, newId).0
    case Leaving(id) => Remove(s, id)
    case Beating(id, addr, now) => Heartbeat(s, id, addr, now)
    case Hello(id, addr, now) => UdpHello(s, id, addr, now)
    case Registering(id, addr, sock, now) => TcpRegister(s, id, addr, sock, now)
    case Dropping(id, sock, now) => TcpDrop(s, id, sock, now)
    case Cleaning(stale, _, now) => CleaningPass(s, stale, now)
  }

  lemma ApplySturdy(cfg: Config, awaiting: set<string>, s: Server, c: Change)
    requires cfg.maxRoomSize >= 1 && Sturdy(cfg, s, awaiting) && Allowed(s, c)
    ensures Sturdy(cfg, Apply(cfg, s, c), awaiting)
  {
    match c
    case Joining(req, addr, now, id, newId) => JoinSturdy(cfg, awaiting, s, req, addr, now, id, newId);
    case Leaving(id) => RemoveSturdy(cfg, awaiting, s, id);
    case Beating(id, addr, now) => HeartbeatKeeps(cfg, awaiting, s, id, addr, now);
    case Hello(id, addr, now) => HelloKeeps(cfg, awaiting, s, id, addr, now);
    case Registering(id, addr, sock, now) => RegisterKeeps(cfg, awaiting, s, id, addr, sock, now);
    case Dropping(id, sock, now) => DropKeeps(cfg, awaiting, s, id, sock, now);
    case Cleaning(stale, _, now) =>
      RemoveEachSturdy(cfg, awaiting, s, stale);
      ExpireKeeps(cfg, awaiting, RemoveEach(s, stale), now);
  }

  lemma ApplyMembers(cfg: Config, s: Server, c: Change)
    requires IndexedIsMember(s) && MemberIsIndexed(s) && Allowed(s, c) && Fair(s, c)
    ensures MemberIsIndexed(Apply(cfg, s, c))
  {
    match c
    case Joining(req, addr, now, id, newId) => JoinMembers(cfg, s, req, addr, now, id, newId);
    case Leaving(id) =>
      if id in s.idIndex {
        RemoveMembers(s, id);
      }
    case Beating(id, addr, now) => HeartbeatKeeps(cfg, {}, s, id, addr, now);
    case Hello(id, addr, now) => HelloKeeps(cfg, {}, s, id, addr, now);
    case Registering(id, addr, sock, now) => RegisterKeeps(cfg, {}, s, id, addr, sock, now);
    case Dropping(id, sock, now) => DropKeeps(cfg, {}, s, id, sock, now);
    case Cleaning(stale, _, now) =>
      RemoveEachMembers(s, stale);
      ExpireKeeps(cfg, {}, RemoveEach(s, stale), now);
  }

  // ---------- histories ----------

  /** A change, or a restart from a state file written when the server was in its file-th
      state. */
  datatype Event = Changing(change: Change) | Restarting(file: nat, now: int)

  /** All states so far, the newest last. */
  type History = h: seq<Server> | h != [] witness [EMPTY]

  function Now(h: History): Server {
    h[|h| - 1]
  }

  predicate Possible(h: History, e: Event) {
    match e
    case Changing(c) => Allowed(Now(h), c)
    case Restarting(file, _) => file < |h|
  }

  function Step(cfg: Config, h: History, e: Event): Server
    requires Possible(h, e)
  {
    match e
    case Changing(c) => Apply(cfg, Now(h), c)
    case Restarting(file, now) => Load(Save(h[file]), now)
  }

  predicate Legal(cfg: Config, h: History, run: seq<Event>)
    decreases |run|
  {
    run == [] || (Possible(h, run[0]) && Legal(cfg, h + [Step(cfg, h, run[0])], run[1..]))
  }

  function Run(cfg: Config, h: History, run: seq<Event>): History
    requires Legal(cfg, h, run)
    decreases |run|
  {
    if run == [] then h else Run(cfg, h + [Step(cfg, h, run[0])], run[1..])
  }

  predicate AllFair(cfg: Config, h: History, run: seq<Event>)
    requires Legal(cfg, h, run)
    decreases |run|
  {
    run == [] || ((run[0].Changing? ==> Fair(Now(h), run[0].change))
                  && AllFair(cfg, h + [Step(cfg, h, run[0])], run[1..]))
  }

  ghost predicate AllSturdy(cfg: Config, h: History) {
    forall i :: 0 <= i < |h| ==> Sturdy(cfg, h[i], {})
  }

  predicate AllMembersIndexed(h: History) {
    forall i :: 0 <= i < |h| ==> MemberIsIndexed(h[i])
  }

  lemma StepSturdy(cfg: Config, h: History, e: Event)
    requires cfg.maxRoomSize >= 1 && AllSturdy(cfg, h) && Possible(h, e)
    ensures AllSturdy(cfg, h + [Step(cfg, h, e)])
  {
    match e
    case Changing(c) => ApplySturdy(cfg, {}, Now(h), c);
    case Restarting(file, now) => RestartSturdy(cfg, {}, h[file], now);
  }

  lemma StepMembers(cfg: Config, h: History, e: Event)
    requires AllSturdy(cfg, h) && AllMembersIndexed(h) && Possible(h, e)
    requires e.Changing? ==> Fair(Now(h), e.change)
    ensures AllMembersIndexed(h + [Step(cfg, h, e)])
  {
    match e
    case Changing(c) => ApplyMembers(cfg, Now(h), c);
    case Restarting(file, now) =>
      RestartRestores(h[file], now);
      RestartIndexed(h[file], Load(Save(h[file]), now));
  }

  // ---------- runs ----------

  lemma {:induction false} RunSturdy(cfg: Config, h: History, run: seq<Event>)
    requires cfg.maxRoomSize >= 1 && AllSturdy(cfg, h) && Legal(cfg, h, run)
    ensures AllSturdy(cfg, Run(cfg, h, run))
    decreases |run|
  {
    if run == [] {
    } else {
      StepSturdy(cfg, h, run[0]);
      RunSturdy(cfg, h + [Step(cfg, h, run[0])], run[1..]);
    }
  }

  lemma {:induction false} RunMembers(cfg: Config, h: History, run: seq<Event>)
    requires cfg.maxRoomSize >= 1 && AllSturdy(cfg, h) && AllMembersIndexed(h)
    requires Legal(cfg, h, run) && AllFair(cfg, h, run)
    ensures AllMembersIndexed(Run(cfg, h, run))
    decreases |run|
  {
    if run == [] {
    } else {
      StepSturdy(cfg, h, run[0]);
      StepMembers(cfg, h, run[0]);
      RunMembers(cfg, h + [Step(cfg, h, run[0])], run[1..]);
    }
  }

  /** In every state that a started server can reach, whatever ids its joins hand out: rooms
      and passwords match, every room has between one and the maximal number of members, no
      device is in a room twice, every indexed id is a member of the room it is indexed in,
      connections have mappings and mappings have times. */
  lemma AlwaysSturdy(cfg: Config, run: seq<Event>)
    requires cfg.maxRoomSize >= 1 && Legal(cfg, [EMPTY], run)
    ensures Sturdy(cfg, Now(Run(cfg, [EMPTY], run)), {})
  {
    RunSturdy(cfg, [EMPTY], run);
  }

  /** If moreover no join hands out an id in use in another room, every member is indexed. */
  lemma AlwaysConsistent(cfg: Config, run: seq<Event>)
    requires cfg.maxRoomSize >= 1 && Legal(cfg, [EMPTY], run) && AllFair(cfg, [EMPTY], run)
    ensures Consistent(cfg, Now(Run(cfg, [EMPTY], run)))
  {
    RunSturdy(cfg, [EMPTY], run);
    RunMembers(cfg, [EMPTY], run);
  }

  /** In such a run the index is exactly the membership relation. */
  lemma IndexIsMembership(cfg: Config, run: seq<Event>, id: Id, r: string)
    requires cfg.maxRoomSize >= 1 && Legal(cfg, [EMPTY], run) && AllFair(cfg, [EMPTY], run)
    ensures var s := Now(Run(cfg, [EMPTY], run));
      (id in s.idIndex && s.idIndex[id].room == r) <==> (r in s.rooms && id in s.rooms[r])
  {
    AlwaysConsistent(cfg, run);
    IndexExact(Now(Run(cfg, [EMPTY], run)), id, r);
  }

  lemma IndexExact(s: Server, id: Id, r: string)
    requires IndexedIsMember(s) && MemberIsIndexed(s)
    ensures (id in s.idIndex && s.idIndex[id].room == r) <==> (r in s.rooms && id in s.rooms[r])
  {
  }

  /** After a cleaning pass in any reachable state no mapping without a connection is older
      than the grace period, and of the members that stay only such mappings are dropped. */
  lemma MappingLifetime(cfg: Config, run: seq<Event>, stale: seq<Id>, deadline: int, now: int, id: Id)
    requires cfg.maxRoomSize >= 1 && Legal(cfg, [EMPTY], run)
    requires Enumerates(stale, Stale(Now(Run(cfg, [EMPTY], run)), deadline))
    ensures var s := Now(Run(cfg, [EMPTY], run));
      var t := CleaningPass(s, stale, now);
      && (id in t.tcpMappings ==> id in t.tcpTs && (id in t.tcpSocks || now - t.tcpTs[id] <= TCP_MAPPING_GRACE_MS))
      && (id in s.tcpMappings && id !in stale && id !in t.tcpMappings
          ==> id in s.tcpTs && id !in s.tcpSocks && now - s.tcpTs[id] > TCP_MAPPING_GRACE_MS)
  {
    AlwaysSturdy(cfg, run);
    CleaningMappings(Now(Run(cfg, [EMPTY], run)), stale, deadline, now, id);
  }

  /** While a room lives, no handler and no cleaning pass changes its password. */
  lemma PasswordsStable(cfg: Config, s: Server, c: Change, room: string)
    requires RoomsMatchPasswords(s) && Allowed(s, c) && room in s.rooms && room in Apply(cfg, s, c).rooms
    ensures room in Apply(cfg, s, c).roomPwd && Apply(cfg, s, c).roomPwd[room] == s.roomPwd[room]
  {
    assert room in s.roomPwd;
    match c
    case Joining(req, addr, now, id, newId) => JoinPasswords(cfg, s, req, addr, now, id, newId, room);
    case Leaving(id) => RemovePasswords(s, id, room);
    case Cleaning(stale, _, now) => RemoveEachPasswords(s, stale, room);
    case _ =>
  }

  lemma RemovePasswords(s: Server, id: Id, room: string)
    requires RoomsMatchPasswords(s)
    ensures RoomsMatchPasswords(Remove(s, id))
    ensures room in Remove(s, id).roomPwd ==> room in s.roomPwd && Remove(s, id).roomPwd[room] == s.roomPwd[room]
  {
  }

  lemma {:induction false} RemoveEachPasswords(s: Server, ids: seq<Id>, room: string)
    requires RoomsMatchPasswords(s)
    ensures RoomsMatchPasswords(RemoveEach(s, ids))
    ensures room in RemoveEach(s, ids).roomPwd ==>
      room in s.roomPwd && RemoveEach(s, ids).roomPwd[room] == s.roomPwd[room]
  {
    if ids == [] {
    } else {
      RemoveEachPasswords(s, ids[..|ids| - 1], room);
      RemovePasswords(RemoveEach(s, ids[..|ids| - 1]), ids[|ids| - 1], room);
    }
  }

  // ---------- an empty room ----------

  /** In every state so far the room is there and empty. */
  ghost predicate KeepsEmpty(cfg: Config, h: History, room: string) {
    forall i :: 0 <= i < |h| ==> EmptyIn(cfg, h[i], room)
  }

  ghost predicate EmptyIn(cfg: Config, s: Server, room: string) {
    Sturdy(cfg, s, {room}) && room in s.rooms && s.rooms[room] == map[]
  }

  predicate Shuns(run: seq<Event>, room: string) {
    forall e :: e in run && e.Changing? && e.change.Joining? ==> e.change.req.room != room
  }

  lemma RemoveKeepsEmpty(cfg: Config, s: Server, id: Id, room: string)
    requires EmptyIn(cfg, s, room)
    ensures EmptyIn(cfg, Remove(s, id), room)
  {
    RemoveSturdy(cfg, {room}, s, id);
    assert id in s.idIndex ==> s.idIndex[id].room != room;
  }

  lemma {:induction false} RemoveEachKeepsEmpty(cfg: Config, s: Server, ids: seq<Id>, room: string)
    requires EmptyIn(cfg, s, room)
    ensures EmptyIn(cfg, RemoveEach(s, ids), room)
  {
    if ids == [] {
    } else {
      RemoveEachKeepsEmpty(cfg, s, ids[..|ids| - 1], room);
      RemoveKeepsEmpty(cfg, RemoveEach(s, ids[..|ids| - 1]), ids[|ids| - 1], room);
    }
  }

  lemma ApplyKeepsEmpty(cfg: Config, s: Server, c: Change, room: string)
    requires cfg.maxRoomSize >= 1 && EmptyIn(cfg, s, room) && Allowed(s, c) && (c.Joining? ==> c.req.room != room)
    ensures EmptyIn(cfg, Apply(cfg, s, c), room)
  {
    ApplySturdy(cfg, {room}, s, c);
    ApplyLeavesEmpty(cfg, s, c, room);
  }

  lemma TouchLeavesEmpty(s: Server, id: Id, addr: Addr, now: int, room: string)
    requires room in s.rooms && s.rooms[room] == map[]
    ensures var t := Heartbeat(s, id, addr, now); room in t.rooms && t.rooms[room] == map[]
    ensures var t := Touch(s, id, now); room in t.rooms && t.rooms[room] == map[]
  {
    assert MemberAt(s, id).Some? ==> s.idIndex[id].room != room;
  }

  lemma ApplyLeavesEmpty(cfg: Config, s: Server, c: Change, room: string)
    requires EmptyIn(cfg, s, room) && Allowed(s, c) && (c.Joining? ==> c.req.room != room)
    ensures var t := Apply(cfg, s, c); room in t.rooms && t.rooms[room] == map[]
  {
    match c
    case Joining(req, addr, now, id, newId) => JoinOtherRooms(cfg, s, req, addr, now, id, newId, room);
    case Leaving(id) => RemoveKeepsEmpty(cfg, s, id, room);
    case Cleaning(stale, _, now) => RemoveEachKeepsEmpty(cfg, s, stale, room);
    case Beating(id, addr, now) => TouchLeavesEmpty(s, id, addr, now, room);
    case Hello(id, addr, now) => TouchLeavesEmpty(s.(udpMappings := s.udpMappings[id := addr]), id, addr, now, room);
    case Registering(id, addr, sock, now) =>
      TouchLeavesEmpty(s.(tcpMappings := s.tcpMappings[id := addr], tcpTs := s.tcpTs[id := now],
                          tcpSocks := s.tcpSocks[id := sock]), id, addr, now, room);
    case Dropping(_, _, _) =>
  }

  lemma ShunsTail(run: seq<Event>, room: string)
    requires run != [] && Shuns(run, room)
    ensures Shuns([run[0]], room) && Shuns(run[1..], room)
  {
    assert run[0] in run && forall e :: e in run[1..] ==> e in run;
  }

  lemma StepKeepsEmpty(cfg: Config, h: History, e: Event, room: string)
    requires cfg.maxRoomSize >= 1 && KeepsEmpty(cfg, h, room) && Possible(h, e) && Shuns([e], room)
    ensures KeepsEmpty(cfg, h + [Step(cfg, h, e)], room)
  {
    assert e in [e];
    match e
    case Changing(c) => ApplyKeepsEmpty(cfg, Now(h), c, room);
    case Restarting(file, now) =>
      assert EmptyIn(cfg, h[file], room);
      RestartSturdy(cfg, {room}, h[file], now);
  }

  /** A room that is empty and that no join holds, as only a state file written between the
      sections of a join leaves one, stays: through every handler, cleaning pass and restart,
      until somebody joins it. */
  lemma {:induction false} EmptyRoomStays(cfg: Config, h: History, run: seq<Event>, room: string)
    requires cfg.maxRoomSize >= 1 && KeepsEmpty(cfg, h, room) && Legal(cfg, h, run) && Shuns(run, room)
    ensures KeepsEmpty(cfg, Run(cfg, h, run), room)
    decreases |run|
  {
    if run == [] {
    } else {
      ShunsTail(run, room);
      StepKeepsEmpty(cfg, h, run[0], room);
      EmptyRoomStays(cfg, h + [Step(cfg, h, run[0])], run[1..], room);
    }
  }
}
