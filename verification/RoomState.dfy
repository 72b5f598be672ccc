/** The state of the signalling server and what each handler, run under the state lock, does
    to it. */
module RoomState {
  import opened Basics

  type Id = string
  type Sock = nat
  datatype Addr = Addr(ip: string, port: nat)

  datatype Member = Member(name: string, pub: Addr, lan: seq<string>, tcp: nat, lastHb: int, did: string)

  datatype Place = Place(room: string, addr: Addr)

  /** maxRoomSize and the two periods are the deployment's settings, digest is the password
      hash, an arbitrary function of room and password. */
  datatype Config = Config(maxRoomSize: nat, heartbeatTimeoutMs: nat, digest: (string, string) -> string)

  const TCP_MAPPING_GRACE_MS := 180000
  const MAX_REUSE_ID := 64

  datatype Server = Server(
    rooms: map<string, map<Id, Member>>,
    roomPwd: map<string, Option<string>>,
    idIndex: map<Id, Place>,
    tcpMappings: map<Id, Addr>,
    tcpSocks: map<Id, Sock>,
    tcpTs: map<Id, int>,
    udpMappings: map<Id, Addr>)

  const EMPTY := Server(map[], map[], map[], map[], map[], map[], map[])

  // ---------- joining ----------

  /** A join message; a missing field is the empty string, room and reuseId are stripped. */
  datatype JoinRequest = JoinRequest(
    room: string, pwd: string, did: string, reuseId: string, name: string, lan: seq<string>, tcp: nat)

  datatype Refusal = NoRoom | RoomOpen | NeedPassword | BadPassword | RoomFull

  datatype Outcome =
    | Refused(code: Refusal)
    | Joined(id: Id, others: set<Id>, removed: set<Id>, roomIsOpen: bool)

  function PasswordError(cfg: Config, stored: Option<string>, req: JoinRequest): Option<Refusal> {
    if stored.None? && req.pwd != "" then Some(RoomOpen)
    else if stored.Some? && req.pwd == "" then Some(NeedPassword)
    else if stored.Some? && cfg.digest(req.room, req.pwd) != stored.value then Some(BadPassword)
    else None
  }

  /** Some device's members in a room. */
  function SameDevice(members: map<Id, Member>, did: string): set<Id> {
    set m | m in members && members[m].did == did
  }

  predicate ReuseAccepted(members: map<Id, Member>, req: JoinRequest) {
    && req.reuseId != "" && |req.reuseId| <= MAX_REUSE_ID
    && (req.reuseId in members ==> req.did != "" && members[req.reuseId].did == req.did)
  }

  /** Which ids the request may be given again; None stands for a new one.  The relation is
      a function of the request as soon as no device is in the room twice. */
  predicate MayGet(members: map<Id, Member>, req: JoinRequest, id: Option<Id>) {
    if ReuseAccepted(members, req) then id == Some(req.reuseId)
    else if req.did != "" && SameDevice(members, req.did) != {} then
      id.Some? && id.value in SameDevice(members, req.did)
    else id == None
  }

  function Duplicates(members: map<Id, Member>, did: string, keep: Option<Id>): set<Id> {
    if did == "" then {}
    else SameDevice(members, did) - (if keep.Some? then {keep.value} else {})
  }

  /** Forgets the connections and mappings of some ids, but not when they were last seen. */
  function ForgetMappings(s: Server, ids: set<Id>): Server {
    s.(tcpSocks := s.tcpSocks - ids, tcpMappings := s.tcpMappings - ids, udpMappings := s.udpMappings - ids)
  }

  function GivenId(id: Option<Id>, newId: Id): Id {
    if id.Some? then id.value else newId
  }

  function NewMember(req: JoinRequest, addr: Addr, now: int): Member {
    Member(req.name, addr, req.lan, req.tcp, now, req.did)
  }

  function OpenRoom(cfg: Config, s: Server, req: JoinRequest): Server {
    s.(rooms := s.rooms[req.room := map[]],
       roomPwd := s.roomPwd[req.room := if req.pwd == "" then None else Some(cfg.digest(req.room, req.pwd))])
  }

  /** Takes the device's other members out of the room, and forgets the connections and
      mappings of those and of the id given again. */
  function Rebind(s: Server, room: string, did: string, id: Option<Id>): Server
    requires room in s.rooms
  {
    var dups := Duplicates(s.rooms[room], did, id);
    ForgetMappings(s.(rooms := s.rooms[room := s.rooms[room] - dups], idIndex := s.idIndex - dups),
                   if id.Some? then dups + {id.value} else dups)
  }

  function Seat(s: Server, req: JoinRequest, addr: Addr, now: int, id: Id): Server
    requires req.room in s.rooms
  {
    s.(rooms := s.rooms[req.room := s.rooms[req.room][id := NewMember(req, addr, now)]],
       idIndex := s.idIndex[id := Place(req.room, addr)])
  }

  /** Gives the id a place in the room, if there is one. */
  function Settle(cfg: Config, s: Server, req: JoinRequest, addr: Addr, now: int, id: Id, removed: set<Id>): (Server,
      Outcome)
    requires req.room in s.rooms && req.room in s.roomPwd
  {
    if |s.rooms[req.room]| >= cfg.maxRoomSize && id !in s.rooms[req.room] then (s, Refused(RoomFull))
    else (Seat(s, req, addr, now, id),
          Joined(id, s.rooms[req.room].Keys - {id}, removed, s.roomPwd[req.room].None?))
  }

  /** The second locked section of a join: id is the id given again, newId a generated one. */
  function Enter(cfg: Config, s: Server, req: JoinRequest, addr: Addr, now: int, id: Option<Id>, newId: Id): (Server,
      Outcome)
    requires req.room in s.rooms && req.room in s.roomPwd
  {
    Settle(cfg, Rebind(s, req.room, req.did, id), req, addr, now, GivenId(id, newId),
           Duplicates(s.rooms[req.room], req.did, id))
  }

  /** The first locked section of a join refuses the request, or lets it in. */
  function Gate(cfg: Config, s: Server, req: JoinRequest): Option<Refusal>
    requires req.room in s.rooms ==> req.room in s.roomPwd
  {
    if req.room == "" then Some(NoRoom)
    else if req.room !in s.rooms then None
    else PasswordError(cfg, s.roomPwd[req.room], req)
  }

  function Opened(cfg: Config, s: Server, req: JoinRequest): Server {
    if req.room in s.rooms then s else OpenRoom(cfg, s, req)
  }

  /** A join as one atomic step. */
  function Join(cfg: Config, s: Server, req: JoinRequest, addr: Addr, now: int, id: Option<Id>, newId: Id): (Server,
      Outcome)
    requires req.room in s.rooms ==> req.room in s.roomPwd
  {
    match Gate(cfg, s, req)
    case Some(code) => (s, Refused(code))
    case None => Enter(cfg, Opened(cfg, s, req), req, addr, now, id, newId)
  }

  /** The members that a join request meets. */
  function MembersMet(s: Server, req: JoinRequest): map<Id, Member> {
    if req.room in s.rooms then s.rooms[req.room] else map[]
  }

  // ---------- the other handlers ----------

  function MemberAt(s: Server, id: Id): Option<Member> {
    if id in s.idIndex && s.idIndex[id].room in s.rooms && id in s.rooms[s.idIndex[id].room]
    then Some(s.rooms[s.idIndex[id].room][id]) else None
  }

  /** Replaces the record of an indexed member. */
  function SetMember(s: Server, id: Id, m: Member): Server
    requires id in s.idIndex && s.idIndex[id].room in s.rooms
  {
    var room := s.idIndex[id].room;
    s.(rooms := s.rooms[room := s.rooms[room][id := m]])
  }

  type Rooms = map<string, map<Id, Member>>

  /** Takes a member out of a room, and the room away if that empties it. */
  function DropMember(rooms: Rooms, room: string, id: Id): Rooms {
    var left := if room in rooms then rooms[room] - {id} else map[];
    if left == map[] then rooms - {room} else rooms[room := left]
  }

  function Remove(s: Server, id: Id): Server {
    if id !in s.idIndex then s
    else
      var room := s.idIndex[id].room;
      var rooms := DropMember(s.rooms, room, id);
      Server(rooms, if room in rooms then s.roomPwd else s.roomPwd - {room},
             s.idIndex - {id}, s.tcpMappings - {id}, s.tcpSocks - {id}, s.tcpTs - {id}, s.udpMappings - {id})
  }

  function Heartbeat(s: Server, id: Id, addr: Addr, now: int): Server {
    match MemberAt(s, id)
    case Some(m) => SetMember(s, id, m.(lastHb := now, pub := addr))
    case None => s
  }

  function Touch(s: Server, id: Id, now: int): Server {
    match MemberAt(s, id)
    case Some(m) => SetMember(s, id, m.(lastHb := now))
    case None => s
  }

  function UdpHello(s: Server, id: Id, addr: Addr, now: int): Server {
    if id == "" then s else Touch(s.(udpMappings := s.udpMappings[id := addr]), id, now)
  }

  /** A mapping connection has sent its id. */
  function TcpRegister(s: Server, id: Id, addr: Addr, sock: Sock, now: int): Server {
    if id == "" then s
    else Touch(s.(tcpMappings := s.tcpMappings[id := addr], tcpTs := s.tcpTs[id := now],
                  tcpSocks := s.tcpSocks[id := sock]), id, now)
  }

  /** A mapping connection has ended. */
  function TcpDrop(s: Server, id: Id, sock: Sock, now: int): Server {
    if id in s.tcpSocks && s.tcpSocks[id] == sock
    then s.(tcpSocks := s.tcpSocks - {id}, tcpTs := s.tcpTs[id := now])
    else s
  }

  // ---------- cleaning up ----------

  function LastHb(s: Server, id: Id): int {
    match MemberAt(s, id)
    case Some(m) => m.lastHb
    case None => 0
  }

  function Stale(s: Server, deadline: int): set<Id> {
    set id | id in s.idIndex && LastHb(s, id) < deadline
  }

  /** The members leave one by one. */
  function RemoveEach(s: Server, ids: seq<Id>): Server {
    if ids == [] then s else Remove(RemoveEach(s, ids[..|ids| - 1]), ids[|ids| - 1])
  }

  /** Each id of a set once. */
  predicate Enumerates(ids: seq<Id>, all: set<Id>) {
    (forall id :: id in all ==> id in ids) && (forall id :: id in ids ==> id in all)
    && (forall i, j :: 0 <= i < j < |ids| ==> ids[i] != ids[j])
  }

  function Expired(s: Server, now: int): set<Id> {
    set id | id in s.tcpTs && id !in s.tcpSocks && now - s.tcpTs[id] > TCP_MAPPING_GRACE_MS
  }

  function Expire(s: Server, now: int): Server {
    var gone := Expired(s, now);
    s.(tcpMappings := s.tcpMappings - gone, tcpTs := s.tcpTs - gone)
  }

  /** One pass of the cleaning loop; stale lists the stale members as the index yields them. */
  function CleaningPass(s: Server, stale: seq<Id>, now: int): Server {
    Expire(RemoveEach(s, stale), now)
  }

  // ---------- persistence ----------

  /** What the state file keeps of a member. */
  datatype SavedMember = SavedMember(name: string, pub: Addr, lan: seq<string>, tcp: nat, did: string)

  datatype Saved = Saved(
    rooms: map<string, map<Id, SavedMember>>, idIndex: map<Id, Place>, roomPwd: map<string, Option<string>>)

  function Save(s: Server): Saved {
    Saved(map r | r in s.rooms ::
            map m | m in s.rooms[r] ::
              SavedMember(s.rooms[r][m].name, s.rooms[r][m].pub, s.rooms[r][m].lan,
                          s.rooms[r][m].tcp, s.rooms[r][m].did),
          s.idIndex,
          map r | r in s.roomPwd && r in s.rooms :: s.roomPwd[r])
  }

  /** What a restarted server makes of its state file: every member has just been heard of,
      rooms with no recorded password are open, connections and mappings are gone. */
  function Load(d: Saved, now: int): Server {
    Server(map r | r in d.rooms ::
             map m | m in d.rooms[r] ::
               Member(d.rooms[r][m].name, d.rooms[r][m].pub, d.rooms[r][m].lan,
                      d.rooms[r][m].tcp, now, d.rooms[r][m].did),
           map r | r in d.rooms :: if r in d.roomPwd then d.roomPwd[r] else None,
           d.idIndex, map[], map[], map[], map[])
  }
}
