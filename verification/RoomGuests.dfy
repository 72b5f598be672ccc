/** The signalling server seen from one identifier: its seat in a room, its mappings and when it
    was last heard, as the events alone decide them. */
module RoomGuests {
  import opened Basics
  import opened RoomState
  import opened RoomSafety
  import opened RoomRuns

  /** A place in a room: which room, the address of the join, the member's record. */
  datatype Seat = Seat(room: string, joined: Addr, member: Member)

  /** What there is about an identifier: since is when its mapping was last in use. */
  datatype Guest = Guest(
    seat: Option<Seat>, udp: Option<Addr>, tcp: Option<Addr>, sock: Option<Sock>, since: Option<int>)

  const NOBODY := Guest(None, None, None, None, None)

  // ---------- what events mean ----------

  /** The join gets a place, for which the id is handed out. */
  predicate Admitted(cfg: Config, s: Server, req: JoinRequest, given: Option<Id>, newId: Id)
    requires req.room in s.rooms ==> req.room in s.roomPwd
  {
    Gate(cfg, s, req).None? && HasPlace(cfg, s, req, given, newId)
  }

  /** What was said by a member; a stranger says nothing. */
  function Heard(g: Guest, now: int): Guest {
    match g.seat
    case Some(seat) => g.(seat := Some(seat.(member := seat.member.(lastHb := now))))
    case None => g
  }

  function Moved(g: Guest, addr: Addr): Guest {
    match g.seat
    case Some(seat) => g.(seat := Some(seat.(member := seat.member.(pub := addr))))
    case None => g
  }

  /** A device enters a room: its other members there leave, their mappings and those of the id
      given again are void, and that id or a new one has the seat. */
  function Entering(cfg: Config, s: Server, c: Change, id: Id, g: Guest): Guest
    requires c.Joining? && Allowed(s, c)
  {
    var replaced := id in Duplicates(MembersMet(s, c.req), c.req.did, c.given);
    var void := if replaced || c.given == Some(id) then g.(udp := None, tcp := None, sock := None) else g;
    void.(seat :=
      if Admitted(cfg, s, c.req, c.given, c.newId) && id == GivenId(c.given, c.newId) then
        Some(Seat(c.req.room, c.addr, Member(c.req.name, c.addr, c.req.lan, c.req.tcp, c.now, c.req.did)))
      else if replaced then None
      else g.seat)
  }

  /** A mapping that has been without a connection for longer than the grace period lapses. */
  function Lapsed(g: Guest, now: int): Guest {
    if g.since.Some? && g.sock.None? && now - g.since.value > 180_000 then g.(tcp := None, since := None) else g
  }

  function Follow(cfg: Config, s: Server, c: Change, id: Id, g: Guest): Guest
    requires Allowed(s, c)
  {
    match c
    case Joining(req, _, _, _, _) => if Gate(cfg, s, req).Some? then g else Entering(cfg, s, c, id, g)
    case Leaving(k) => if k == id && g.seat.Some? then NOBODY else g
    case Beating(k, addr, now) => if k == id then Heard(Moved(g, addr), now) else g
    case Hello(k, addr, now) => if k == id && k != "" then Heard(g.(udp := Some(addr)), now) else g
    case Registering(k, addr, sock, now) =>
      if k == id && k != "" then Heard(g.(tcp := Some(addr), sock := Some(sock), since := Some(now)), now) else g
    case Dropping(k, sock, now) => if k == id && g.sock == Some(sock) then g.(sock := None, since := Some(now)) else g
    case Cleaning(stale, _, now) => Lapsed(if id in stale then NOBODY else g, now)
  }

  /** A restart brings the seat back, as if its member had just been heard, and nothing else. */
  function Reloaded(g: Guest, now: int): Guest {
    Heard(NOBODY.(seat := g.seat), now)
  }

  // ---------- what the tables say ----------

  function At<V>(m: map<Id, V>, id: Id): Option<V> {
    if id in m then Some(m[id]) else None
  }

  function SeatOf(s: Server, id: Id): Option<Seat> {
    match MemberAt(s, id)
    case Some(m) => Some(Seat(s.idIndex[id].room, s.idIndex[id].addr, m))
    case None => None
  }

  function View(s: Server, id: Id): Guest {
    Guest(SeatOf(s, id), At(s.udpMappings, id), At(s.tcpMappings, id), At(s.tcpSocks, id), At(s.tcpTs, id))
  }

  lemma SeatIndexed(s: Server, id: Id)
    requires IndexedIsMember(s)
    ensures SeatOf(s, id).Some? <==> id in s.idIndex
  {
  }

  // ---------- each change ----------

  /** The mappings of an id are void once its device enters again. */
  predicate Void(s: Server, req: JoinRequest, id: Option<Id>, k: Id)
    requires req.room in s.rooms
  {
    k in Duplicates(s.rooms[req.room], req.did, id) || id == Some(k)
  }

  lemma RebindTables(s: Server, req: JoinRequest, id: Option<Id>, k: Id)
    requires req.room in s.rooms
    ensures var t, void := Rebind(s, req.room, req.did, id), Void(s, req, id, k);
      && At(t.udpMappings, k) == (if void then None else At(s.udpMappings, k))
      && At(t.tcpMappings, k) == (if void then None else At(s.tcpMappings, k))
      && At(t.tcpSocks, k) == (if void then None else At(s.tcpSocks, k))
      && t.tcpTs == s.tcpTs
  {
  }

  lemma SettleTables(cfg: Config, s: Server, req: JoinRequest, addr: Addr, now: int, id: Id, removed: set<Id>)
    requires req.room in s.rooms && req.room in s.roomPwd
    ensures var t := Settle(cfg, s, req, addr, now, id, removed).0;
      && t.udpMappings == s.udpMappings && t.tcpMappings == s.tcpMappings && t.tcpSocks == s.tcpSocks
      && t.tcpTs == s.tcpTs
  {
  }

  lemma EnterTables(cfg: Config, s: Server, req: JoinRequest, addr: Addr, now: int, id: Option<Id>, newId: Id, k: Id)
    requires req.room in s.rooms && req.room in s.roomPwd
    ensures var t, void := Enter(cfg, s, req, addr, now, id, newId).0, Void(s, req, id, k);
      && At(t.udpMappings, k) == (if void then None else At(s.udpMappings, k))
      && At(t.tcpMappings, k) == (if void then None else At(s.tcpMappings, k))
      && At(t.tcpSocks, k) == (if void then None else At(s.tcpSocks, k))
      && t.tcpTs == s.tcpTs
  {
    RebindTables(s, req, id, k);
    RebindMeaning(s, req, id);
    SettleTables(cfg, Rebind(s, req.room, req.did, id), req, addr, now, GivenId(id, newId),
                 Duplicates(s.rooms[req.room], req.did, id));
  }

  /** Where everybody sits after the second section of a join. */
  lemma EnteredSeats(cfg: Config, s: Server, req: JoinRequest, m: Member, id: Option<Id>, myId: Id, t: Server,
      o: Outcome, k: Id)
    requires req.room in s.rooms && IndexedIsMember(s) && Entered(cfg, s, req, m, id, myId, t, o)
    ensures SeatOf(t, k) ==
      if o.Joined? && k == myId then Some(Seat(req.room, m.pub, m))
      else if k in Duplicates(s.rooms[req.room], req.did, id) then None
      else SeatOf(s, k)
  {
    EnteredIndexed(cfg, s, req, m, id, myId, t, o);
    if k in s.idIndex && k !in Duplicates(s.rooms[req.room], req.did, id) && !(o.Joined? && k == myId) {
      var r := s.idIndex[k].room;
      assert k in t.idIndex && t.idIndex[k] == s.idIndex[k];
      assert t.rooms[r][k] == s.rooms[r][k];
    }
  }

  lemma OpenedSeats(cfg: Config, s: Server, req: JoinRequest, k: Id)
    requires IndexedIsMember(s)
    ensures View(Opened(cfg, s, req), k) == View(s, k)
    ensures req.room in Opened(cfg, s, req).rooms && Opened(cfg, s, req).rooms[req.room] == MembersMet(s, req)
  {
    SeatIndexed(s, k);
  }

  lemma EnterView(cfg: Config, s: Server, u: Server, c: Change, k: Id)
    requires c.Joining? && Allowed(s, c) && Gate(cfg, s, c.req).None? && IndexedIsMember(u)
    requires c.req.room in u.rooms && c.req.room in u.roomPwd && u.rooms[c.req.room] == MembersMet(s, c.req)
    ensures View(Enter(cfg, u, c.req, c.addr, c.now, c.given, c.newId).0, k) == Entering(cfg, s, c, k, View(u, k))
  {
    var m, myId := NewMember(c.req, c.addr, c.now), GivenId(c.given, c.newId);
    EnterMeaning(cfg, u, c.req, c.addr, c.now, c.given, c.newId);
    EnterTables(cfg, u, c.req, c.addr, c.now, c.given, c.newId, k);
    var (t, o) := Enter(cfg, u, c.req, c.addr, c.now, c.given, c.newId);
    EnteredSeats(cfg, u, c.req, m, c.given, myId, t, o, k);
    EnteredIff(cfg, u, c.req, m, c.given, c.newId, t, o);
  }

  lemma EnteredIff(cfg: Config, s: Server, req: JoinRequest, m: Member, id: Option<Id>, newId: Id, t: Server,
      o: Outcome)
    requires req.room in s.rooms && Entered(cfg, s, req, m, id, GivenId(id, newId), t, o)
    ensures o.Joined? <==> HasPlace(cfg, s, req, id, newId)
  {
  }

  lemma JoinView(cfg: Config, s: Server, c: Change, k: Id)
    requires c.Joining? && Allowed(s, c) && IndexedIsMember(s)
    ensures View(Apply(cfg, s, c), k) == Follow(cfg, s, c, k, View(s, k))
  {
    if Gate(cfg, s, c.req).None? {
      OpenedSeats(cfg, s, c.req, k);
      OpenedIndexed(cfg, s, c.req);
      EnterView(cfg, s, Opened(cfg, s, c.req), c, k);
    }
  }

  lemma LeaveView(s: Server, id: Id, k: Id)
    requires IndexedIsMember(s)
    ensures View(Remove(s, id), k) == if k == id && View(s, k).seat.Some? then NOBODY else View(s, k)
  {
    SeatIndexed(s, k);
    if id in s.idIndex {
      RemoveIndexed(s, id);
      SeatIndexed(Remove(s, id), k);
    }
  }

  lemma {:induction false} LeaveEachView(s: Server, ids: seq<Id>, k: Id)
    requires IndexedIsMember(s) && forall i, j :: 0 <= i < j < |ids| ==> ids[i] != ids[j]
    requires forall id :: id in ids ==> id in s.idIndex
    ensures IndexedIsMember(RemoveEach(s, ids))
    ensures View(RemoveEach(s, ids), k) == if k in ids then NOBODY else View(s, k)
  {
    if ids == [] {
    } else {
      var front, last := ids[..|ids| - 1], ids[|ids| - 1];
      assert ids == front + [last];
      LeaveEachView(s, front, k);
      LeaveEachView(s, front, last);
      SeatIndexed(s, last);
      LeaveView(RemoveEach(s, front), last, k);
      LeaveIndexed(RemoveEach(s, front), last);
    }
  }

  lemma LeaveIndexed(s: Server, id: Id)
    requires IndexedIsMember(s)
    ensures IndexedIsMember(Remove(s, id))
  {
    if id in s.idIndex {
      RemoveIndexed(s, id);
    }
  }

  lemma BeatView(s: Server, id: Id, addr: Addr, now: int, k: Id)
    ensures View(Heartbeat(s, id, addr, now), k) ==
      if k == id then Heard(Moved(View(s, k), addr), now) else View(s, k)
  {
  }

  lemma TouchView(s: Server, id: Id, now: int, k: Id)
    ensures View(Touch(s, id, now), k) == if k == id then Heard(View(s, k), now) else View(s, k)
  {
  }

  lemma ExpireView(s: Server, now: int, k: Id)
    requires MappingsNested(s)
    ensures View(Expire(s, now), k) == Lapsed(View(s, k), now)
  {
  }

  lemma TableView(s: Server, t: Server, k: Id)
    requires t.rooms == s.rooms && t.idIndex == s.idIndex
    ensures SeatOf(t, k) == SeatOf(s, k)
  {
  }

  lemma HelloView(s: Server, id: Id, addr: Addr, now: int, k: Id)
    ensures View(UdpHello(s, id, addr, now), k) ==
      if k == id && k != "" then Heard(View(s, k).(udp := Some(addr)), now) else View(s, k)
  {
    var t := s.(udpMappings := s.udpMappings[id := addr]);
    TableView(s, t, k);
    TouchView(t, id, now, k);
  }

  lemma RegisterView(s: Server, id: Id, addr: Addr, sock: Sock, now: int, k: Id)
    ensures View(TcpRegister(s, id, addr, sock, now), k) ==
      if k == id && k != "" then
        Heard(View(s, k).(tcp := Some(addr), sock := Some(sock), since := Some(now)), now)
      else View(s, k)
  {
    var t := s.(tcpMappings := s.tcpMappings[id := addr], tcpTs := s.tcpTs[id := now],
                tcpSocks := s.tcpSocks[id := sock]);
    TableView(s, t, k);
    TouchView(t, id, now, k);
  }

  lemma DropTables(s: Server, id: Id, sock: Sock, now: int, k: Id)
    ensures var t, ended := TcpDrop(s, id, sock, now), At(s.tcpSocks, k) == Some(sock) && k == id;
      && t == s.(tcpSocks := t.tcpSocks, tcpTs := t.tcpTs)
      && At(t.tcpSocks, k) == (if ended then None else At(s.tcpSocks, k))
      && At(t.tcpTs, k) == (if ended then Some(now) else At(s.tcpTs, k))
  {
  }

  lemma DropView(s: Server, id: Id, sock: Sock, now: int, k: Id)
    ensures View(TcpDrop(s, id, sock, now), k) ==
      if k == id && View(s, k).sock == Some(sock) then View(s, k).(sock := None, since := Some(now)) else View(s, k)
  {
    DropTables(s, id, sock, now, k);
    TableView(s, TcpDrop(s, id, sock, now), k);
  }

  lemma CleanView(cfg: Config, s: Server, stale: seq<Id>, deadline: int, now: int, k: Id)
    requires Sturdy(cfg, s, {}) && Enumerates(stale, Stale(s, deadline))
    ensures View(CleaningPass(s, stale, now), k) == Lapsed(if k in stale then NOBODY else View(s, k), now)
  {
    LeaveEachView(s, stale, k);
    RemoveEachSturdy(cfg, {}, s, stale);
    ExpireView(RemoveEach(s, stale), now, k);
  }

  lemma ChangeView(cfg: Config, s: Server, c: Change, k: Id)
    requires cfg.maxRoomSize >= 1 && Sturdy(cfg, s, {}) && Allowed(s, c)
    ensures View(Apply(cfg, s, c), k) == Follow(cfg, s, c, k, View(s, k))
  {
    match c
    case Joining(_, _, _, _, _) => JoinView(cfg, s, c, k);
    case Leaving(id) => LeaveView(s, id, k);
    case Beating(id, addr, now) => BeatView(s, id, addr, now, k);
    case Hello(id, addr, now) => HelloView(s, id, addr, now, k);
    case Registering(id, addr, sock, now) => RegisterView(s, id, addr, sock, now, k);
    case Dropping(id, sock, now) => DropView(s, id, sock, now, k);
    case Cleaning(stale, deadline, now) => CleanView(cfg, s, stale, deadline, now, k);
  }

  lemma RestartView(s: Server, now: int, k: Id)
    requires RoomsMatchPasswords(s) && IndexedIsMember(s)
    ensures View(Load(Save(s), now), k) == Reloaded(View(s, k), now)
  {
    RestartRestores(s, now);
  }

  // ---------- every run ----------

  /** What becomes of an identifier; before has what it was in all states so far. */
  function Fate(cfg: Config, h: History, before: seq<Guest>, id: Id, e: Event): Guest
    requires |before| == |h| && Possible(h, e)
  {
    match e
    case Changing(c) => Follow(cfg, Now(h), c, id, before[|before| - 1])
    case Restarting(file, now) => Reloaded(before[file], now)
  }

  function Fates(cfg: Config, h: History, before: seq<Guest>, id: Id, run: seq<Event>): (r: seq<Guest>)
    requires |before| == |h| && Legal(cfg, h, run)
    ensures |r| > 0
    decreases |run|
  {
    if run == [] then before
    else Fates(cfg, h + [Step(cfg, h, run[0])], before + [Fate(cfg, h, before, id, run[0])], id, run[1..])
  }

  predicate Viewed(h: History, before: seq<Guest>, id: Id) {
    |before| == |h| && forall i :: 0 <= i < |h| ==> View(h[i], id) == before[i]
  }

  lemma StepView(cfg: Config, h: History, before: seq<Guest>, id: Id, e: Event)
    requires cfg.maxRoomSize >= 1 && AllSturdy(cfg, h) && Viewed(h, before, id) && Possible(h, e)
    ensures Viewed(h + [Step(cfg, h, e)], before + [Fate(cfg, h, before, id, e)], id)
  {
    match e
    case Changing(c) => ChangeView(cfg, Now(h), c, id);
    case Restarting(file, now) => RestartView(h[file], now, id);
  }

  lemma {:induction false} RunView(cfg: Config, h: History, before: seq<Guest>, id: Id, run: seq<Event>)
    requires cfg.maxRoomSize >= 1 && AllSturdy(cfg, h) && Viewed(h, before, id) && Legal(cfg, h, run)
    ensures Viewed(Run(cfg, h, run), Fates(cfg, h, before, id, run), id)
    decreases |run|
  {
    if run == [] {
    } else {
      StepView(cfg, h, before, id, run[0]);
      StepSturdy(cfg, h, run[0]);
      RunView(cfg, h + [Step(cfg, h, run[0])], before + [Fate(cfg, h, before, id, run[0])], id, run[1..]);
    }
  }

  /** What the events of a run make of an identifier. */
  function Course(cfg: Config, run: seq<Event>, id: Id): Guest
    requires Legal(cfg, [EMPTY], run)
  {
    var gs := Fates(cfg, [EMPTY], [NOBODY], id, run);
    gs[|gs| - 1]
  }

  /** In every reachable state the tables say of every identifier just what the events so far
      have made of it, whatever ids joins hand out. */
  lemma AlwaysViewed(cfg: Config, run: seq<Event>, id: Id)
    requires cfg.maxRoomSize >= 1 && Legal(cfg, [EMPTY], run)
    ensures View(Now(Run(cfg, [EMPTY], run)), id) == Course(cfg, run, id)
  {
    assert View(EMPTY, id) == NOBODY;
    RunView(cfg, [EMPTY], [NOBODY], id, run);
  }

  // ---------- who is heard, and who is removed ----------

  /** The time at which an id was last heard, if the event is one by which it is heard: a join
      that gives it a place, a heartbeat, a hello, the registration of a mapping, a restart. */
  function Listen(cfg: Config, h: History, e: Event, id: Id, last: int): int
    requires Possible(h, e)
  {
    match e
    case Changing(Joining(req, _, now, given, newId)) =>
      if Admitted(cfg, Now(h), req, given, newId) && GivenId(given, newId) == id then now else last
    case Changing(Beating(k, _, now)) => if k == id then now else last
    case Changing(Hello(k, _, now)) => if k == id && k != "" then now else last
    case Changing(Registering(k, _, _, now)) => if k == id && k != "" then now else last
    case Changing(_) => last
    case Restarting(_, now) => now
  }

  function LastHeard(cfg: Config, h: History, run: seq<Event>, id: Id, last: int): int
    requires Legal(cfg, h, run)
    decreases |run|
  {
    if run == [] then last
    else LastHeard(cfg, h + [Step(cfg, h, run[0])], run[1..], id, Listen(cfg, h, run[0], id, last))
  }

  predicate HeardAt(g: Guest, last: int) {
    g.seat.Some? ==> g.seat.value.member.lastHb == last
  }

  lemma FollowHeard(cfg: Config, h: History, g: Guest, id: Id, c: Change, last: int)
    requires Allowed(Now(h), c) && HeardAt(g, last)
    ensures HeardAt(Follow(cfg, Now(h), c, id, g), Listen(cfg, h, Changing(c), id, last))
  {
    if c.Joining? && Gate(cfg, Now(h), c.req).None? {
      var t := Entering(cfg, Now(h), c, id, g);
      assert t.seat.Some? ==> t.seat == g.seat || t.seat.value.member.lastHb == c.now;
    }
  }

  lemma FateHeard(cfg: Config, h: History, before: seq<Guest>, id: Id, e: Event, last: int)
    requires |before| == |h| && Possible(h, e) && HeardAt(before[|before| - 1], last)
    ensures HeardAt(Fate(cfg, h, before, id, e), Listen(cfg, h, e, id, last))
  {
    if e.Changing? {
      FollowHeard(cfg, h, before[|before| - 1], id, e.change, last);
    }
  }

  lemma {:induction false} FatesHeard(cfg: Config, h: History, before: seq<Guest>, id: Id, run: seq<Event>, last: int)
    requires |before| == |h| && Legal(cfg, h, run) && HeardAt(before[|before| - 1], last)
    ensures var gs := Fates(cfg, h, before, id, run); HeardAt(gs[|gs| - 1], LastHeard(cfg, h, run, id, last))
    decreases |run|
  {
    if run == [] {
    } else {
      FateHeard(cfg, h, before, id, run[0], last);
      FatesHeard(cfg, h + [Step(cfg, h, run[0])], before + [Fate(cfg, h, before, id, run[0])], id, run[1..],
                 Listen(cfg, h, run[0], id, last));
    }
  }

  lemma AlwaysHeard(cfg: Config, run: seq<Event>, id: Id)
    requires cfg.maxRoomSize >= 1 && Legal(cfg, [EMPTY], run)
    ensures HeardAt(View(Now(Run(cfg, [EMPTY], run)), id), LastHeard(cfg, [EMPTY], run, id, 0))
  {
    AlwaysViewed(cfg, run, id);
    FatesHeard(cfg, [EMPTY], [NOBODY], id, run, 0);
  }

  lemma AlwaysIndexed(cfg: Config, run: seq<Event>)
    requires cfg.maxRoomSize >= 1 && Legal(cfg, [EMPTY], run)
    ensures IndexedIsMember(Now(Run(cfg, [EMPTY], run)))
  {
    AlwaysSturdy(cfg, run);
  }

  /** In every reachable state the stale members are those last heard before the deadline. */
  lemma StaleHeard(cfg: Config, run: seq<Event>, deadline: int, id: Id)
    requires cfg.maxRoomSize >= 1 && Legal(cfg, [EMPTY], run)
    ensures var s := Now(Run(cfg, [EMPTY], run));
      id in Stale(s, deadline) <==> id in s.idIndex && LastHeard(cfg, [EMPTY], run, id, 0) < deadline
  {
    AlwaysHeard(cfg, run, id);
    AlwaysIndexed(cfg, run);
    StaleSeat(Now(Run(cfg, [EMPTY], run)), deadline, id, LastHeard(cfg, [EMPTY], run, id, 0));
  }

  lemma StaleSeat(s: Server, deadline: int, id: Id, last: int)
    requires IndexedIsMember(s) && HeardAt(View(s, id), last)
    ensures id in Stale(s, deadline) <==> id in s.idIndex && last < deadline
  {
    SeatIndexed(s, id);
  }

  /** A cleaning pass in any reachable state takes a member's seat if and only if the member was
      last heard before the deadline, and leaves every other seat as it was. */
  lemma CleaningHeard(cfg: Config, run: seq<Event>, stale: seq<Id>, deadline: int, now: int, id: Id)
    requires cfg.maxRoomSize >= 1 && Legal(cfg, [EMPTY], run)
    requires Enumerates(stale, Stale(Now(Run(cfg, [EMPTY], run)), deadline))
    ensures var s := Now(Run(cfg, [EMPTY], run));
      SeatOf(CleaningPass(s, stale, now), id) ==
        if LastHeard(cfg, [EMPTY], run, id, 0) < deadline then None else SeatOf(s, id)
  {
    var s := Now(Run(cfg, [EMPTY], run));
    StaleHeard(cfg, run, deadline, id);
    AlwaysSturdy(cfg, run);
    SeatIndexed(s, id);
    ChangeView(cfg, s, Cleaning(stale, deadline, now), id);
  }

  /** After a heartbeat in any reachable state its member has the sender's address. */
  lemma HeartbeatMoves(cfg: Config, run: seq<Event>, id: Id, addr: Addr, now: int)
    requires cfg.maxRoomSize >= 1 && Legal(cfg, [EMPTY], run)
    ensures var s := Now(Run(cfg, [EMPTY], run));
      var t := Apply(cfg, s, Beating(id, addr, now));
      id in s.idIndex ==> SeatOf(t, id).Some? && SeatOf(t, id).value.member.pub == addr
  {
    AlwaysSturdy(cfg, run);
    SeatIndexed(Now(Run(cfg, [EMPTY], run)), id);
    ChangeView(cfg, Now(Run(cfg, [EMPTY], run)), Beating(id, addr, now), id);
  }
}
