/** The connection table of one peer of the network, as a value, and what each event does to
    it under the manager's lock. */
module LinkTable {
  import opened Basics

  type Id = string
  type Sock = nat

  datatype Phase = Connecting | Connected | Failed

  datatype Entry = Entry(phase: Phase, sock: Option<Sock>, preferred: bool)

  /** Of a member's record only its public TCP address matters here. */
  datatype Member = Member(pubTcp: string)

  /** taken holds every socket ever handed to the table, closed every socket it has closed. */
  datatype Manager = Manager(
    myId: Id, members: map<Id, Member>, table: map<Id, Entry>, taken: set<Sock>, closed: set<Sock>)

  const FRESH := Entry(Connecting, None, true)

  function Initial(myId: Id): Manager {
    Manager(myId, map[], map[], {}, {})
  }

  // ---------- which connection is the main one ----------

  /** The order of identifiers: lexicographic by code point. */
  predicate Less(a: Id, b: Id) {
    if b == "" then false
    else if a == "" then true
    else a[0] < b[0] || (a[0] == b[0] && Less(a[1..], b[1..]))
  }

  predicate OutboundPreferred(myId: Id, peer: Id) {
    if myId == "" || peer == "" then true else Less(peer, myId)
  }

  predicate InboundPreferred(myId: Id, peer: Id) {
    if myId == "" || peer == "" then true else Less(myId, peer)
  }

  // ---------- sockets ----------

  predicate Holds(s: Manager, id: Id) {
    id in s.table && s.table[id].phase == Connected && s.table[id].sock.Some?
  }

  function SockOf(s: Manager, id: Id): set<Sock> {
    if id in s.table && s.table[id].sock.Some? then {s.table[id].sock.value} else {}
  }

  /** Closes an entry's socket, if it has one, and keeps the entry. */
  function Closing(s: Manager, id: Id): Manager {
    if id in s.table
    then s.(closed := s.closed + SockOf(s, id), table := s.table[id := s.table[id].(sock := None)])
    else s
  }

  /** A new socket for a peer, from either side; it replaces what is there, unless that is a
      connection and the new one is not preferred over it. */
  function Offer(s: Manager, id: Id, sock: Sock, preferred: bool): Manager {
    var t := s.(taken := s.taken + {sock});
    if Holds(s, id) && !(preferred && !s.table[id].preferred) then t.(closed := t.closed + {sock})
    else
      var c := Closing(t, id);
      c.(table := c.table[id := Entry(Connected, Some(sock), preferred)])
  }

  function Install(s: Manager, id: Id, sock: Sock): Manager {
    Offer(s, id, sock, OutboundPreferred(s.myId, id))
  }

  function Inbound(s: Manager, id: Id, sock: Sock): Manager {
    Offer(s, id, sock, InboundPreferred(s.myId, id))
  }

  // ---------- whom an accepted connection belongs to ----------

  /** What is before the last colon; all of a text without one. */
  function Host(address: string): string
    decreases |address|
  {
    if ':' !in address then address
    else if address[|address| - 1] == ':' then address[..|address| - 1]
    else Host(address[..|address| - 1])
  }

  /** Either a member with exactly that address, or if there is none a member with that host. */
  predicate MayClaim(members: map<Id, Member>, ip: string, port: string, who: Option<Id>) {
    var key := ip + ":" + port;
    if exists m :: m in members && members[m].pubTcp == key then
      who.Some? && who.value in members && members[who.value].pubTcp == key
    else if ip != "" && exists m :: m in members && members[m].pubTcp != "" && Host(members[m].pubTcp) == ip then
      who.Some? && who.value in members && members[who.value].pubTcp != "" && Host(members[who.value].pubTcp) == ip
    else who == None
  }

  // ---------- the other events ----------

  predicate Busy(s: Manager, id: Id) {
    id in s.table && s.table[id].phase != Failed
  }

  function PunchGo(s: Manager, id: Id, m: Member): Manager {
    if id == "" then s
    else
      var t := s.(members := s.members[id := m]);
      if Busy(t, id) then t else t.(table := t.table[id := FRESH])
  }

  function PeerTcpReady(s: Manager, id: Id): Manager {
    if Busy(s, id) || id !in s.members then s else s.(table := s.table[id := FRESH])
  }

  function Fail(s: Manager, id: Id): Manager {
    if id in s.table then
      var t := Closing(s, id);
      t.(table := t.table[id := t.table[id].(phase := Failed)])
    else s
  }

  /** The end of a punch task that has run out of attempts. */
  function GiveUp(s: Manager, id: Id): Manager {
    if id in s.table && s.table[id].phase != Connected
    then s.(table := s.table[id := s.table[id].(phase := Failed)])
    else s
  }

  function AddMember(s: Manager, id: Id, m: Member): Manager {
    if id == "" then s else s.(members := s.members[id := m])
  }

  function Leave(s: Manager, id: Id): Manager {
    var t := Closing(s, id);
    t.(members := t.members - {id}, table := t.table - {id})
  }

  function HeldSocks(s: Manager): set<Sock> {
    set id | id in s.table && s.table[id].sock.Some? :: s.table[id].sock.value
  }

  /** Stopping, and the first step after a change of network. */
  function CloseAll(s: Manager): Manager {
    s.(closed := s.closed + HeldSocks(s), table := map[])
  }

  // ---------- runs ----------

  /** Kill is the keepalive loop's reaction to a dead connection: same says whether the entry
      is still the one that was found dead. */
  datatype Event =
    | Installed(id: Id, sock: Sock)
    | Accepted(id: Id, sock: Sock)
    | GoPunch(id: Id, member: Member)
    | TcpReady(id: Id)
    | PunchFailed(id: Id)
    | GivenUp(id: Id)
    | Kill(id: Id, same: bool)
    | Added(id: Id, member: Member)
    | Left(id: Id)
    | Reset
    | Renamed(newId: Id)

  function Step(s: Manager, e: Event): Manager {
    match e
    case Installed(id, sock) => Install(s, id, sock)
    case Accepted(id, sock) => Inbound(s, id, sock)
    case GoPunch(id, m) => PunchGo(s, id, m)
    case TcpReady(id) => PeerTcpReady(s, id)
    case PunchFailed(id) => Fail(s, id)
    case GivenUp(id) => GiveUp(s, id)
    case Kill(id, same) => if same then Fail(s, id) else s
    case Added(id, m) => AddMember(s, id, m)
    case Left(id) => Leave(s, id)
    case Reset => CloseAll(s)
    case Renamed(id) => s.(myId := id)
  }

  /** Whether a request starts a punch task. */
  predicate Starts(s: Manager, e: Event) {
    if e.GoPunch? then e.id != "" && !Busy(s, e.id)
    else e.TcpReady? && e.id in s.members && !Busy(s, e.id)
  }

  /** The operating system hands out every socket once. */
  predicate Possible(s: Manager, e: Event) {
    (e.Installed? || e.Accepted?) ==> e.sock !in s.taken
  }

  predicate Legal(s: Manager, run: seq<Event>)
    decreases |run|
  {
    run == [] || (Possible(s, run[0]) && Legal(Step(s, run[0]), run[1..]))
  }

  function Run(s: Manager, run: seq<Event>): Manager
    decreases |run|
  {
    if run == [] then s else Run(Step(s, run[0]), run[1..])
  }
}
