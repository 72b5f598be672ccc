# DPMP: a verified model

DPMP connects peers behind NATs: a signalling server introduces them, both sides punch TCP and
UDP holes, a reliable byte stream runs over UDP, and each pair of peers keeps several graded
paths alive. This project models the parts of it that hold state machines and arithmetic, and
proves what they are relied on for. Run `dafny verify dfyconfig.toml`.

| files | part |
|---|---|
| RtpEndpoint, RtpNetwork, RtpRetention, RtpTiming, RtpWindow, RtpRecovery, RtpBlocking, RtpParking, RtpReading | the reliable UDP stream: one endpoint as a class, two endpoints over a network that loses, duplicates and reorders, what the two ACK rules retain, when a packet is resent, the AIMD window, what can still be delivered, when a waiting sender is stuck, how many chunks the peer parks, what a reader gets |
| JsonText, JsonGrammar, JsonRoundTrip, JsonTolerance, JsonMachine | the Kotlin JSON printer and parser: the text functions, the grammar of RFC 8259, the round trip, texts outside the grammar, the cursor machines that compute the functions |
| RoomState, RoomSafety, RoomRuns, RoomGuests, RoomJoins, RoomSections, RoomServer | the signalling server's seven tables: handlers as functions, what each keeps, all runs, what becomes of one identifier, what a join answers, a join's two locked sections with other handlers in between, the handlers in place |
| LinkTable, LinkSafety, LinkStages, LinkAgreement, LinkManager | the connection table: events as functions, socket ownership, when an attempt starts and when it is refused, agreement of two ends, the table of connection objects |
| KeepaliveSearch, PathLadder, PathCourse, PathScheduler | the keepalive interval search, the ladder of path roles, which path is hot and what each event leaves as it was, the ladder in place |
| ClockSync, ClockSkew, ClockSeries | the clock exchange and the commit of a punch instant: one end as a class, both ends in real time, one end's whole history |
| CandidateRace, CandidateList | the parallel connect race and its list of candidates |
| Addresses, AddressReading, WireFormat, KotlinCodec | host:port texts and which of them are read, the binary layouts, and their second implementation |
| Basics | option, byte, minimum and maximum |

Where the source updates an object step by step there is a class whose methods do the same, and
each method's contract equates the new state with a function of the old one. The theorems are
about those functions, over every input, every run or every reachable state.

What the stream theorems say about the ACK: the protocol document defines the ack field as
cumulative (DPMP_PROTOCOL.md:145) and data packets carry that value (dpmp/link/rtp.py:133), but
the pure ACK carries the number of the chunk just received (dpmp/link/rtp.py:394). The value is
a parameter of the model, `Cumulative` or `Received`. The stream never delivers wrong bytes under
either. Nothing sent is ever dropped under the first. Under the second, the one the code has, a
chunk that arrives ahead of the receive cursor lets the sender forget chunks that have not
arrived; `ReceivedAckExact` gives the exact condition, `LostForever` the consequence,
`DeliverableExact` says from any state what can still be delivered, and
`ReceivedParksWithoutBound` shows that the cap on parked chunks which the constants' comments
promise (dpmp/protocol/constants.py:59) then fails too, while without early chunks none is parked
(`InOrderParksNothing`). Even without any loss a single sender can get stuck (`ReceivedBlocks`),
because an ACK frees only older chunks and the ack field of keepalives is not looked at
(dpmp/link/rtp.py:365-366): `WaitsExact` gives the exact condition, that nothing but the newest
chunk is queued in a window of one, or the window is capped at one, and no higher
acknowledgement is out. The cumulative ACK always leaves a way out (`CumulativeRecovers`).

Assumptions: each handler of the signalling server is one atomic step. A join takes its lock
twice (server/信令服务器.py:419 and server/信令服务器.py:442): the theorems of RoomSafety and RoomRuns
take it as one step all the same, and RoomSections says what other handlers can do in between, and
what a state file written in between reloads to. The connection manager's events are atomic at its
lock; fewer than 2^32 chunks are sent in one direction; clocks differ by a constant, and a commit
arrives before the instant it sets; an identifier does not change while two ends agree on a
connection.

More places where the code does less than one might think, each with its exact condition:
a join can be handed an id that is in use in another room (`JoinExact`, `ForeignReuseBreaks`);
between its two sections its room can be destroyed (`FindsItsRoom`, `RoomLostBetween`), and a
state file written between them can bring back an empty room, which stays until somebody joins it
(`ReloadExact`, `EmptyRoomReloaded`); promotion lifts the last registered loose path, not the best
(`PromoteGradedExact`, `PromotionUnsorts`); a winner recorded after the caller of a race stopped
waiting is never closed (`LeakExact`, `LateWinnerLeaks`). Doubles do not survive the JSON round
trip as they are: those that are not finite come back as null and integral ones below 10^15 as
integers (`RoundTrip`).

## Model

| member | source | states |
|---|---|---|
| `RtpNetwork.PrefixSafety` | dpmp/link/rtp.py:123-163 | over every run with loss, duplication and reordering, and for either ACK rule: bytes returned plus bytes buffered are exactly the peer's chunks below the receive cursor, both ways round; parked chunks lie strictly above the cursor |
| `RtpNetwork.EndToEnd` | dpmp/link/rtp.py:123-163 | what one side has read is a prefix of the concatenated arguments of the other side's sendall calls |
| `RtpNetwork.RunSound` | dpmp/link/rtp.py:390-407 | every run keeps the joint invariant of both ends and the network: queue contiguous and filed, every packet in flight carries the chunk of its number, receivers hold a gap-free prefix |
| `RtpNetwork.AbsorbKeeps` | dpmp/link/rtp.py:398-407 | taking in any chunk that was really sent, early, late or repeated, extends the received prefix without gap or repetition and never moves the cursor back |
| `RtpEndpoint.DrainMeaning` | dpmp/link/rtp.py:401-403 | the drain loop stops at the first number that is not parked, appends exactly the parked chunks up to it in order and leaves the later ones parked |
| `RtpRetention.CumulativeRetains` | DPMP_PROTOCOL.md:145 | with the cumulative ACK every numbered chunk is delivered in order or still queued at its sender, in every run |
| `RtpRetention.ReceivedRetainsInOrder` | dpmp/link/rtp.py:393-394 | with the coded ACK the same holds in every run, lossy or not, in which no chunk arrives ahead of the cursor |
| `RtpRetention.ReceivedAckExact` | dpmp/link/rtp.py:394-417 | with the coded ACK the delivery of a chunk makes a permanent loss reachable, without a further early chunk, if and only if its number is above the cursor, which is the guard of the parking branch, and the sender's socket is open; also when a thread still holds the chunk at the cursor |
| `RtpRetention.AheadLoses` | dpmp/link/rtp.py:394-407 | the losing continuation itself: an early chunk arrives, all copies of the chunk at the cursor are dropped, the early ACK empties the queue |
| `RtpRetention.StrandedForever` | dpmp/link/rtp.py:489-506 | a chunk that is not parked, has no copy in flight or with a thread and will not be resent, because it has left the queue or the retransmission thread has ended with its socket, is never delivered, in every continuation under either rule |
| `RtpRetention.LostForever` | dpmp/link/rtp.py:390-417 | a chunk of which no copy exists stays lost and the receive cursor never passes it, in every continuation under either rule |
| `RtpRetention.LossFreeConservation` | dpmp/link/rtp.py:390-417 | on a network that reorders and duplicates but loses nothing every chunk is delivered, parked, in flight or with a thread about to send it, under either rule |
| `RtpRetention.DropAll` | dpmp/link/rtp.py:140-145 | the network can drop every copy of one chunk and change nothing else, so the loss above is reachable |
| `RtpTiming.StampExact` | dpmp/link/rtp.py:494-498 | in every run, as long as a packet is queued, its stamp is the time at which it was numbered or, later, at which it was last found overdue |
| `RtpTiming.ResentExact` | dpmp/link/rtp.py:489-506 | after a chunk is numbered at some time and anything else has happened: while it is not acknowledged, a pass of the retransmission thread sends one copy of its packet if more than the timeout has gone by since it was last sent, and none otherwise |
| `RtpTiming.NotYetResent` | dpmp/link/rtp.py:496-498 | a packet counts as last sent when it was numbered until a pass comes later than the timeout after that |
| `RtpEndpoint.DueExact` | dpmp/link/rtp.py:495-498 | in terms of the queued stamp: a pass resends and restamps a packet if and only if now less the stamp is more than the timeout |
| `RtpEndpoint.TickWindow` | dpmp/link/rtp.py:499-501 | the pass halves the window, down to its minimum, if and only if some stamp is that old |
| `RtpWindow.WindowBounds` | dpmp/link/rtp.py:130-139 | in every run the window stays within its limits and the queue is a contiguous range ending at the newest number; with one sending thread and an open socket the queue never exceeds the maximal window |
| `RtpWindow.WindowGrowsExactly` | dpmp/link/rtp.py:409-417 | in every run without a pass of the retransmission thread the window is what it was plus one for each chunk acknowledged since, up to the maximum, and nothing else widens it |
| `RtpWindow.CumulativeBoundsParked` | dpmp/protocol/constants.py:59 | with cumulative ACKs and one sender every parked chunk is below the cursor plus the maximal window |
| `RtpRecovery.DeliverableExact` | dpmp/link/rtp.py:390-417 | under either rule, from any sound state with the peer's socket open: some continuation delivers everything numbered so far if and only if no chunk is stranded, which with the sender's socket open means that none is lost; the same for continuations whose clock readings start at a given time and never go back |
| `RtpRecovery.CumulativeRecovers` | DPMP_PROTOCOL.md:145 | with the cumulative ACK, from every reachable state with both sockets open there is a continuation, whose clock readings start whenever one likes and never go back, after which the peer has every chunk numbered so far, nothing is queued and every waiting thread may transmit |
| `RtpBlocking.ReceivedBlocks` | dpmp/link/rtp.py:136-139 | with the coded ACK one sender on a network that loses nothing can come to a state in which both its chunks have arrived and have been acknowledged and the thread of the second still waits for the window |
| `RtpBlocking.BlockedForever` | dpmp/link/rtp.py:409-417 | if nothing but the newest chunk is queued in a window of one, or the window is capped at one, and no acknowledgement of the newest chunk is out, then whatever the network does and whatever is resent or read a waiting thread waits for ever, as long as neither end sends new data and the socket is not closed |
| `RtpBlocking.WaitsExact` | dpmp/link/rtp.py:136-139 | with the coded ACK, for all valid settings and every sound state with a waiting thread: as long as neither end sends new data and the sender's socket is not closed, some continuation lets the thread transmit if and only if it is not so blocked; or, once the peer has closed its socket, if and only if one of the acknowledgements still outstanding makes enough room; the same if no clock goes back |
| `RtpBlocking.AcksCompose` | dpmp/link/rtp.py:409-417 | of two ACKs only the larger one matters for queue and window, whatever their order |
| `RtpParking.InOrderParksNothing` | dpmp/link/rtp.py:398-407 | as long as no chunk arrives ahead of the cursor none is parked, under either rule |
| `RtpParking.ReceivedParksWithoutBound` | dpmp/link/rtp.py:406-407 | with the coded ACK and any maximal window of two or more, from every sound state with open sockets and one sending thread that can go on there is, for every n, a run of one sender that parks n chunks while the chunk at the cursor is lost |
| `RtpParking.ReceivedParksFromStart` | dpmp/link/rtp.py:398-417 | from the start there is, for every n, a run of one sender after which exactly n chunks are parked while chunk 0 is lost |
| `RtpParking.PeerAnswers` | dpmp/link/rtp.py:133-135 | a data packet of the peer acknowledges all that the peer has in order: with everything numbered delivered, one chunk from the peer empties the queue |
| `RtpReading.ReadExact` | dpmp/link/rtp.py:158-163 | a read returns as many bytes as were asked for, or all there are, in order and without loss |
| `RtpReading.CumulativeReads` | dpmp/link/rtp.py:147-163 | with the cumulative ACK, from every reachable state with both sockets open, some continuation gives the reader exactly the bytes of all chunks numbered so far |
| `RtpReading.BlocksExactly` | dpmp/link/rtp.py:150-159 | in every run a read goes on if and only if some byte of the chunks below the cursor has not been read, or a FIN has been taken in |
| `RtpReading.EndIsReal` | dpmp/link/rtp.py:158-159 | in every run a reader that is told of the end has a peer that has closed its socket |
| `RtpEndpoint.Cut` | dpmp/link/rtp.py:126-129 | the chunking loop: chunks are non-empty, at most the payload limit, and concatenate to the data |
| `RtpEndpoint.UdpReliableSocket.NumberChunk` | dpmp/link/rtp.py:130-135 | the new state is Number of the old one: next number taken, packet queued under it with its time |
| `RtpEndpoint.UdpReliableSocket.OnPacket` | dpmp/link/rtp.py:346-366 | the new state and the packets sent are Receive and Replies of the old state, under either ACK rule; nothing happens on a closed socket |
| `RtpEndpoint.UdpReliableSocket.OnData` | dpmp/link/rtp.py:390-407 | acknowledges, replies, then delivers, drains, parks or ignores, as the receive function says |
| `RtpEndpoint.UdpReliableSocket.OnAck` | dpmp/link/rtp.py:409-417 | exactly the packets below the ACK leave the queue and the window grows by their number, capped |
| `RtpEndpoint.UdpReliableSocket.RetransmitTick` | dpmp/link/rtp.py:489-506 | a queued packet is resent and restamped if and only if more than the timeout has passed since its stamp, and the window is halved, with its floor, if there was one |
| `RtpEndpoint.UdpReliableSocket.Recv` | dpmp/link/rtp.py:158-163 | returns the front of the buffer and removes just that |
| `JsonGrammar.DecodeDenoted` | kotlin/src/main/kotlin/io/dpmp/protocol/Json.kt:103-227 | every text that sections 2 to 7 of RFC 8259 derive for an object, with any insignificant white space and any escapes, is decoded to that object, where of a repeated key the last value stands in the place of the first and an integer of more than 64 bits becomes null; so to that object itself if its keys are distinct and its integers have 64 bits; a number with a fraction or an exponent denotes its own text, of which the platform makes a double |
| `JsonRoundTrip.EncodeDenotes` | kotlin/src/main/kotlin/io/dpmp/protocol/Json.kt:19-97 | what the printer makes of any object is a text of that grammar and denotes what the object normally becomes: the object with doubles that are not finite replaced by null and integral ones below 10^15 by integers |
| `JsonRoundTrip.RoundTrip` | kotlin/src/main/kotlin/io/dpmp/protocol/Json.kt:19-107 | decode(encode(v)) is what v normally becomes, for every object nested from objects with distinct keys, lists, arbitrary 16-bit strings, 64-bit integers, doubles, booleans and null, whatever text follows it; without doubles that is v |
| `JsonRoundTrip.DecodeStable` | kotlin/src/main/kotlin/io/dpmp/protocol/Json.kt:103-227 | whatever the text, the decoded fields have distinct keys and 64-bit integers at every depth; encoding and decoding them again gives what they normally become, and doing so once more changes nothing |
| `JsonGrammar.QuotedRead` | kotlin/src/main/kotlin/io/dpmp/protocol/Json.kt:173-210 | a string of the grammar, escaped in whatever way, is read as the units it denotes and the cursor stops just behind it |
| `JsonRoundTrip.IntegerPrinted` | kotlin/src/main/kotlin/io/dpmp/protocol/Json.kt:29-34 | a printed integer is an integer of the grammar, without leading zeros, that denotes it |
| `JsonRoundTrip.FloatPrinted` | kotlin/src/main/kotlin/io/dpmp/protocol/Json.kt:44-52 | what is printed for a double denotes null, an integer or that double, as it is not finite, integral below 10^15 or any other |
| `JsonGrammar.NumberRead` | kotlin/src/main/kotlin/io/dpmp/protocol/Json.kt:212-226 | an integer of the grammar is read as what it denotes, or as null if that has more than 64 bits, and nothing behind it is consumed |
| `JsonGrammar.FloatRead` | kotlin/src/main/kotlin/io/dpmp/protocol/Json.kt:212-226 | a number with a fraction or an exponent is taken whole and nothing behind it is consumed |
| `JsonGrammar.ValueRead` | kotlin/src/main/kotlin/io/dpmp/protocol/Json.kt:117-171 | every stretch of text that denotes a value is read as that value, with repeated keys merged and wide integers null at every depth, whatever blanks precede it |
| `JsonRoundTrip.ValueSane` | kotlin/src/main/kotlin/io/dpmp/protocol/Json.kt:117-171 | every value the parser returns has distinct keys at every depth and integers in range |
| `JsonText.ParseValue` | kotlin/src/main/kotlin/io/dpmp/protocol/Json.kt:117-129 | totality: for every text and cursor the mutually recursive parser terminates with the cursor within the text and not before where it was |
| `JsonText.ParseObject` | kotlin/src/main/kotlin/io/dpmp/protocol/Json.kt:137-155 | the cursor ends within the text, past the opening brace |
| `JsonText.ParseString` | kotlin/src/main/kotlin/io/dpmp/protocol/Json.kt:173-210 | the cursor ends within the text and never moves back, also on an unterminated string or a truncated escape |
| `JsonTolerance.MergeMeaning` | kotlin/src/main/kotlin/io/dpmp/protocol/Json.kt:138-148 | of the fields of an object each key comes out once, with its last value, in the order of the first occurrences |
| `JsonTolerance.EscapesExact` | kotlin/src/main/kotlin/io/dpmp/protocol/Json.kt:80-94 | a unit is printed as it is if and only if it is no control unit, quote or backslash; by a two-unit escape if and only if there is one; by its number otherwise |
| `JsonTolerance.UnknownEscape` | kotlin/src/main/kotlin/io/dpmp/protocol/Json.kt:184-203 | an escape that the grammar does not know stands for the unit behind the backslash |
| `JsonTolerance.BrokenUnicode` | kotlin/src/main/kotlin/io/dpmp/protocol/Json.kt:193-200 | an escape by number adds nothing if fewer than four units are left for it, or if a later one of the four is no hexadecimal digit |
| `JsonTolerance.Unterminated` | kotlin/src/main/kotlin/io/dpmp/protocol/Json.kt:178-208 | a string that nothing ends goes on to the end of the text |
| `JsonTolerance.HalfWord` | kotlin/src/main/kotlin/io/dpmp/protocol/Json.kt:124-135 | what starts like true, false or null counts as that, but only the whole word is consumed |
| `JsonTolerance.PlusRead` | kotlin/src/main/kotlin/io/dpmp/protocol/Json.kt:214-225 | a plus sign before an integer changes nothing |
| `JsonTolerance.ListCutShort` | kotlin/src/main/kotlin/io/dpmp/protocol/Json.kt:162-169 | a list ends where neither a comma nor the bracket follows an item, and keeps the items so far |
| `JsonTolerance.ObjectCutShort` | kotlin/src/main/kotlin/io/dpmp/protocol/Json.kt:142-153 | an object ends where neither a comma nor the brace follows a field, and keeps the fields so far |
| `JsonTolerance.MissingColon` | kotlin/src/main/kotlin/io/dpmp/protocol/Json.kt:144-148 | the colon between a name and its value may be missing |
| `JsonTolerance.NotAnObject` | kotlin/src/main/kotlin/io/dpmp/protocol/Json.kt:103-108 | a text whose first unit, white space apart, is no opening brace decodes to no fields |
| `JsonTolerance.SpacesSkipped` | kotlin/src/main/kotlin/io/dpmp/protocol/Json.kt:113-115 | exactly 28 of the 16-bit units count as white space |
| `JsonMachine.Printer.WriteValue` | kotlin/src/main/kotlin/io/dpmp/protocol/Json.kt:25-42 | appends exactly the value's text to the string builder |
| `JsonMachine.Printer.WriteObject` | kotlin/src/main/kotlin/io/dpmp/protocol/Json.kt:54-65 | the loop over a map appends exactly the object's text |
| `JsonMachine.Printer.WriteArray` | kotlin/src/main/kotlin/io/dpmp/protocol/Json.kt:67-76 | the loop over a list appends exactly the array's text |
| `JsonMachine.Printer.WriteString` | kotlin/src/main/kotlin/io/dpmp/protocol/Json.kt:78-97 | the loop over the characters appends exactly the quoted and escaped text |
| `JsonMachine.Encode` | kotlin/src/main/kotlin/io/dpmp/protocol/Json.kt:19-23 | the printer's output is the text function of the round trip |
| `JsonMachine.Parser.ParseValue` | kotlin/src/main/kotlin/io/dpmp/protocol/Json.kt:117-129 | the cursor machine computes the parsing function: same value, same final cursor |
| `JsonMachine.Parser.ParseFields` | kotlin/src/main/kotlin/io/dpmp/protocol/Json.kt:142-154 | the object loop, last value of a repeated key winning in the place of the first, computes the parsing function |
| `JsonMachine.Parser.ParseItems` | kotlin/src/main/kotlin/io/dpmp/protocol/Json.kt:162-169 | the array loop computes the parsing function |
| `JsonMachine.Parser.ParseString` | kotlin/src/main/kotlin/io/dpmp/protocol/Json.kt:173-210 | the escape loop computes the parsing function |
| `JsonMachine.Parser.ParseNumber` | kotlin/src/main/kotlin/io/dpmp/protocol/Json.kt:212-226 | the token loop computes the parsing function, whose floating tokens stand for what the platform makes of them |
| `JsonMachine.Decode` | kotlin/src/main/kotlin/io/dpmp/protocol/Json.kt:103-108 | decode on any text is the function of the round trip and the stability theorem |
| `RoomRuns.AlwaysSturdy` | server/信令服务器.py:406-855 | in every run of handlers, cleaning passes and restarts from any earlier state file, whatever ids joins hand out: rooms and passwords have the same keys, rooms have 1 to the maximal number of members, no device is in a room twice, every indexed id is a member of its room, connections have mappings and mappings have times |
| `RoomRuns.AlwaysConsistent` | server/信令服务器.py:406-855 | if moreover no join hands out an id in use in another room, every member is indexed in its room |
| `RoomRuns.MappingLifetime` | server/信令服务器.py:840-847 | after a cleaning pass in any reachable state, whatever the order of removals, no mapping without a connection is older than the grace period, and of the members that stay only such mappings are dropped |
| `RoomGuests.AlwaysViewed` | server/信令服务器.py:406-855 | in every run, restarts included and whatever ids joins hand out: seat, mappings, connection and time of any one identifier are those that the events so far, followed for that identifier alone, have given it |
| `RoomGuests.StaleHeard` | server/信令服务器.py:834-837 | in every reachable state the stale members are exactly those whose last join, heartbeat, hello, mapping registration or restart was before the deadline |
| `RoomGuests.CleaningHeard` | server/信令服务器.py:833-839 | in every reachable state a cleaning pass removes a member if and only if it was last heard, in that sense, before the deadline, and leaves every other seat as it was |
| `RoomGuests.HeartbeatMoves` | server/信令服务器.py:537-547 | after a heartbeat in any reachable state its member has the sender's address |
| `RoomSafety.JoinExact` | server/信令服务器.py:406-511 | a join leaves a consistent state consistent unless it passes the gate, finds a place once its device's other members have gone, and the id it is given is indexed in another room; then it does not |
| `RoomSafety.JoinSturdy` | server/信令服务器.py:406-511 | whatever id it hands out, a join keeps everything but the index of other rooms' members |
| `RoomSafety.ForeignReuseBreaks` | server/信令服务器.py:450-453 | a concrete join with a reuse id of another room after which the state is inconsistent |
| `RoomSafety.JoinGuarded` | server/信令服务器.py:418-440 | exactly who passes the password gate, and that a refusal there changes nothing |
| `RoomSafety.JoinIdentity` | server/信令服务器.py:455-482 | after a join the device has exactly one member in the room, and keeps its id unless it asks for another |
| `RoomSafety.JoinOtherRooms` | server/信令服务器.py:442-511 | a join changes no other room |
| `RoomJoins.RefusalExact` | server/信令服务器.py:425-499 | each of the four refusals is the answer exactly in its own case: an open room and a password, a protected room and none, a wrong one, no place left |
| `RoomJoins.RoomCreated` | server/信令服务器.py:420-424 | the first to join a room sets its password, or leaves it open |
| `RoomJoins.JoinReports` | server/信令服务器.py:510-515 | the answer names the other members of the room as it then is, the members that have gone, and whether the room is open |
| `RoomJoins.JoinSpares` | server/信令服务器.py:451-508 | no join changes the seat of another device's member of the room |
| `RoomJoins.ReuseExact` | server/信令服务器.py:451-464 | the id asked for is given if and only if it is neither empty, longer than 64 characters nor that of another device's member of the room; or if its own device has it there already |
| `RoomRuns.PasswordsStable` | server/信令服务器.py:419-433 | while a room lives no handler and no cleaning pass changes its password |
| `RoomRuns.IndexIsMembership` | server/信令服务器.py:509-510 | in every run without such a join an id is indexed in a room if and only if it is a member of it |
| `RoomSafety.RemoveEachIsAll` | server/信令服务器.py:597-613 | removing members one by one, in any order, is removing them at once, emptied rooms and their passwords included |
| `RoomSafety.RemoveSturdy` | server/信令服务器.py:597-613 | leaving keeps everything but the index's other direction, also after an id was handed out twice |
| `RoomSafety.CleaningExact` | server/信令服务器.py:833-839 | a cleaning pass, in any order of removals, removes exactly the members not heard of since the deadline and changes no other |
| `RoomSafety.RemoveEachTables` | server/信令服务器.py:608-613 | whatever the state, members that leave take their index entry, mappings, connection and times with them and nobody else's |
| `RoomSafety.RestartRestores` | server/信令服务器.py:153-232 | loading what was saved restores rooms, members, index and passwords; only heartbeat times are new and connections gone |
| `RoomSafety.RestartSturdy` | server/信令服务器.py:187-232 | loading a saved sturdy state gives a sturdy state |
| `RoomSections.EnteringExact` | server/信令服务器.py:442-511 | the second section of a join keeps the tables linked if and only if it does not take a place under an id of another room; or, when its room has been destroyed in between, if its id, unless the lost dictionary has no place for it, has meanwhile become a member of a new room of that name, and its device's other members in the lost dictionary of no room |
| `RoomSections.FindsItsRoom` | server/信令服务器.py:419-442 | whatever happens between the two sections, the second one finds its room if and only if at no point the room's last members have left |
| `RoomSections.DestroysExact` | server/信令服务器.py:597-607 | an event destroys a room if and only if it takes its last members away; an empty room that a join has just created is never destroyed |
| `RoomSections.InterleavedLinked` | server/信令服务器.py:406-511 | in every interleaving of sections and handlers in which each second section meets that condition the tables stay linked |
| `RoomSections.RoomLostBetween` | server/信令服务器.py:419-510 | an interleaving after which an id is indexed in a room that does not exist |
| `RoomSections.ReloadExact` | server/信令服务器.py:153-216 | a state file written at any moment of any interleaving reloads to linked tables if and only if no join then between its sections held an empty room |
| `RoomSections.EmptyRoomReloaded` | server/信令服务器.py:153-216 | a state file written while a newcomer is between its sections brings its room back empty, and the room stays in every run after the restart in which nobody joins it |
| `RoomRuns.EmptyRoomStays` | server/信令服务器.py:597-607 | no handler, cleaning pass or restart takes away an empty room that no join holds, until somebody joins it |
| `RoomServer.SignalServer.ChooseId` | server/信令服务器.py:443-465 | the id given again is the one asked for if the rule accepts it, else one of the device's, else none |
| `RoomServer.SignalServer.DropDuplicates` | server/信令服务器.py:469-484 | exactly the device's other members leave the room, the index and the connection tables |
| `RoomServer.SignalServer.OpenGate` | server/信令服务器.py:419-440 | the first locked section: password check and room creation |
| `RoomServer.SignalServer.HandleJoin` | server/信令服务器.py:406-511 | the whole join does to the seven tables, and answers, what the join function says |
| `RoomServer.SignalServer.RemoveMember` | server/信令服务器.py:597-613 | removes the id from all tables and the room and password with the last member |
| `RoomServer.SignalServer.HandleHb` | server/信令服务器.py:537-547 | updates heartbeat and address of an indexed member and nothing else; what that means for the member is the subject of CleaningHeard and HeartbeatMoves |
| `RoomServer.SignalServer.HandleUdpHello` | server/信令服务器.py:663-682 | records the mapping, for members and strangers, and touches a member |
| `RoomServer.SignalServer.HandleTcpReg` | server/信令服务器.py:773-794 | records mapping, time and connection and hands back the replaced connection |
| `RoomServer.SignalServer.HandleTcpEnd` | server/信令服务器.py:816-824 | a connection that ends is forgotten only if it is still the recorded one, and its mapping's time restarts |
| `RoomServer.SignalServer.CleanupPass` | server/信令服务器.py:833-847 | the two loops of a pass remove each stale member once, in some order, and then the expired mappings, in every state |
| `LinkSafety.AlwaysOwned` | dpmp/link/manager.py:805-859 | over every sequence of events: an entry holds a socket exactly when connected, no socket is held twice, none that is held was closed, and every socket taken over is held or closed |
| `LinkSafety.StepOwned` | dpmp/link/manager.py:265-290 | each single event keeps that, whatever the own id and preference; so overwriting a failed entry leaks nothing |
| `LinkSafety.ResetClosesEverything` | dpmp/link/manager.py:94-105 | stopping or a change of network at any moment leaves every socket taken so far closed |
| `LinkStages.AlwaysViewed` | dpmp/link/manager.py:265-290 | in every run what the table knows of a peer, and whether an attempt is under way, a connection up or neither, is what the events so far say when followed for that peer alone |
| `LinkStages.AlwaysNamed` | dpmp/link/manager.py:687-699 | in every run the own identifier is the one that came last |
| `LinkStages.AttemptExact` | dpmp/link/manager.py:265-275 | after any run a request enters a fresh connection and starts a punch task if and only if none is under way or up and it names a peer, a known one unless the server introduces it; otherwise it changes no connection |
| `LinkStages.RetryAfterFailure` | dpmp/link/manager.py:779-784 | after any run and a failure, of the task, reported by the peer or found by the keepalive loop, the next such request starts anew |
| `LinkStages.RefusesExact` | dpmp/link/manager.py:466-476 | an attempt or a connection refuses requests until a failure, the peer's leaving or a reset has come since, and no longer |
| `LinkSafety.ClaimExact` | dpmp/link/manager.py:487-504 | an inbound connection goes to the one member that published its very address; if none did, to the one member at that host; if there is none, to nobody |
| `LinkSafety.HostExact` | dpmp/link/manager.py:497-499 | the host of an address is what comes before its last colon, or all of it |
| `LinkAgreement.KeepsTheWinner` | dpmp/link/manager.py:505-525 | while nothing fails, whatever else happens, an end keeps the first preferred socket offered, or the first if none is preferred, and closes all others |
| `LinkAgreement.PreferenceAgrees` | dpmp/link/manager.py:687-699 | both ends prefer a connection if and only if the end with the larger id opened it |
| `LinkAgreement.BothEndsAgree` | dpmp/link/manager.py:805-825 | with exactly one connection opened by the larger id, in every order of arrival at either end and any interleaving with other events short of a failure, both ends finish with it and have closed every other |
| `LinkAgreement.SimultaneousOpen` | dpmp/link/manager.py:505-525 | the case of one connection from each side, from empty tables |
| `LinkAgreement.AgreementExact` | dpmp/link/manager.py:687-699 | for distinct non-empty ids the ends agree in every order of arrival if and only if there is one connection or exactly one was opened by the larger id |
| `LinkAgreement.LessTotal` | dpmp/link/manager.py:692-699 | of two distinct ids exactly one is the smaller |
| `LinkAgreement.LessExact` | dpmp/link/manager.py:692-699 | the order of ids is that of the first difference, a shorter id before its extensions |
| `LinkAgreement.UnnamedStays` | dpmp/link/manager.py:689-699 | a connection that comes up before the own id is known is never given up for another one, whatever id comes later |
| `LinkManager.Links.TakeOver` | dpmp/link/manager.py:807-825 | a new socket is closed at once, or replaces and closes the old one, as the offer rule says |
| `LinkManager.Links.InstallSocket` | dpmp/link/manager.py:805-825 | an own connection is offered with the outbound preference |
| `LinkManager.Links.OnInbound` | dpmp/link/manager.py:478-525 | an accepted connection is offered to the member it matches, or left to the caller |
| `LinkManager.Links.Claimant` | dpmp/link/manager.py:487-504 | an exact address match goes before a match of the host; none only if there is neither |
| `LinkManager.Links.OnPunchGo` | dpmp/link/manager.py:466-476 | records the member and enters a connecting entry, with a punch task, unless one is under way or connected |
| `LinkManager.Links.OnPeerTcpReady` | dpmp/link/manager.py:265-275 | the same for a known member only |
| `LinkManager.Links.OnPeerPunchFail` | dpmp/link/manager.py:289-293 | closes the socket, if any, and marks the entry failed |
| `LinkManager.Links.MarkFailed` | dpmp/link/manager.py:779-787 | marks an entry failed that is not connected, and says whether; that a request then starts anew is RetryAfterFailure |
| `LinkManager.Links.OnDead` | dpmp/link/manager.py:901-911 | kills the entry only if it is still the very object found dead |
| `LinkManager.Links.OnMemberLeave` | dpmp/link/manager.py:448-453 | removes member and entry and closes the socket |
| `LinkManager.Links.CloseEverything` | dpmp/link/manager.py:372-376 | closes every held socket and empties the table |
| `KeepaliveSearch.HistoryBounds` | dpmp/link/path.py:31-73 | after every history of successes and failures the interval lies between floor and role cap, at most the interval that failed last, and before the third failure at least the one that succeeded last |
| `KeepaliveSearch.HistoryDirection` | dpmp/link/path.py:48-73 | along every history a success never shortens the interval and a failure never lengthens it |
| `KeepaliveSearch.ProbeBounded` | dpmp/link/path.py:48-73 | one probe keeps the bounds; from the third failure on a failure puts the interval at the floor |
| `KeepaliveSearch.AfterRemembers` | dpmp/link/path.py:48-65 | upper and lower bound are the intervals that last succeeded and last failed |
| `KeepaliveSearch.Halves` | dpmp/link/path.py:63-73 | a failure above a success, if at most the second, leads exactly half way back to that success, rounded down; one before any success, and every one from the third on, to the floor |
| `KeepaliveSearch.Rises` | dpmp/link/path.py:48-61 | a success freezes the interval exactly if it is stable or, after at least five probes, failures are more than a twentieth of the probes plus one; otherwise it grows by twice the role's factor up to the cap or, below a failure, half way to it if that is less, and is stable then |
| `KeepaliveSearch.StableExact` | dpmp/link/path.py:48-66 | after every history the search is stable exactly when something has failed and the last probe succeeded |
| `KeepaliveSearch.FailureCourse` | dpmp/link/path.py:63-73 | the same of a failure after every history, in terms of the intervals tried |
| `KeepaliveSearch.SuccessCourse` | dpmp/link/path.py:48-61 | the same of a success: growth while nothing has failed, one rise after a failure, none after a success since |
| `KeepaliveSearch.DefaultBounds` | dpmp/protocol/constants.py:126-127 | the default bounds in seconds: 30 to 3600 for TCP, from 15 and for the safe path up to 60 for others; the first interval is twice the floor |
| `KeepaliveSearch.Multiplies` | dpmp/link/path.py:56-61 | with no failure the interval after n successes is the start value times the n-th power of twice the role's factor, capped, wherever that is a whole number, as for all default roles (2, 3 and 8) |
| `KeepaliveSearch.DefaultGrowth` | dpmp/protocol/constants.py:126-128 | with the default settings the hot path's interval doubles, the safe one's triples and a loose one's grows eightfold with every success up to the cap, until something fails |
| `KeepaliveSearch.DefaultIsSensible` | dpmp/protocol/constants.py:126-129 | the default settings meet the assumptions of these theorems |
| `KeepaliveSearch.KeepaliveScheduler.OnSuccess` | dpmp/link/path.py:48-61 | the object's update is the search function's success step |
| `KeepaliveSearch.KeepaliveScheduler.OnFailure` | dpmp/link/path.py:63-73 | the object's update is the search function's failure step, which FailureCourse pins down |
| `PathLadder.LadderHolds` | dpmp/link/path.py:118-180 | in every run at most one hot and one safe path, every live path's search of its own role and protocol and within bounds; without removals one hot, then one safe, then only loose ones |
| `PathLadder.RegradingRestores` | dpmp/link/path.py:133-145 | after a regrading or a new registration, whatever came before, roles follow the stable order by priority and round-trip time and the shape is whole |
| `PathLadder.RegradeGraded` | dpmp/link/path.py:133-141 | regrading gives every live path the role of its place in that order |
| `PathLadder.GradedShaped` | dpmp/link/path.py:133-141 | roles that follow the order always form the shape |
| `PathLadder.PromoteSingle` | dpmp/link/path.py:161-180 | promotion keeps at most one of each role, and keeps a whole shape whole |
| `PathLadder.RemoveShapedExact` | dpmp/link/path.py:147-149 | removal keeps the shape unless it takes the hot path while a safe one lives, or the safe one while a loose one lives |
| `PathLadder.PromoteGradedExact` | dpmp/link/path.py:163-179 | promotion keeps a graded ladder graded if and only if no loose path is before the last loose one in the order |
| `PathLadder.PromotionUnsorts` | dpmp/link/path.py:170-179 | four paths registered best first, and the promotion after which the roles no longer follow the order |
| `PathCourse.BestAfterRegrading` | dpmp/link/path.py:133-141 | after a regrading or a new registration no live path has a better priority than the hot one, none of the same priority is faster and of the equally fast none came first; the same of the safe path among the others |
| `PathCourse.DefaultPrefersTcp` | dpmp/protocol/constants.py:129 | by default the hot path is a TCP one if any live path is, and else a UDP one if any is |
| `PathCourse.PromoteKeeps` | dpmp/link/path.py:161-180 | promotion ends exactly the hot path, and a path whose role stays keeps its search |
| `PathCourse.RegisterExact` | dpmp/link/path.py:118-131 | a registration of a live id changes nothing; any other leaves a live, unprobed path as announced in the dead one's place or at the end, and the others as they were but for their roles |
| `PathCourse.RemoveExact` | dpmp/link/path.py:147-149 | removal takes out that id and leaves the others as they are and in order |
| `PathCourse.ProbedExact` | dpmp/link/manager.py:877-894 | a probe changes the search of its path if that lives, and nothing else |
| `PathScheduler.PlaceIsDeserved` | dpmp/link/path.py:136-141 | the role by index in the sorted list is the role by rank |
| `PathScheduler.PeerPathScheduler.SortAlive` | dpmp/link/path.py:135-136 | the live paths, each once, in the stable order |
| `PathScheduler.PeerPathScheduler.Regrade` | dpmp/link/path.py:133-141 | the loop of role changes in place amounts to the regrading function |
| `PathScheduler.PeerPathScheduler.Register` | dpmp/link/path.py:118-131 | reuses a live path, or enters a new one and regrades |
| `PathScheduler.PeerPathScheduler.Remove` | dpmp/link/path.py:147-149 | takes out the path of that id and keeps the others in order |
| `PathScheduler.PeerPathScheduler.PromoteOnHotFailure` | dpmp/link/path.py:161-180 | the three moves amount to the promotion function, and the id returned is the old safe path's |
| `PathScheduler.PeerPathScheduler.OnProbe` | dpmp/link/manager.py:877-894 | a probe advances the search of a live path and touches nothing else |
| `PathScheduler.Path.SetRole` | dpmp/link/path.py:91-94 | a new role comes with a fresh search for it |
| `ClockSkew.SkewBound` | dpmp/link/rtp.py:258-289 | in every run, with any delays, losses, repetitions and reorderings, the punch instants of the two ends set by a version 2 commit differ by less than half the smallest sampled round-trip time plus rounding (1.5 ms below, 1 ms above) |
| `ClockSkew.PunchInstants` | dpmp/link/rtp.py:280-302 | where the instants lie, in real time and in every run: the initiator's is the delay after the end of its series, up to the rounding of its clock; the responder's, set by a version 2 commit, is at most half the smallest sampled round-trip time from there, plus rounding; one set by a version 1 commit is the delay after the commit was taken |
| `ClockSkew.FiresExact` | dpmp/link/rtp.py:455-465 | in every reachable state a version 2 commit on its way fires if and only if its number is above those of all that have fired; a version 1 commit always does |
| `ClockSkew.CommitSucceeds` | dpmp/link/rtp.py:229-304 | from every reachable state and for any delays an exchange can succeed: one more round, ended at its real time with its delay, and one more firing, of version 2 if the peer's version is at least that |
| `ClockSkew.SampleAccurate` | dpmp/link/rtp.py:436-448 | one exchange, after any delays, measures the clock difference up to half its round-trip time and rounding, and the round-trip time itself up to a millisecond |
| `ClockSkew.FiresOnce` | dpmp/link/rtp.py:451-462 | the responder fires at most once per version 2 commit, in strictly increasing order of ids, and only for commits that were made, numbered 1, 2, 3 and so on |
| `ClockSkew.RunSound` | dpmp/link/rtp.py:229-295 | every run keeps: packets carry the readings of their instants, replies and samples are accurate, commits match their rounds |
| `ClockSync.Best` | dpmp/link/rtp.py:274 | the chosen sample is one of the samples and none has a smaller round-trip time |
| `ClockSync.BestIsFirst` | dpmp/link/rtp.py:274 | of several samples with that round-trip time it is the first |
| `ClockSeries.SamplesExact` | dpmp/link/rtp.py:258-269 | whatever an end has done: its samples are those of the answers that came in time in the present series, in order, and no others |
| `ClockSeries.AnswerExact` | dpmp/link/rtp.py:446-449 | whatever an end has done: the reply kept for a request is that of the last answer while the request was open |
| `ClockSeries.SeriesEnds` | dpmp/link/rtp.py:271-288 | a series with a timely answer makes the next commit: own instant the delay from now, the other end's the same moment by an exchange with the smallest round-trip time; one without makes none; either way the next series may begin |
| `ClockSeries.VersionExact` | dpmp/link/rtp.py:424-442 | whatever an end has done: its commit is of version 2 if and only if it has taken a request or an acknowledgement of version 2 or higher |
| `ClockSeries.CommitExact` | dpmp/link/rtp.py:455-465 | whatever an end has done: a version 2 commit fires if and only if none of its number or a higher one was taken before; a version 1 commit fires its delay after it was taken |
| `ClockSeries.CommitInstant` | dpmp/link/rtp.py:461-462 | a version 2 firing is at the commit's instant less the offset of the last series of the end's own, or at it if there was none |
| `ClockSync.SyncPeer.BestSample` | dpmp/link/rtp.py:274 | the search through the samples finds it |
| `ClockSync.SyncPeer.OnSyncAck` | dpmp/link/rtp.py:436-448 | an acknowledgement counts only while its request is pending; a repeated one replaces the reply |
| `ClockSync.SyncPeer.EndWait` | dpmp/link/rtp.py:258-269 | a reply becomes a sample if the wait ended in time; request and reply are forgotten in any case |
| `ClockSync.SyncPeer.FinishSync` | dpmp/link/rtp.py:271-304 | commit and own instant from the best sample, version 2 if the peer is known to speak it; where the instants then lie is PunchInstants |
| `ClockSync.SyncPeer.OnSyncCommit` | dpmp/link/rtp.py:451-465 | version 2 commits not above the last id are dropped, others fire at their instant less the own offset, version 1 fires after its delay |
| `CandidateRace.RaceSafe` | dpmp/link/puncher.py:109-153 | in every interleaving no more workers are past the semaphore than it admits, at most one result is recorded, and once all workers are done every connected socket but the winner is closed |
| `CandidateRace.WinnerStays` | dpmp/link/puncher.py:135-143 | a recorded winner and a returned result never change |
| `CandidateRace.SomebodyWins` | dpmp/link/puncher.py:133-143 | once all workers are done there is a winner if and only if any connection came up |
| `CandidateRace.NoneStartsLate` | dpmp/link/puncher.py:124-130 | once the flag is set no worker begins to connect any more |
| `CandidateRace.NoneQueuesLate` | dpmp/link/puncher.py:124-126 | once the flag is set no worker that has not looked at it yet queues for the semaphore |
| `CandidateRace.SomebodyMoves` | dpmp/link/puncher.py:126-132 | as long as some worker is not done some worker can go on: the semaphore never makes all of them wait |
| `CandidateRace.RaceEnds` | dpmp/link/puncher.py:119-143 | no interleaving of n workers has more than 6n steps of theirs |
| `CandidateRace.LeakStepExact` | dpmp/link/puncher.py:135-153 | in every reachable state a step leaks a socket if and only if it is a worker's settling while the flag is not yet set and the caller has stopped waiting |
| `CandidateRace.LeakExact` | dpmp/link/puncher.py:135-153 | in every interleaving a socket ends up open in nobody's hands if and only if its worker settled at such a moment |
| `CandidateRace.LateWinnerLeaks` | dpmp/link/puncher.py:150-153 | for any number of candidates and any limit, an interleaving in which all workers are done and the winner is leaked |
| `CandidateList.BuildCandidates` | dpmp/link/puncher.py:155-188 | the loops with their set of seen addresses produce the offers without repetitions |
| `CandidateList.FirstsMeaning` | dpmp/link/puncher.py:155-188 | nothing twice, nothing lost, nothing added, each in the place of its first offer |
| `CandidateList.OfferedExact` | dpmp/link/puncher.py:156-184 | the candidates are exactly the local addresses on the peer's own port, the public address if it can be read and, only if not, the ports from 1 to 65535 at most two away from the peer's UDP port at its IPv4 address |
| `CandidateList.OfferedInOrder` | dpmp/link/puncher.py:159-184 | local addresses come first, as the peer lists them, then the public one or the guesses, the nearest ports first |
| `Addresses.RoundTripExact` | dpmp/protocol/addr.py:7-39 | for every port, an address is read back from its text if and only if the host has no colon, leading bracket or leading space, or has a colon and no closing bracket |
| `Addresses.IntReadBack` | dpmp/protocol/addr.py:28-37 | every integer is read back from its decimal text |
| `Addresses.ReadIsReadable` | dpmp/protocol/addr.py:14-39 | what is read from an unbracketed text, or is an IPv6 address, survives another round |
| `AddressReading.ParseExact` | dpmp/protocol/addr.py:14-39 | a text is read as a given host and port if and only if, spaces at its ends apart, it is that host in brackets, or without a colon, a colon and a text of that integer |
| `AddressReading.NumeralExact` | dpmp/protocol/addr.py:28-37 | a text is read as a number if and only if it is digits with single underscores between them at most, and then as what the digits say |
| `AddressReading.SignsRead` | dpmp/protocol/addr.py:28-37 | a sign and spaces around it may come before such digits |
| `AddressReading.StripExact` | dpmp/protocol/addr.py:18 | stripping takes all spaces off both ends and nothing else |
| `WireFormat.PackUnpack` | dpmp/protocol/codec.py:23-94 | for every layout packing succeeds exactly on the fields' ranges, and unpacking then gives the values back |
| `WireFormat.UnpackPack` | dpmp/protocol/codec.py:23-94 | for every layout unpacking succeeds exactly on its size, and packing then gives the bytes back |
| `WireFormat.PacketRead` | dpmp/protocol/codec.py:29-45 | a packet's header and payload are read back from its bytes; it can be packed exactly if type, numbers and payload length fit |
| `WireFormat.BigEndian` | dpmp/protocol/codec.py:13-20 | byte i of a field is the i-th digit of its value to the base 256, the most significant first |
| `WireFormat.LayoutSizes` | dpmp/protocol/codec.py:13-20 | the header has 12 bytes and the five payloads have 9, 25, 16, 8 and 16 |
| `KotlinCodec.WritersAgree` | kotlin/src/main/kotlin/io/dpmp/protocol/Codec.kt:31-138 | masking and narrowing writes the bytes of the other implementation if and only if every value is in its field's range |
| `KotlinCodec.ReadersAgreeExactly` | kotlin/src/main/kotlin/io/dpmp/protocol/Codec.kt:45-138 | the readers agree on a payload if and only if it is too short, or has just the layout's size and no eight-byte field has its highest bit set |
| `KotlinCodec.OwnRoundTrip` | kotlin/src/main/kotlin/io/dpmp/protocol/Codec.kt:31-138 | signed eight-byte values and unsigned others are read back from what was written |
| `KotlinCodec.SignedBack` | kotlin/src/main/kotlin/io/dpmp/protocol/Codec.kt:45-53 | narrowing the low bytes gives a value in the signed range back |
| `KotlinCodec.ByteBuffer.Put` | kotlin/src/main/kotlin/io/dpmp/protocol/Codec.kt:35-41 | writes the low bytes big-endian at the cursor and moves it, leaving what was written before |
| `KotlinCodec.ByteBuffer.Get` | kotlin/src/main/kotlin/io/dpmp/protocol/Codec.kt:47-52 | reads the bytes at the cursor as a signed integer and moves it |
| `KotlinCodec.PackHeader` | kotlin/src/main/kotlin/io/dpmp/protocol/Codec.kt:31-42 | the twelve bytes are the low bytes of the five fields in order |
| `KotlinCodec.UnpackHeader` | kotlin/src/main/kotlin/io/dpmp/protocol/Codec.kt:45-54 | agrees with the other implementation on all inputs, short ones included |
| `KotlinCodec.PackPacket` | kotlin/src/main/kotlin/io/dpmp/protocol/Codec.kt:57-63 | header and payload copied behind one another |
| `KotlinCodec.PackSyncAck` | kotlin/src/main/kotlin/io/dpmp/protocol/Codec.kt:86-91 | the 25 bytes are the low bytes of the four fields in order |
| `KotlinCodec.UnpackSyncAck` | kotlin/src/main/kotlin/io/dpmp/protocol/Codec.kt:94-99 | long fields signed, the version unsigned, short payloads refused, what follows ignored |
| `KotlinCodec.UnpackSyncReq` | kotlin/src/main/kotlin/io/dpmp/protocol/Codec.kt:76-81 | the same for the request |
| `KotlinCodec.UnpackSyncCommitV2` | kotlin/src/main/kotlin/io/dpmp/protocol/Codec.kt:111-114 | the same for the version 2 commit |

## Left out

- Real sockets, threads, sleeps, `select`, logging and callbacks: nondeterministic steps stand for them; opening and closing a socket are entries in a set.
- Liveness: nothing is proved about a packet arriving in the end under some fairness, only about what a run can and cannot lead to, and when a packet is resent.
- FIN ordering: FIN carries no number (dpmp/link/rtp.py:361-364), so a reader may see the end of the stream early; the prefix property covers that.
- RTP waiting: the wait for window room inside sendall becomes two steps, numbering and transmitting, and a recv that would block is not enabled; recv_into and recv_exact, which loop over recv, are not modelled.
- RTP 32-bit numbers: the sequence field does not wrap in the model, see the assumption above.
- RTP cumulative ACK: the model sends it after the chunk has been taken in, as the document defines it; the code, which does not send it, builds its ACK before.
- RTP stream theorems on retention, loss and parking speak of the stream from left to right; the other direction is the mirror image.
- RTP send errors: an exception from the send function is a dropped packet, and sendall's early return on it is not modelled.
- Peer liveness timers and keepalive packets of the RTP socket: they do not touch the stream's state.
- JSON doubles: which text a platform prints for a double and which token it reads as which is a parameter, with the properties of `Regular`; non-string keys, which the printer converts, and values of other classes are not modelled.
- JsonMachine.Parser.ParseNumber: keeps a token with a fraction, an exponent or an inner sign as its text; that the platform makes null of a malformed one shows only when it is printed.
- JSON white space and digits: the Unicode classes are those of the 16-bit units that the Kotlin functions accept; that table of digit blocks is taken as it is, no theorem is about it.
- JSON texts outside the grammar: beyond the laws of JsonTolerance they are covered by totality and by `DecodeStable` only.
- The signalling client, NAT probing, LAN discovery and `util/net`: input, output and queries of the host.
- SHA-256: the room password's digest is an arbitrary function of room and password.
- RoomServer.SignalServer.ChooseId: which of several members of one device is found first depends on the dictionary's order; the contract allows any, and in consistent states there is at most one.
- The server's punch coordination, its broadcasts, and the closing of replaced mapping connections: the tables do not depend on them.
- Restarts as events of an interleaving: they end the joins that are between their sections, and `ReloadExact` says what the tables then are.
- LinkManager.Links.Claimant: which of several members with the same address is found first is left open, as for the dictionary's order.
- LinkManager.Links.CloseEverything: the ten-second cooldown and the renewed punch requests around it are not modelled.
- Punch tasks and their counters: that an entry stays connecting after a task gave up for want of a target (dpmp/link/manager.py:741-743) is not modelled, nor are the rounds of dpmp/link/manager.py:703-803 beyond their outcome.
- UDP channels of the manager, choice of a send channel, idle factors: no property of the connection table depends on them.
- KeepaliveSearch.Multiplies: settings whose doubled role factor is not a whole number grow with rounding at every step.
- The comparison of the failure ratio with 0.05 is over exact rationals; the program computes it in floating point.
- CandidateRace: the worker threads are steps on a value, interleaved freely, and the barrier's waiting is not modelled; a single candidate, which is tried without a race, is not either.
- Addresses.ReadInt: reads ASCII digits only; the program also accepts other decimal digits.
- ClockSync: version 1 commits carry no number and fire every time they arrive; `SkewBound` and `FiresOnce` are about version 2, `PunchInstants` and `CommitExact` about both.
- The Kotlin twins of stream, paths, manager, puncher and addresses: they mirror the Python core; the Kotlin race tests its latch the other way round (Puncher.kt:103) and is not what is modelled.
