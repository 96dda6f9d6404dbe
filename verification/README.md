# A verified model of CIPster

CIPster is an EtherNet/IP (CIP) adapter stack. This project models its three central parts and
two smaller ones in Dafny, and proves what they promise. The stack is single threaded, so a run
is a sequence of steps, and the theorems speak of every run from start-up, of every input, or of
every message.

`dafny verify dfyconfig.toml` checks all of it.

## The connection life cycle

Connections live in pools of reserved slots and, while open, on one intrusive doubly linked list.
Multicast producers of one input assembly share one UDP socket that exactly one of them, the
master, holds. Mastership moves on open, close and timeout, and closing one connection can close
others while a caller walks the same list.

- `SocketSpec`, `SocketInv`: the UDP socket manager as a value, and conservation of its counts.
- `ConnSpec`: every step on a value, the `World`. `ConnInv`, `ConnOpen`, `ConnRuns`: the
  invariants and that every step keeps them. `ConnTheorems`: what they mean over all runs.
- `ConnExact`: exactly what closes, timeouts, passes and aged sessions take. `ConnAccept`: which slot
  a request gets and when it is opened. `ConnSchedule`: when data go out.
- `ConnStreams`: what a run remembers, counts and connection ids, and so what receivers make of a
  change of master and where frames end up. `ConnExample`: a run that loses data.
- `UdpSockets`, `ConnList`, `ConnStack`, `ConnService`: the same steps on objects, with fields
  changed in place, loops along the list and a saved next node. Each method does to the objects
  what `ConnSpec` says, so a stack that serves any requests ends where the run on values ends
  (`ConnService.RunStack`). `ConnEffects`: what single requests achieve.

The operating system's answers (a socket created, a group joined) and the application's answers
are parameters of the steps; application callbacks do not re-enter the stack.

## The codecs

- `Bytes`: little and big endian numbers and the bounded writer. The original throws when a
  buffer is too small; the writer here notes the overrun and writes no more.
- `EPathSpec`, `EPathCodec`, `ConnPathCodec`, `PathChain`: application paths, port segment group,
  data segment and connection path, padded and packed, and exactly when they come back.
- `EPath`, `MessageRouter`, `ForwardOpen`: the objects that read and write them, message router
  requests, Forward_Open with the two directions swapped, and Forward_Close.
- `CpfSpec`, `CpfCodec`, `CpfObjects`, `Sessions`: replies, the common packet format, the encapsulation
  header with its nested lengths, and the table of sessions.
- `WireFormat`: where every field of these is, in bytes.

## The I/O data path and the small parts

- `IoFrame`: from the producer's assembly to the consumer's. `Negotiation`: path roles and sizes.
  `Sequence`: wrap-around of sequence numbers, counts and timers.
- `Registry`: sorted registries. `Ticks`: elapsed time, timeouts and multipliers.

## Where the code surprises

The model follows the code. Each of these is proved, with the exact condition.

- A compressed path in which an assembly connection point directly follows an instance written
  without its class is not read back (`PathChain.PathRoundTrip`, `PathChain.LostConnectionPoint`).
- Logical ids from 65536 on, port 15, and an inhibit time that is no whole number of milliseconds
  in that form do not come back (`EPathCodec.SegmentRoundTrip`, `ConnPathCodec.GroupRoundTrip`).
- `Cpf::SerializedCount` is four too large without a payload (`CpfCodec.CountIsLength`).
- Class 0 datagrams carry no encapsulation sequence number although the comment on the filter
  asks for one, so a consumer takes the first datagram and no other (`IoFrame.ClassZeroOnce`).
- Only Close hands the sequence counters to the next master. The heir of an input-only connection
  that times out, and a new exclusive owner that takes over, start over under the same connection
  id, and a receiver drops what they send until they have caught up
  (`ConnTheorems.CloseKeepsStream`, `ConnStreams.HeirStartsOver`, `ConnStreams.OwnerStartsOver`,
  `ConnExample.TimeoutLosesData`).
- Consuming ids come round after 2^16, listed connection or not (`ConnStreams.NextIdClash`).
- Instance id 0 resolves to the class itself, also for an I/O connection
  (`Negotiation.GenuineUnlessZero`).
- A watchdog time of 2^31 microseconds or more, which forward open accepts, fires early: below
  2^32 at once, above after what 32 bits leave of it (`Sequence.WatchdogIsDeadline`,
  `Sequence.LongTimeoutIsEarly`).
- An instance removed from a class keeps its owner and cannot be inserted again
  (`Registry.RemoveThenInsert`).

## Model

| member | source | states |
|---|---|---|
| ConnTheorems.MasterTheorem | source/src/cip/cipconnection.cc:1303-1371 | After any run from start-up, whenever a multicast producer of an input point is listed (listen-only included), exactly one listed exclusive owner or input-only connection of the point holds the producing socket, every other one holds none, and all share its producing connection id |
| ConnTheorems.ConservationTheorem | source/src/enet_encap/networkhandler.cc:933-1133 | After any run a socket's count is the number of connection ends that hold it plus the counts of the groups joined on it, a group's count is the ends that hold it, and neither a recycled record nor an unlisted connection is involved |
| ConnTheorems.PoolTheorem | source/src/cip/cipconnectionmanager.cc:357-418 | After any run the list has no duplicates, and a pooled connection is Established exactly when it is listed and NonExistent otherwise |
| ConnTheorems.UniqueTheorem | source/src/cip/cipconnectionmanager.cc:30-45 | After any run no two listed connections have the same triad, and no two listed exclusive owners consume the same output assembly |
| ConnTheorems.FailedOpenRestores | source/src/cip/cipconnection.cc:1374-1415 | A refused or failed open leaves the list, every listed connection, the state of every slot and what every socket is held by as before, and the counts still agree |
| ConnTheorems.WatchdogProgress | source/src/cip/cipconnectionmanager.cc:184-268 | At a fixed clock a pass that finds an expired connection leaves strictly fewer, makes none expire, and a pass that finds none closes none |
| ConnTheorems.PassesClear | source/src/cip/cipconnectionmanager.cc:184-268 | k passes at a fixed clock clear at least k expired connections, or all of them |
| ConnTheorems.ManageShrinks | source/src/cip/cipconnectionmanager.cc:184-268 | A pass closes one of the expired connections if there is one, and otherwise keeps the list |
| ConnTheorems.ManageSpread | source/src/cip/cipconnectionmanager.cc:184-268 | A whole pass closes the first expired connection on its way and at most the connections that its timeout sweeps, and nothing if none is expired |
| ConnTheorems.TimeOutSpread | source/src/cip/cipconnection.cc:1604-1675 | A timeout closes the expired connection and, for a master, only listeners (for an exclusive owner also input-only connections) of the same input point |
| ConnTheorems.CloseSpread | source/src/cip/cipconnection.cc:1303-1371 | Closing a connection closes besides it at most listen-only connections of its input point, and those only if it is a master |
| ConnTheorems.CloseEachSpread | source/src/cip/appcontype.cc:496-519 | Closing by type takes off the list only connections of that input point and type, and listeners when a master type is closed |
| ConnExact.TimeOutExact | source/src/cip/cipconnection.cc:1604-1675 | A timeout takes the connection and exactly what goes with it: for an exclusive owner that produces multicast every input-only and listen-only connection of its point, for the last master every listener, for any other nothing |
| ConnExact.CloseExact | source/src/cip/cipconnection.cc:1303-1371 | A close takes the connection and, exactly when it is the last master of its point, every listener of it |
| ConnExact.ClosedSlot | source/src/cip/cipconnection.cc:1303-1371 | A closed connection is left with no socket, no session and a free slot |
| ConnExact.ManageExact | source/src/cip/cipconnectionmanager.cc:184-268 | A whole pass takes the first expired connection on its way and exactly what goes with it; nothing if none is expired |
| ConnExact.SessionAgedExact | source/src/enet_encap/encap.cc:287-322 | When a TCP session is aged exactly its class 3 connections are closed, and the session is over |
| ConnExact.SessionOpenedExact | source/src/enet_encap/encap.cc:143-181 | A session that is opened is there, and nothing else changes |
| ConnExact.CandidateIsFirst | source/src/cip/appcontype.cc:446-493 | The heir, and the master to join, is the first candidate along the list |
| ConnExact.ConsumerIsFirst | source/src/cip/cipconnectionmanager.cc:319-337 | A frame goes to the first established connection along the list with its id |
| ConnAccept.IoOpenOutcome | source/src/cip/cipconnectionmanager.cc:475-766 | A forward open of an I/O connection without fault, with a good path and a slot for it, ends as configuration data, socket address item and system decide; with all of them good it succeeds, as the kind registered for its paths, with its session, opener, parameters, addresses and sockets |
| ConnAccept.ExplicitOpenOutcome | source/src/cip/cipmessagerouter.cc:208-236 | An explicit connection is opened in the first free slot of its pool, and refused exactly when there is none |
| ConnAccept.OwnershipIsExclusive | source/src/cip/appcontype.cc:226-234 | A request for an owner's output assembly that is consumed already is refused as a conflict, whatever else is registered |
| ConnAccept.ChosenIsPicked | source/src/cip/appcontype.cc:390-443 | The slot is that of the first owner's expectation that fits if its output is free; with no owner the first free one of the first input-only expectation that fits; with no input-only one for that output and with a master, that of a listener |
| ConnAccept.OwnerPicked | source/src/cip/appcontype.cc:217-242 | The first owner's expectation that fits decides: conflict exactly when the output assembly has a consumer, else its slot |
| ConnAccept.SetPicked | source/src/cip/appcontype.cc:245-342 | The first expectation of a set that fits decides: a free slot of its pool, or out of connections; a listener without a master is refused |
| ConnAccept.FreeSlot | source/src/cip/appcontype.cc:112-124 | The slot handed out is the first free one of the pool |
| ConnAccept.NothingRegistered | source/src/cip/appcontype.cc:390-443 | With nothing registered the request is refused, with a code of its own if it does not ask for multicast |
| ConnAccept.ConsumingOutcome | source/src/cip/cipconnection.cc:1824-1876 | The consuming end is on the originator's group, received from the peer at the registered port, or on the own port; a group that is not named is a parameter error, a system that refuses is out of connections |
| ConnAccept.ProducingOutcome | source/src/cip/cipconnection.cc:1724-1821 | A point to point producer sends to the peer, at the port of the T->O item if there is one; a multicast producer to the multicast address, holding the socket exactly if it is an owner or there is no master |
| ConnSchedule.SendsOnSchedule | source/src/cip/cipconnectionmanager.cc:236-262 | Over any run of passes that keeps up and in which nothing expires, a cyclic producer sends exactly one frame for every time its producing interval comes round, and stays on that schedule |
| ConnSchedule.BeatSends | source/src/cip/cipconnectionmanager.cc:236-262 | In a pass without expiry a sender whose time has come sends one frame, counts it, and is due again one producing interval after it was; any other connection is unchanged |
| ConnSchedule.ShortGapsKeepUp | source/src/cip/cipconnectionmanager.cc:236-262 | Passes no further apart than the interval keep up |
| ConnSchedule.FramesPerInterval | source/src/cip/cipconnectionmanager.cc:236-262 | The frames sent are the time passed divided by the interval, give or take one |
| ConnTheorems.TimeOutSession | source/src/cip/cipconnectionmanager.cc:271-293 | A timeout closes the connection's TCP session exactly when no listed connection carries its handle any more, and touches no other session |
| ConnTheorems.CloseKeepsStream | source/src/cip/cipconnection.cc:1328-1346 | The heir of a closed master continues the stream: same socket and address, next encapsulation number and sequence count, which an up to date receiver accepts, and due when the master was |
| ConnTheorems.TimeOutStream | source/src/cip/cipconnection.cc:1626-1650 | The heir of a timed out input-only master gets the socket and is due when the master was, but goes on from its own counts; an up to date receiver accepts its next frame exactly when its number is not behind |
| ConnStreams.NeverHeldIsZero | source/src/cip/cipconnection.cc:1418-1466 | After any run a listed connection that never held a producing socket has encapsulation count 0, and every count is below 2^32 |
| ConnStreams.HeirStartsOver | source/src/cip/cipconnection.cc:1626-1650 | Over all runs, the heir of a timed out input-only master that never held the socket sends number 1 next, and an up to date receiver takes it exactly when the old count is 0 or above 2^31 + 1 |
| ConnStreams.DropsAsMany | source/src/cip/cipconnectionmanager.cc:143-174 | Of a stream that starts over an up to date receiver drops exactly as many frames as the old one had sent, below half the range |
| ConnExample.TimeoutLosesData | source/src/cip/cipconnection.cc:1626-1650 | A run from start-up with two input-only connections of one point: the first sends number 1 and times out, the second gets its socket and id, sends number 1 again, and an up to date receiver drops it |
| ConnStreams.OwnerStartsOver | source/src/cip/cipconnection.cc:1792-1809 | A new exclusive owner of a point with a master gets the master's socket and id but counts from the start: an up to date receiver takes its first frame exactly when the master's count is 0 or above 2^31 + 1 |
| ConnStreams.ConsumingIds | source/src/cip/cipconnection.cc:1215-1222 | After any run two listed point to point consumers share a consuming id exactly when the numbers of ids taken since theirs differ by a multiple of 2^16, so never in a run that takes at most 2^16 |
| ConnStreams.NextIdClash | source/src/cip/cipconnection.cc:1231-1240 | After any run the next id equals that of a listed point to point consumer exactly when a multiple of 2^16 ids, the next one included, has been taken since |
| ConnStreams.FrameArrives | source/src/cip/cipconnectionmanager.cc:319-337 | In any run that takes at most 2^16 ids a frame with the consuming id of a point to point connection finds that connection, unless an originator chose the same id for one of another kind |
| ConnStreams.StepCounts | source/src/cip/cipconnectionmanager.cc:475-766 | A step takes at most two ids; a connection that stays keeps its parameters and, unless it gets or loses a socket, its count; a new one starts at 0 with the first id taken |
| ConnEffects.OpenThenClose | source/src/cip/cipconnectionmanager.cc:783-915 | A forward close by the same peer right after a successful forward open succeeds and leaves the list as it was, with all invariants |
| ConnEffects.CloseUndoesOpen | source/src/cip/cipconnection.cc:1303-1371 | Closing a connection right after it was opened takes it and nothing else off the list, even if it had become the master: no listener is lost |
| ConnEffects.OpenRefusals | source/src/cip/cipconnectionmanager.cc:510-640 | Any forward open with a fault gets the code of its first one (triad in use, multiplier, consuming type, producing type, trigger, interval) and changes nothing; one without gets the code of its path if that is bad; only one without fault is accepted |
| ConnEffects.CloseRefusals | source/src/cip/cipconnectionmanager.cc:859-886 | A close succeeds exactly when such a connection is listed and was opened by that peer, is not found exactly when none is, and otherwise changes nothing |
| ConnEffects.PickIsBestMatch | source/src/cip/appcontype.cc:245-342 | The error of a set of expectations names how far the best one agrees: no output, no input, no configuration, no free slot |
| ConnEffects.GrantedInterval | source/src/cip/cipconnectionmanager.cc:549-608 | Intervals are granted in whole ticks, the next faster ones; only one shorter than a tick is refused |
| ConnEffects.ConfiguredTimers | source/src/cip/cipconnection.cc:1257-1297 | After configuration data are due at once on a client connection; the watchdog has the greater of ten seconds and the full product of interval and multiplier to run, if that is below 2^31; the counters start over |
| ConnEffects.ChosenIds | source/src/cip/cipconnection.cc:1231-1255 | This end chooses the consuming id of a point to point and the producing id of a multicast connection, two different ones, and keeps the originator's choice otherwise |
| ConnEffects.FrameCountsOnce | source/src/cip/cipconnectionmanager.cc:143-174 | Receiving the same frame again at the same time changes nothing |
| ConnEffects.FrameFeedsWatchdog | source/src/cip/cipconnectionmanager.cc:100-174 | A frame from anyone but the peer changes nothing; a newer one from the peer moves the filter on, takes a newer class 1 count, and leaves the connection with the full product of interval and multiplier to run, if that is below 2^31; any other leaves everything as it was |
| ConnEffects.MessageFeedsWatchdog | source/src/enet_encap/cpf.cc:141-149 | A connected message leaves its connection with the whole timeout to run, and changes nothing else |
| ConnEffects.FirstDeadline | source/src/cip/cipconnection.cc:1280-1292 | A new connection that consumes or is a server expires exactly after the greater of ten seconds and its timeout; any other never does |
| ConnEffects.RateCovers | source/src/cip/cipconnection.h:937-954 | The watchdog counts in the least number of whole ticks that covers the interval asked for |
| ConnEffects.TriggerFields | source/src/cip/cipconnection.h:380-440 | Class, trigger and direction are read from their bits of the transport byte; beyond class 3 and trigger 3 it is undocumented |
| ConnRuns.StepKeeps | source/src/cip/cipconnectionmanager.cc:475-766 | Every step of the stack (open, close, timer pass, frame, message, session opened or aged, time, shutdown) keeps the master, socket, pool and uniqueness invariants |
| ConnRuns.RunKeeps | source/src/cip/cipconnectionmanager.cc:184-268 | Every run of steps keeps the invariants |
| ConnRuns.CascadesAreSafe | source/src/cip/appcontype.cc:496-519 | In the walks that close by type the saved next node survives every nested close, and afterwards no matching connection is listed; for input-only connections this holds while the exclusive owner that times out is still listed |
| ConnRuns.ListenerWalkSafe | source/src/cip/appcontype.cc:496-519 | While listeners are closed along the list, each close takes exactly that node off |
| ConnRuns.InputOnlyWalkSafe | source/src/cip/appcontype.cc:496-519 | While input-only connections are closed along the list and an owner of the point is listed, each close takes exactly that node off |
| ConnRuns.InputOnlyCloseIsExact | source/src/cip/cipconnection.cc:1610-1621 | With an exclusive owner of the point listed, closing an input-only connection takes no other off the list |
| ConnRuns.CloseEachClears | source/src/cip/appcontype.cc:496-519 | A listed connection of that input point and type is off the list after closing by type |
| ConnRuns.ShutdownEmpties | source/src/cip/appcontype.cc:522-529 | CloseAllConnections leaves an empty list, every slot free, no group joined and no reference on any socket |
| ConnRuns.TimeOutKeeps | source/src/cip/cipconnection.cc:1604-1675 | A timeout keeps all invariants, and the timed out connection is off the list |
| ConnRuns.ManageKeeps | source/src/cip/cipconnectionmanager.cc:184-268 | A timer pass keeps all invariants |
| ConnRuns.CloseClass3Keeps | source/src/cip/cipconnectionmanager.cc:296-316 | Closing the class 3 connections of a session keeps all invariants |
| ConnRuns.ReceiveKeeps | source/src/cip/cipconnectionmanager.cc:48-181 | A received frame or connected message keeps all invariants |
| ConnInv.CloseKeeps | source/src/cip/cipconnection.cc:1303-1371 | Close keeps pool, list, sockets and masters in agreement, whether it hands the socket over or closes the listeners |
| ConnInv.CloseEachKeeps | source/src/cip/appcontype.cc:496-519 | Closing by type keeps pool, list, sockets and masters in agreement |
| ConnInv.CloseShrinks | source/src/cip/cipconnection.cc:1303-1371 | Close only takes connections off the list; the others keep all but what a handover gives |
| ConnInv.ListenersOnly | source/src/cip/appcontype.cc:496-519 | Closing listeners takes off exactly the listeners of the point and leaves all other connections as they were |
| ConnInv.LastMasterDispensable | source/src/cip/cipconnection.cc:1349-1356 | When the last master has closed its listeners no other producer of the point is left, so its socket can go |
| ConnOpen.PickIsFree | source/src/cip/appcontype.cc:217-342 | A slot handed out is off the list and of the right pool; an owner's output assembly is not consumed yet, and a listener has a master |
| ConnOpen.ChannelsKeep | source/src/cip/cipconnection.cc:1939-1992 | Opening both ends keeps sockets and masters in agreement; on failure only the slot and the sockets have changed |
| ConnOpen.ProducingKeeps | source/src/cip/cipconnection.cc:1777-1821 | Opening a multicast producer gives its point exactly one master, by joining the existing one, taking over from it, or grabbing a socket |
| ConnOpen.AbandonKeeps | source/src/cip/cipconnection.cc:1397-1406 | Giving up on an open returns both sockets and leaves the slot as free as it was |
| ConnOpen.ActivateKeeps | source/src/cip/cipconnection.cc:1374-1415 | Activate keeps all invariants; success puts the connection at the head of the list, failure changes nothing listed |
| ConnOpen.OpenIoKeeps | source/src/cip/cipconnection.cc:2009-2054 | OpenIO keeps all invariants; success lists one more connection, failure changes no listed one |
| ConnOpen.OpenExplicitKeeps | source/src/cip/cipmessagerouter.cc:208-236 | Opening an explicit connection keeps all invariants |
| ConnOpen.ForwardOpenKeeps | source/src/cip/cipconnectionmanager.cc:475-766 | A forward open keeps all invariants; success adds one connection at the head of the list, failure changes no listed one |
| SocketInv.GrabKeeps | source/src/enet_encap/networkhandler.cc:933-1037 | Grabbing a socket or a group keeps conservation: on success one more end holds it, on failure the holders are as before |
| SocketInv.ReleaseKeeps | source/src/enet_encap/networkhandler.cc:1040-1133 | Releasing keeps conservation: the counts match the holders less one, and a group left without references is recycled with its share of the interface's count |
| SocketInv.HeldIsReleasable | source/src/enet_encap/networkhandler.cc:1040-1133 | Releasing a record that some end holds succeeds |
| SocketInv.GrabOutcome | source/src/enet_encap/networkhandler.cc:933-1037 | A grab succeeds exactly when the socket is there or the system makes one, and the group is joined or the system joins it; the record is bound to the address, or is the group, asked for |
| SocketInv.GrabBaseOutcome | source/src/enet_encap/networkhandler.cc:933-957 | A socket bound to that address is shared; otherwise a new one has the system's handle, in a recycled record if there is one |
| SocketInv.ReleaseOutcome | source/src/enet_encap/networkhandler.cc:1040-1133 | A release takes one reference; the last one of a group recycles it, a socket stays open, and nothing else changes |
| SocketInv.MulticastRange | source/src/enet_encap/sockaddr.h:143-147 | Multicast addresses are 224.0.0.0 to 239.255.255.255 |
| SocketInv.GrabBaseKeeps | source/src/enet_encap/networkhandler.cc:933-957 | Finding or making a base socket keeps conservation, and a recycled record is nobody's |
| ConnList.CipConnBox.Insert | source/src/cip/cipconnectionmanager.cc:357-383 | Links the node at the head; the doubly linked list refines a duplicate-free sequence |
| ConnList.CipConnBox.Remove | source/src/cip/cipconnectionmanager.cc:386-418 | Unlinks exactly that node and clears its links; the list still refines a duplicate-free sequence |
| UdpSockets.UdpSocketMgr.GrabSocket | source/src/enet_encap/networkhandler.cc:933-1037 | Does to the three vectors and the counts what the value model says, returning the record grabbed or null |
| UdpSockets.UdpSocketMgr.ReleaseSocket | source/src/enet_encap/networkhandler.cc:1040-1133 | Does to the vectors and counts what the value model says, recycling a group without references; it succeeds exactly for a group joined on some socket and for a socket of the vector |
| UdpSockets.UdpSocketMgr.Alloc | source/src/enet_encap/networkhandler.cc:1217-1235 | Reuses the last recycled record or makes a new one, with one reference |
| UdpSockets.UdpSocketMgr.Find | source/src/enet_encap/networkhandler.cc:1136-1144 | Returns the first record of the vector bound to the address |
| UdpSockets.UdpSocketMgr.JoinGroup | source/src/enet_encap/networkhandler.cc:958-1037 | Shares the membership there is, joins a new group, or gives the interface's count back when joining fails |
| ConnStack.Stack.FindCandidate | source/src/cip/appcontype.cc:446-493 | Returns the first listed master kind of the multicast input point that does (or does not) hold the socket |
| ConnStack.Stack.HandOver | source/src/cip/cipconnection.cc:1326-1344 | Moves socket, address, counters and timer to the heir |
| ConnStack.Stack.Close | source/src/cip/cipconnection.cc:1303-1371 | The objects change as the value model of Close says, cascades included, and sockets and masters agree again; it terminates although it can call itself through the walk by type |
| ConnStack.Stack.CloseAllForInput | source/src/cip/appcontype.cc:496-519 | The walk with its saved next node does what closing by type says, with nested closes in between |
| ConnStack.Stack.CloseIsExact | source/src/cip/appcontype.cc:507-514 | Closing the node the walk stands on removes that node and no other from the list |
| ConnStack.Stack.CheckSession | source/src/cip/cipconnectionmanager.cc:271-293 | Closes the TCP session exactly when no listed connection carries the handle |
| ConnStack.Stack.TimeOutCascade | source/src/cip/cipconnection.cc:1604-1656 | The part of timeOut before Close: an owner closes input-only connections and listeners, an input-only master hands the socket over or closes the listeners |
| ConnStack.Stack.TimeOut | source/src/cip/cipconnection.cc:1604-1675 | timeOut on the objects does what the value model says; afterwards the node leads nowhere and is not open |
| ConnStack.Stack.ManageConnections | source/src/cip/cipconnectionmanager.cc:184-268 | The timer walk on the objects does what the value model says: it ends at the first expired connection, and sends what is due before it |
| ConnStack.Stack.SendConnectedData | source/src/cip/cipconnection.cc:1441-1466 | One datagram advances the encapsulation number, the sequence count if data changed, and the trigger time |
| ConnService.FreeSlot | source/src/cip/cipmessagerouter.cc:196-205 | Returns the first slot of the pool that is not in use |
| ConnService.ConnectedOutput | source/src/cip/cipconnectionmanager.cc:340-354 | Whether an established listed connection consumes the output assembly |
| ConnService.FindMatching | source/src/cip/cipconnectionmanager.cc:30-45 | Returns the first established listed connection with that triad |
| ConnService.FindByConsumingId | source/src/cip/cipconnectionmanager.cc:319-337 | Returns the first established listed connection with that consuming id |
| ConnService.GetOwner | source/src/cip/appcontype.cc:217-242 | Returns the owner slot of the expectation all three paths agree with, unless its output assembly is consumed already |
| ConnService.GetFromSets | source/src/cip/appcontype.cc:245-342 | Walks the expectations remembering which paths matched, to hand out a free slot or the error the original gives |
| ConnService.GetIoConnection | source/src/cip/appcontype.cc:390-443 | Tries owners, input-only and listen-only expectations in turn, stopping at the first slot or error |
| ConnService.NewConnectionId | source/src/cip/cipconnection.cc:1215-1222 | Counts ids up in 16 bits and puts the incarnation in the upper half |
| ConnService.GeneralConfiguration | source/src/cip/cipconnection.cc:1225-1300 | Copies the request, selects the ids this end chooses, starts counters over and arms the timers |
| ConnService.OpenConsuming | source/src/cip/cipconnection.cc:1824-1936 | Opens the consuming end on the group given by the originator, or point to point, with the errors of the original |
| ConnService.JoinMaster | source/src/cip/cipconnection.cc:1794-1818 | An exclusive owner takes the socket over from the existing master, any other producer shares the connection id only |
| ConnService.OpenProducing | source/src/cip/cipconnection.cc:1724-1821 | Opens the producing end, joining the master of the input point if there is one |
| ConnService.Abandon | source/src/cip/cipconnection.cc:1393-1406 | Gives back the sockets and clears the slot after a failed open |
| ConnService.Activate | source/src/cip/cipconnection.cc:1374-1415 | Checks the configuration, opens both ends and lists the connection, or gives everything back |
| ConnService.OpenIo | source/src/cip/cipconnection.cc:2009-2054 | Chooses a slot, configures and activates it on the objects as the value model says |
| ConnService.OpenExplicit | source/src/cip/cipmessagerouter.cc:208-236 | Opens an explicit connection in the first free slot, or reports that there is none |
| ConnService.ForwardOpen | source/src/cip/cipconnectionmanager.cc:475-766 | The chain of checks and the open on the objects, as the value model says; all invariants hold afterwards |
| ConnService.ForwardClose | source/src/cip/cipconnectionmanager.cc:783-915 | Closes the connection with that triad if the request comes from its opener, else reports why not |
| ConnService.CloseAllConnections | source/src/cip/appcontype.cc:522-529 | Empties the list, each Close making it shorter |
| ConnService.CloseClass3Connections | source/src/cip/cipconnectionmanager.cc:296-316 | The walk with its saved next node closes exactly the class 3 connections of the session |
| ConnService.RecvConnectedData | source/src/cip/cipconnectionmanager.cc:100-174 | A frame from the peer with a newer number feeds the watchdog and is noted; every other frame changes at most the filter's start |
| ConnService.Serve | source/src/cip/cipconnectionmanager.cc:184-268 | One event on the objects does what the step of the value model does, and keeps all invariants |
| ConnService.RunStack | source/src/enet_encap/networkhandler.cc:779-876 | A stack of objects that starts up and serves any requests ends in the state the same run reaches on values, so every theorem about runs holds of it |
| EPathCodec.SegmentRoundTrip | source/src/cip/cipepath.cc:149-177 | A logical segment is read back, whatever follows, exactly when its id is below 65536: the reader skips one byte more in the 32 bit form |
| EPathCodec.LogicalRoundTrip | source/src/cip/cipepath.cc:367-482 | A single path without a symbol, padded or packed, comes back exactly when it has no members and, for an assembly, an instance or a connection point, for another class a connection point or an attribute |
| EPathCodec.SymbolicRoundTrip | source/src/cip/cipepath.cc:319-364 | A symbolic path of up to 41 non-zero bytes comes back exactly when it carries at most a connection point and members without gaps |
| EPathCodec.Examples | source/src/cip/cipepath.cc:149-177 | The bytes of an assembly instance and of a 16 bit connection point, padded and packed |
| EPathCodec.Swallows | source/src/cip/cipepath.cc:419-459 | A following segment that does not stop the reader is taken into the path before it |
| EPathCodec.ReadRun | source/src/cip/cipepath.cc:419-459 | A run of segments in descending order is read field by field, leaving what follows |
| ConnPathCodec.GroupRoundTrip | source/src/cip/cipepath.cc:765-876 | The port segment group comes back exactly when its port is not 15 and a time in milliseconds form is a whole number of them |
| ConnPathCodec.Port15Read | source/src/cip/cipepath.cc:564-643 | Port 15 is written short and read extended: two bytes of what follows are lost |
| ConnPathCodec.PortRead | source/src/cip/cipepath.cc:564-643 | Any other port segment is read back as written |
| ConnPathCodec.DataRoundTrip | source/src/cip/cipepath.cc:900-947 | The data segment comes back, up to 255 words, and nothing after it is touched |
| PathChain.StopsWhenEnds | source/src/cip/cipconnection.cc:122-146 | The reader stops between two written paths exactly when no bare attribute and no bare connection point after a class-less instance is left of the second |
| PathChain.InheritsWhenFits | source/src/cip/cipepath.cc:529-559 | Inheritance restores exactly what was left out, exactly when a connection point follows an assembly path and an attribute path does not follow a connection point |
| PathChain.ChainRead | source/src/cip/cipconnection.cc:53-69 | A chain of written paths is read back slot by slot exactly when it is well linked, and what follows is left untouched |
| PathChain.PathRoundTrip | source/src/cip/cipconnection.cc:22-166 | Connection path round trip, padded and packed, compressed and not, with port group and data segment: what is written is read back exactly when the application paths are well linked |
| PathChain.PaddingOnly | source/src/cip/cipconnection.cc:80-109 | After a well linked path a single byte that makes the number of bytes even is padding, anything else an error |
| PathChain.PromisedChain | source/src/cip/cipepath.h:96-110 | The forms the protocol promises to compress are well linked |
| PathChain.LostConnectionPoint | source/src/cip/cipconnection.cc:125-146 | Two assembly instances and a connection point, compressed, do not come back; uncompressed they do |
| EPath.CipAppPath.SerializeLogical | source/src/cip/cipepath.cc:149-177 | Puts the shortest of the three forms of a segment |
| EPath.CipAppPath.Serialize | source/src/cip/cipepath.cc:180-268 | Puts the bytes of the path, with the fields the flags omit left out |
| EPath.CipAppPath.DeserializeLogical | source/src/cip/cipepath.cc:282-316 | Sets the field and consumes the value in its form, or fails |
| EPath.CipAppPath.DeserializeSymbolic | source/src/cip/cipepath.cc:319-364 | Reads either form of symbol with its padding, or nothing |
| EPath.CipAppPath.InheritFrom | source/src/cip/cipepath.cc:529-559 | Takes over every more significant field that is missing, except an assembly's instance for a connection point |
| EPath.CipAppPath.DeserializeAppPath | source/src/cip/cipepath.cc:367-482 | Reads one application path: symbolic, or logical up to where another path begins, then inherits |
| EPath.CipPortSegmentGroup.Serialize | source/src/cip/cipepath.cc:837-876 | Puts key, inhibit times and port, or fails where the original throws |
| EPath.CipPortSegmentGroup.Deserialize | source/src/cip/cipepath.cc:765-834 | Reads key, inhibit times and ports until another kind of segment |
| EPath.CipSimpleDataSegment.Serialize | source/src/cip/cipepath.cc:928-947 | Puts the counted words, or fails above 255 |
| EPath.CipSimpleDataSegment.Deserialize | source/src/cip/cipepath.cc:900-924 | Reads the counted words, or nothing if another segment is there |
| EPath.ConnectionPath.Serialize | source/src/cip/cipconnection.cc:112-166 | Puts group, application paths (compressed against the last one written, or whole) and data segment |
| EPath.ConnectionPath.Deserialize | source/src/cip/cipconnection.cc:22-109 | Reads group, up to three application paths and data segment; one odd byte of an even input is padding, anything else left is an error |
| Bytes.BufWriter.Append | source/src/byte_bufs.impl:157-164 | Writes the bytes, or overruns without writing when they do not fit |
| Bytes.Got16 | source/src/byte_bufs.impl:238-247 | Reading a 16 bit number back, little or big endian, gives it truncated |
| Bytes.Got32 | source/src/byte_bufs.impl:250-261 | Reading a 32 bit number back, little or big endian, gives it truncated |
| ForwardOpen.MirrorRoundTrip | source/src/cip/cipconnection.cc:360-491 | What an originator serializes is parsed by the target with ids, intervals and parameters of the two directions swapped, exactly when the path is at most 510 bytes and well linked; the count then covers exactly the bytes left, and a longer path is reported as too much data |
| ForwardOpen.FieldOffsets | source/src/cip/cipconnection.cc:422-468 | The fields are where Table 3-5.17 puts them, O->T first, in the normal and the large form |
| ForwardOpen.FieldsRead | source/src/cip/cipconnection.cc:360-402 | The fixed fields, normal or large, are read as the mirror of what was written, whatever follows |
| ForwardOpen.ConnPathEven | source/src/cip/cipconnection.cc:470-485 | A padded connection path has whole words |
| ForwardOpen.ConnectionData.Serialize | source/src/cip/cipconnection.cc:405-491 | Puts the fields, the path and, in the place skipped before, the count of its words; it overruns exactly when they do not fit |
| ForwardOpen.ConnectionData.DeserializeForwardOpenRequest | source/src/cip/cipconnection.cc:360-402 | Sets the fields from the request, O->T as consuming, or fails when it is too short |
| ForwardOpen.ConnectionData.ReceiveForwardOpen | source/src/cip/cipconnectionmanager.cc:491-638 | Accepts a request only if the word count covers exactly the bytes left and the path parses |
| ForwardOpen.CloseRoundTrip | source/src/cip/cipconnection.cc:466-531 | A forward close names the connection it was written for exactly when its path is at most 510 bytes, and is reported as too much data otherwise |
| ForwardOpen.ConnectionData.SerializeClose | source/src/cip/cipconnection.cc:466-488 | Puts priority, triad, reserved byte, path and, in the place skipped before, the count of its words |
| ForwardOpen.ConnectionData.ReceiveForwardClose | source/src/cip/cipconnectionmanager.cc:797-832 | Accepts a close only if the word count covers exactly the bytes left |
| MessageRouter.RequestRoundTrip | source/src/cip/cipmessagerouter.cc:25-98 | Service, path and data of a request come back exactly when the path is a well formed logical or symbolic one |
| MessageRouter.PathStaysInWords | source/src/cip/cipmessagerouter.cc:60-86 | For every request that parses, all bytes past the counted words are data: the path parser never reads into them |
| MessageRouter.CipMessageRouterRequest.Serialize | source/src/cip/cipmessagerouter.cc:25-41 | Puts service, word count, path and data; it overruns exactly when they do not fit |
| MessageRouter.CipMessageRouterRequest.DeserializeMRReq | source/src/cip/cipmessagerouter.cc:50-98 | Sets service, path and data from the bytes, or fails |
| CpfSpec.ResponseRoundTrip | source/src/cip/cipmessagerouter.cc:125-178 | A reply comes back with its reply bit cleared, and its count is the bytes written |
| CpfCodec.CountIsLength | source/src/enet_encap/cpf.cc:297-352 | SerializedCount is the number of bytes written exactly when the data item carries a payload or there is none; otherwise it is four too many |
| CpfCodec.PacketRoundTrip | source/src/enet_encap/cpf.cc:226-294 | Address item, data range and both socket address items are received as sent, and nothing after the packet is touched |
| CpfCodec.HeaderRoundTrip | source/src/enet_encap/encap.cc:1028-1105 | The encapsulation header comes back, in both sizes |
| CpfCodec.EncapRoundTrip | source/src/enet_encap/encap.cc:1073-1105 | For a packet with a message router payload the encapsulation length is the total less 24, and header and packet come back from exactly the bytes sent |
| CpfCodec.ReplyLength | source/src/enet_encap/encap.cc:913-920 | Framing a reply behind the room left for the header also sets the length to the total less 24 |
| WireFormat.HeaderOffsets | source/src/enet_encap/encap.cc:1073-1105 | Command, length, session, status, context and options of the encapsulation header at their offsets, with interface handle and timeout for the two data commands |
| WireFormat.PacketOffsets | source/src/enet_encap/cpf.cc:355-436 | The number of items, the address, the data, and the O->T (0x8000) and T->O (0x8001) socket addresses, at their offsets |
| WireFormat.AddressBytes | source/src/enet_encap/cpf.cc:362-386 | The bytes of the three address items |
| WireFormat.DataItemBytes | source/src/enet_encap/cpf.cc:388-418 | The data item has its id, the number of bytes that follow, and those bytes, with the sequence number in front of a connected reply |
| WireFormat.SocketBytes | source/src/enet_encap/cpf.cc:420-432 | A socket address item: 16 bytes, family, port and address with the high byte first, zeros |
| WireFormat.ResponseOffsets | source/src/cip/cipmessagerouter.cc:163-178 | Service with reply bit, reserved byte, status, number of additional words, the words, the data |
| WireFormat.RequestOffsets | source/src/cip/cipmessagerouter.cc:25-41 | Service, number of path words, path, data |
| WireFormat.KeyIsSkipped | source/src/cip/cipmessagerouter.cc:60-86 | A request whose path starts with an electronic key is read as if the key were not there |
| WireFormat.CloseOffsets | source/src/cip/cipconnection.cc:466-488 | The fields of a forward close: the word count comes before the reserved byte |
| WireFormat.BodyOffsets | source/src/cip/cipconnection.cc:1468-1508 | Sequence count, run/idle word and data of a connected data item |
| WireFormat.SegmentCodes | source/src/cip/cipepath.cc:37-46 | The codes of the logical segments |
| WireFormat.SegmentBytes | source/src/cip/cipepath.cc:149-177 | The three forms of a logical segment, with the padding after the code |
| WireFormat.AttributePath | source/src/cip/cipepath.cc:180-268 | Class, instance and attribute are written in that order |
| WireFormat.CompressedBytes | source/src/cip/cipepath.cc:180-268 | The bytes left when class, instance or connection point are left out |
| WireFormat.SymbolBytes | source/src/cip/cipepath.cc:185-205 | Code, length, characters and padding of a symbol |
| WireFormat.ShortSymbolRead | source/src/cip/cipepath.cc:345-364 | The short form of a symbol, which is never written, is read |
| WireFormat.KeyBytes | source/src/cip/cipepath.cc:692-707 | The ten bytes of an electronic key |
| WireFormat.PortBytes | source/src/cip/cipepath.cc:590-643 | The four forms of a port segment |
| WireFormat.GroupBytes | source/src/cip/cipepath.cc:837-876 | Key, inhibit time in microseconds, in milliseconds, and port, in that order |
| WireFormat.ShortInhibitRead | source/src/cip/cipepath.cc:805-825 | The 16 bit form of the inhibit time, which is never written, is read |
| WireFormat.DataSegmentBytes | source/src/cip/cipepath.cc:928-947 | Code, number of words and words of a data segment |
| WireFormat.ObjectOfPath | source/src/cip/cipepath.h:233-285 | A path is about its instance, or for an assembly without one about its connection point; what a path needs to be about anything |
| WireFormat.CompressedPoint | source/src/cip/cipepath.cc:180-268 | An instance is left out in front of a connection point, too |
| WireFormat.CountOfPaths | source/src/cip/cipconnection.cc:554-555 | Every filled slot but the first adds one to the number of paths, wherever it is |
| WireFormat.WideIdRead | source/src/cip/cipepath.cc:282-316 | The 32 bit form of a segment is read one byte further on than it is written, as a signed number |
| WireFormat.SymbolEndsAtZero | source/src/cip/cipepath.cc:319-364 | A symbol ends at its first zero byte |
| WireFormat.AddressOfLength | source/src/enet_encap/cpf.cc:236-258 | An address item of four bytes or more sets the connection id, one of eight the sequence number as well |
| WireFormat.KeysRefused | source/src/cip/cipepath.cc:653-686 | Keys of another format, and keys cut short, are refused |
| WireFormat.NotWritable | source/src/cip/cipepath.cc:837-947 | A group cannot be written exactly when its milliseconds or its link address do not fit; a data segment when it has more than 255 words |
| WireFormat.RepliesRefused | source/src/cip/cipmessagerouter.cc:125-160 | Replies with more than two additional words, or cut short, are refused |
| WireFormat.ItemsRefused | source/src/enet_encap/cpf.cc:226-294 | Socket addresses of another length, items of another id, and data cut short are refused |
| WireFormat.OpensRefused | source/src/cip/cipconnectionmanager.cc:491-638 | A forward open too short for its fields has no reply; one whose word count is too small, too large, or whose path does not parse, each its own refusal |
| WireFormat.ClosesRefused | source/src/cip/cipconnectionmanager.cc:797-832 | A forward close of fewer than twelve bytes has no reply; otherwise its word count decides |
| WireFormat.ByteOrder | source/src/byte_bufs.impl:70-93 | Numbers have their low byte first, those of socket addresses last |
| CpfObjects.CipMessageRouterResponse.Serialize | source/src/cip/cipmessagerouter.cc:163-178 | Puts status, additional words and data |
| CpfObjects.Cpf.SerializedCount | source/src/enet_encap/cpf.cc:297-352 | Counts as the original does, item by item |
| CpfObjects.Cpf.Serialize | source/src/enet_encap/cpf.cc:355-435 | Puts the counted items in order: address, data with its length, O->T and T->O socket addresses |
| CpfObjects.Cpf.DeserializeCpf | source/src/enet_encap/cpf.cc:226-294 | Fills the items in from the counted bytes, or fails at the first one that is unknown or cut short |
| Sessions.Encapsulation.Serialize | source/src/enet_encap/encap.cc:1073-1105 | Puts the header with the length of its payload, then the payload |
| Sessions.Encapsulation.DeserializeEncap | source/src/enet_encap/encap.cc:1028-1064 | Sets the header fields from the bytes, with the extra ones of the two data commands |
| Sessions.SessionMgr.RegisterTcpConnection | source/src/enet_encap/encap.cc:93-140 | Takes the first free slot after the one used last, going around once; out of memory exactly when the table is full; without the peer's address it fails and the slot stays taken; no other connection is disturbed |
| Sessions.SessionMgr.RegisterSession | source/src/enet_encap/encap.cc:143-181 | Registers the connection's slot; a second time is refused with the handle already given, and so is a socket without a slot |
| Sessions.SessionMgr.CheckRegisteredSession | source/src/enet_encap/encap.cc:206-221 | Holds exactly for the handle of this socket's registered slot, and no other handle can pass for that socket |
| Sessions.SessionMgr.UnregisterSession | source/src/enet_encap/encap.cc:266-284 | Closes the slot exactly when handle and socket agree |
| Sessions.SessionMgr.AgeInactivity | source/src/enet_encap/encap.cc:287-322 | Closes exactly the connections idle for the timeout, across the wrap of the clock |
| IoFrame.FrameEndToEnd | source/src/cip/cipconnection.cc:1418-1536 | The bytes of a datagram parse to the same connection id and (unless class 0) sequence number; a consumer of the same class and format whose assembly takes that many bytes stores exactly the producer's bytes when the count is new |
| IoFrame.FrameOffsets | source/src/cip/cipconnection.cc:1441-1508 | A sequenced datagram has two items: the address with id and number, and the connected data with the length of its body |
| IoFrame.DeliveredExactly | source/src/cip/cipconnection.cc:1539-1601 | Exactly when data are too short, a duplicate, a heartbeat, the wrong amount, or stored, and which bytes are |
| IoFrame.ClassZeroOnce | source/src/cip/cipconnectionmanager.cc:138-174 | Class 0 frames carry no sequence number, so of any run of them the filter takes the first and no other |
| IoFrame.IoConn.SendConnectedData | source/src/cip/cipconnection.cc:1418-1536 | Builds that datagram by rewriting the length of an empty item, or fails when the buffer is too small |
| IoFrame.IoConn.HandleReceivedIoConnectionData | source/src/cip/cipconnection.cc:1539-1601 | Strips count and run/idle word and delivers the rest to the assembly, or says why not |
| IoFrame.AssemblyInstance.RecvData | source/src/cip/cipassembly.cc:29-44 | Stores the bytes at the start of the buffer exactly when their number fits a fixed or variable connection |
| Negotiation.ResolveInstances | source/src/cip/cipconnection.cc:532-884 | The nested cases of the code agree with the table of path roles, errors included: a bad later path counts as the consuming one if it is for consumption, and else as the producing one |
| Negotiation.RoleTable | source/src/cip/cipconnection.cc:554-817 | Table 3-5.13 row by row: how many paths a resolved request has and which of them is for configuration, consumption and production |
| Negotiation.ResolvedExactly | source/src/cip/cipconnection.cc:532-884 | A request is resolved exactly when its first path is good, it has no more paths than allowed, the later ones it uses are good and its class accepts them; the first that fails gives the error |
| Negotiation.ClassFaults | source/src/cip/cipconnection.cc:821-864 | Classes 0 and 1 want assemblies, in the order configuration, consumption, production; class 3 wants the message router; other classes nothing |
| Negotiation.CheckedPath | source/src/cip/cipconnection.cc:307-357 | A path names an object exactly when it has enough fields and its class and instance are there; an unknown class that is not reserved has an error of its own |
| Negotiation.ResolvedNamesAssemblies | source/src/cip/cipconnection.cc:819-872 | After resolving a class 0 or 1 request every non-null direction has a path to an assembly object, a null one has none unless it is a ping, and configuration is by the first path exactly when there is a data segment |
| Negotiation.GenuineUnlessZero | source/src/cip/cipconnection.cc:307-357 | The object found for a direction is an instance exactly when its path does not name id 0 |
| Negotiation.ZeroIsResolved | source/src/cip/cipclass.cc:303-306 | A request for assembly instance 0 is resolved, to the class itself |
| Negotiation.SeparatePaths | source/src/cip/cipconnection.cc:704-832 | Two non-null directions get paths of their own exactly when there are enough of them, consumption right before production |
| Negotiation.NcpFields | source/src/cip/cipconnection.h:228-345 | Size, fixed or variable and connection type are read from their bits of the connection parameters, in 16 and 32 bits |
| Negotiation.CorrectSizes | source/src/cip/cipconnection.cc:915-1081 | Sizes are accepted exactly when every direction that is not null suits: the size covers the overhead and the rest suits the assembly. A bad O->T size is reported before a bad T->O one, with overhead plus assembly size proposed in 16 bits |
| Negotiation.ProposalIsAccepted | source/src/cip/cipconnection.cc:951-989 | Asking again for the size proposed succeeds exactly when assembly and overhead fit 16 bits |
| Negotiation.NegotiatedIsDelivered | source/src/cip/cipconnection.cc:1539-1601 | After negotiation every frame of the negotiated size (with variable size: from the overhead up to it) passes header parsing and the assembly's check, heartbeats included |
| Negotiation.AcceptedIsStored | source/src/cip/cipassembly.cc:29-44 | A new frame of the requested length with data in it is stored exactly when that size is accepted |
| Sequence.FilterRefinesOrder | source/src/cip/cipconnectionmanager.cc:143-174 | Over any run of frames whose true numbers stay within 2^31 of the last one taken, the filter on 32 bit numbers takes the first and then exactly those above all taken before |
| Sequence.OrderedIncreases | source/src/cip/cipconnectionmanager.cc:152-160 | What is taken strictly increases, so no frame is taken twice, and what is skipped was overtaken |
| Sequence.WrappedOrder | source/src/cip/cipconnectionmanager.h:125-127 | For all numbers, the 32 bit comparison holds exactly when the distance modulo 2^32 is in the lower half |
| Sequence.CountsRefineOrder | source/src/cip/cipconnection.cc:1541-1554 | The 16 bit counts of class 1 refine the unbounded order within 2^15, starting from the count they start with |
| Sequence.WatchdogIsDeadline | source/src/cip/cipconnection.h:956-1001 | Fed at some true time, the watchdog tells at every moment, until 2^31 microseconds past the deadline, whether interval times multiplier has passed, exactly when that product in full is below 2^31 microseconds |
| Sequence.LongTimeoutIsEarly | source/src/cip/cipconnection.h:956-961 | A longer timeout is cut to 32 bits and fires early: at once if the rest is 0 or at least 2^31, as for every product below 2^32, and else after the rest |
| Sequence.EarlyByTheWrap | source/src/cip/cipconnection.h:956-961 | 8.4 seconds with multiplier 512, which forward open accepts, ask for 4300.8 seconds and time out after 5.8 |
| Sequence.RunClock | source/src/enet_encap/networkhandler.cc:836-844 | Over any run the stack's 32 bit clock is the true time, wrapped |
| Registry.VecSearch | source/src/cip/cipcommon.h:19-37 | On sorted ids the binary search finds what a linear search finds |
| Registry.VecSearchGte | source/src/cip/cipcommon.h:40-57 | Returns the first id that is not below the target |
| Registry.FindUniqueFreeId | source/src/cip/cipclass.cc:226-240 | Returns the least positive id that is not in use |
| Registry.SortedIsUnique | source/src/cip/cipclass.cc:255-274 | The ids registered determine the sorted list |
| Registry.CipClass.InstanceInsert | source/src/cip/cipclass.cc:243-279 | Keeps ids sorted and adds exactly that id; refused exactly when the instance is owned or the id is taken |
| Registry.CipClass.InstanceRemove | source/src/cip/cipclass.cc:282-300 | Keeps ids sorted and removes exactly that id; the instance removed still has the class as its owner |
| Registry.RemoveThenInsert | source/src/cip/cipclass.cc:243-300 | An instance removed from its class is refused by every class, its own included |
| Registry.CipClass.Instance | source/src/cip/cipclass.cc:303-320 | Finds the class for id 0, and else the instance exactly when its id is registered |
| Registry.CipClass.ServiceInsert | source/src/cip/cipclass.cc:348-376 | Keeps ids sorted, replacing a service of the same id and keeping all others |
| Registry.CipClass.Overlaps | source/src/cip/cipclass.cc:430-478 | Reports a clash exactly when some other attribute of the same storage mode overlaps under an incompatible type |
| Registry.IncompatibleMeans | source/src/cip/cipclass.cc:430-478 | Two attributes may not be registered together exactly when they are stored in the same way and share a byte under different types that are not both byte arrays |
| Registry.CipClass.AttributeInsert | source/src/cip/cipclass.cc:420-516 | Refused exactly on such a clash; otherwise ids stay sorted and no two attributes registered are incompatible |
| Registry.RunRegistry | source/src/cip/cipclass.cc:243-300 | Any run of inserts and removes leaves exactly the ids it should, sorted |
| Ticks.NetworkHandler.ProcessOnce | source/src/enet_encap/networkhandler.cc:836-875 | One poll calls ManageConnections once per whole tick elapsed and keeps the remainder, and AgeInactivity at most once |
| Ticks.PollConserves | source/src/enet_encap/networkhandler.cc:836-861 | A poll keeps the account of time exactly when the gap leaves room below 2^32 |
| Ticks.TicksConserved | source/src/enet_encap/networkhandler.cc:836-861 | Over any run of timely polls the elapsed time is the tick length times the calls of ManageConnections plus a remainder below one tick, and the 64 bit clock is true |
| Ticks.TicksFromStart | source/src/enet_encap/networkhandler.cc:836-861 | So it is from start-up, whatever the system clock shows then |
| Ticks.PollChecks | source/src/enet_encap/networkhandler.cc:863-875 | A poll keeps the half-second session checks on time exactly when it comes before two are due |
| Ticks.EncodeTimeout | source/src/cip/cipconnection.cc:258-286 | For every timeout up to 8355840 ms the tick time is the least that can represent it, the count fits 8 bits, and the time encoded is not shorter and less than one tick longer |
| Ticks.TickTimeKept | source/src/cip/cipconnection.h:640-644 | Setting the tick time keeps the priority bits beside it |
| Ticks.EncodeMultiplier | source/src/cip/cipconnection.cc:289-304 | The value chosen is the one whose multiplier is the largest power of two not above the one asked for |
| Ticks.MultiplierRoundTrip | source/src/cip/cipconnection.h:734-742 | The multipliers of the protocol are read back as set |

## Left out

- ConnTheorems.MasterTheorem: runs contain no class 3 request whose paths resolve to something other than the message router (`ConnOpen.Resolved`), because the original then casts an object to a class it is not; expectations are registered before the run, each owner with a slot of its own (`ConnOpen.ConfigWf`).
- ConnService.ForwardOpen: parsing the path, resolving instances and checking sizes enter as their outcome `checks`; what they do is in `ForwardOpen`, `PathChain` and `Negotiation`. The reply message, and the key check of the port segment group, are not modelled.
- ConnService.ForwardClose: the request is parsed in `ForwardOpen`; the reply is not modelled.
- ConnService.OpenConsuming: the O->T socket address item added to the reply is not modelled.
- ConnService.OpenProducing: the T->O socket address item added to the reply is not modelled.
- ConnService.JoinMaster: the T->O socket address item added to the reply is not modelled.
- ConnService.GeneralConfiguration: production inhibit times, and the ids put into the reply, are not modelled.
- ConnService.Activate: comparing or storing configuration data enters as its outcome.
- ConnService.RecvConnectedData: the packet is already parsed and the data are not delivered here; `CpfObjects` and `IoFrame` do that.
- ConnStack.Stack.SendConnectedData: only counters and trigger time; the bytes are those of `IoFrame`. Production inhibit timers and application-triggered sending are not modelled.
- ConnStack.Stack.Close: requires the invariants, which hold at every call; they are what makes the walks safe.
- PathChain.PathRoundTrip: application paths are of the three kinds class and instance, class, instance and attribute, and assembly connection point, with ids below 65536, in the first slots; port 15 and broken milliseconds are excluded here and treated in `ConnPathCodec.GroupRoundTrip`.
- EPathCodec.LogicalRoundTrip: ids below 65536; the exact limit is `EPathCodec.SegmentRoundTrip`.
- EPath.CipPortSegmentGroup.Deserialize: an electronic key of an unknown format counts as a failure; in the original its negative result is added to the reader.
- ForwardOpen.MirrorRoundTrip: both parameter words have the width of the service used.
- CpfCodec.PacketRoundTrip: the data item is shorter than 65536 bytes, as its length field requires.
- IoFrame.IoConn.SendConnectedData: the assembly is at least six bytes shorter than 65536, as the length field requires.
- IoFrame.AssemblyInstance.RecvData: the callback to the application is not modelled.
- Negotiation.ResolveInstances: the instances themselves are looked up in a table of ids; VerifyForwardOpenParams is not modelled.
- Sessions.SessionMgr.RegisterTcpConnection: the address of the peer is not kept, only whether the system knows it.
- Registry.CipClass.AttributeInsert: storage is an interval of a given size; the masks for Get Attributes All are not modelled.
- Ticks.NetworkHandler.ProcessOnce: only the counters of elapsed time; sockets are not polled.
- The producing connection id in the reply when a producer joins an existing master comes from the request; replies are not modelled.
- Sockets, select, socket options and clocks; tracing and formatting; the identity, TCP/IP and Ethernet link objects; string attributes and character conversion; delayed ListIdentity replies.
