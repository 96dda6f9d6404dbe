/** The connection life cycle on values: what each step of the stack does to the pools of
    reserved connections, the list of active ones, the UDP sockets and the TCP sessions.
    Connections are numbered by their pool slot; `active` is the list, head first. */
module ConnSpec {
  import opened Words
  import opened SocketSpec

  /** One tick of the connection timers, in microseconds. */
  const TICK_USECS := 10000

  datatype ConnState = NonExistent | Configuring | Established

  datatype Kind = Explicit | ExclusiveOwner | InputOnly | ListenOnly

  datatype CastType = NullCast | Multicast | PointToPoint | InvalidCast

  datatype Triad = Triad(serial: nat, vendor: nat, originator: nat)

  /** The connection data of a forward open, its path already resolved: `outputPt`,
      `inputPt` and `configPt` are what the consuming, producing and configuration paths
      name (0 when the path is absent). */
  datatype Params = Params(
    triad: Triad, transport: nat, multiplier: nat,
    consuming: CastType, consumingRpi: nat, consumingCid: nat,
    producing: CastType, producingRpi: nat, producingCid: nat,
    outputPt: int, inputPt: int, configPt: int,
    hasConfig: bool, hasConfigData: bool, hasConsumer: bool)

  /** The transport byte: class, trigger and direction bits. */
  function TransportClass(bits: nat): nat { bits % 16 }

  predicate IsServer(bits: nat) { (bits / 128) % 2 == 1 }

  predicate UndocumentedTrigger(bits: nat) { (bits / 4) % 4 != 0 || (bits / 64) % 2 != 0 }

  /** One CipConn. Timers are absolute 32 bit times. */
  datatype Conn = Conn(
    params: Params, state: ConnState, kind: Kind,
    consumingUdp: Option<nat>, producingUdp: Option<nat>,
    sendAddr: SockAddr, recvAddr: SockAddr, opener: nat, session: nat,
    rate: nat, watchdog: nat, trigger: nat,
    eipProducing: nat, eipConsuming: nat, eipFirst: bool,
    seqProducing: nat, seqConsuming: nat)

  datatype World = World(
    conns: seq<Conn>, active: seq<nat>, udp: Udp, lastId: nat, sessions: set<nat>, now: nat)

  /** A registered expectation of one of the three kinds, and the pool slots it owns. */
  datatype Expectation = Expectation(output: int, input: int, config: int, slots: seq<nat>)

  datatype Config = Config(
    owners: seq<Expectation>, inputOnlys: seq<Expectation>, listeners: seq<Expectation>,
    explicits: seq<nat>, ioPort: nat, multicastAddr: nat, incarnation: nat)

  datatype Ext =
    | Success | ConnectionInUse | MultiplierNotAcceptable | InvalidConsumingType | InvalidProducingType
    | TriggerNotSupported | RpiNotSupported | OwnershipConflict | OutOfConnections | NoMoreConnections
    | InconsistentPathCombo | InvalidProducingPath | NonListenOnlyNotOpened | ParameterError
    | NotFound | PrivilegeViolation | OtherError(code: nat)

  /** The T->O socket address item of the request. */
  datatype Saii = Saii(addr: SockAddr, inet: bool)

  /** A forward open as the connection manager sees it: `checks` is the outcome of parsing
      the path, ResolveInstances and CorrectSizes, `configResult` that of comparing or
      storing the configuration data. */
  datatype Request = Request(
    params: Params, toMessageRouter: bool, checks: Ext, configResult: Ext,
    peer: nat, session: nat, saii: Option<Saii>, osIn: Os, osOut: Os)

  predicate Ready(w: World) {
    InRange(w.active, |w.conns|) && Ranged(w.udp)
  }

  function Put(w: World, i: nat, c: Conn): (r: World)
    requires i < |w.conns|
    ensures |r.conns| == |w.conns| && r.active == w.active && r.udp == w.udp
  {
    w.(conns := w.conns[i := c])
  }

  // ----- Looking along the active list

  predicate MasterKind(k: Kind) {
    k == ExclusiveOwner || k == InputOnly
  }

  /** A multicast producer of input point p that may manage the producing socket, and does
      (or does not) hold it. */
  predicate Candidate(c: Conn, p: int, holding: bool) {
    MasterKind(c.kind) && c.params.inputPt == p && c.params.producing == Multicast
    && c.producingUdp.Some? == holding
  }

  /** GetExistingProducerMulticastConnection (holding) and GetNextNonControlMasterConnection. */
  function FirstCandidate(cs: seq<Conn>, s: seq<nat>, p: int, holding: bool): (r: Option<nat>)
    requires InRange(s, |cs|)
    ensures r.Some? ==> r.value in s && r.value < |cs| && Candidate(cs[r.value], p, holding)
    ensures r.None? ==> forall k :: k in s ==> !Candidate(cs[k], p, holding)
  {
    if s == [] then None
    else if Candidate(cs[s[0]], p, holding) then Some(s[0])
    else FirstCandidate(cs, s[1..], p, holding)
  }

  /** FindExistingMatchingConnection. */
  function FindTriad(cs: seq<Conn>, s: seq<nat>, t: Triad): (r: Option<nat>)
    requires InRange(s, |cs|)
    ensures r.Some? ==> r.value in s && r.value < |cs| && cs[r.value].params.triad == t
    ensures r.None? ==> forall k :: k in s && cs[k].state == Established ==> cs[k].params.triad != t
  {
    if s == [] then None
    else if cs[s[0]].state == Established && cs[s[0]].params.triad == t then Some(s[0])
    else FindTriad(cs, s[1..], t)
  }

  /** GetConnectedOutputAssembly. */
  predicate OutputConnected(cs: seq<Conn>, s: seq<nat>, output: int)
    requires InRange(s, |cs|)
  {
    exists k :: k in s && cs[k].state == Established && cs[k].params.outputPt == output
  }

  /** GetConnectionByConsumingId. */
  function FindConsumer(cs: seq<Conn>, s: seq<nat>, cid: nat): (r: Option<nat>)
    requires InRange(s, |cs|)
    ensures r.Some? ==> r.value in s && r.value < |cs|
  {
    if s == [] then None
    else if cs[s[0]].state == Established && cs[s[0]].params.consumingCid == cid then Some(s[0])
    else FindConsumer(cs, s[1..], cid)
  }

  // ----- Closing

  /** Giving back a socket; a record the manager does not know is ignored. */
  function ReleaseEnd(u: Udp, id: Option<nat>): (r: Udp)
    requires Ranged(u)
    ensures Ranged(r)
  {
    if id.Some? && id.value < |u.recs| then Release(u, id.value) else u
  }

  /** The tail of Close: both sockets, the session, the list and the state. */
  function Shut(w: World, i: nat): (r: World)
    requires Ready(w) && i < |w.conns|
    ensures Ready(r) && |r.conns| == |w.conns|
  {
    var c := w.conns[i];
    World(
      w.conns[i := c.(consumingUdp := None, producingUdp := None, session := 0, state := NonExistent)],
      Without(w.active, i),
      ReleaseEnd(ReleaseEnd(w.udp, c.consumingUdp), c.producingUdp),
      w.lastId, w.sessions, w.now)
  }

  /** The master i hands the producing socket, and the stream on it, to n. */
  function HandOver(w: World, i: nat, n: nat): (r: World)
    requires i < |w.conns| && n < |w.conns|
  {
    var c := w.conns[i];
    Put(Put(w, n, w.conns[n].(producingUdp := c.producingUdp, sendAddr := c.sendAddr,
                              eipProducing := c.eipProducing, seqProducing := c.seqProducing,
                              trigger := c.trigger)),
        i, c.(producingUdp := None))
  }

  /** What a timed out master hands over: the socket and the timer, not the counters. */
  function HandOverSocket(w: World, i: nat, n: nat): (r: World)
    requires i < |w.conns| && n < |w.conns|
  {
    var c := w.conns[i];
    Put(Put(w, n, w.conns[n].(producingUdp := c.producingUdp, trigger := c.trigger)),
        i, c.(producingUdp := None))
  }

  function Rank(k: Kind): nat {
    if MasterKind(k) then 1 else 0
  }

  /** CipConn::Close. */
  function Close(w: World, i: nat): (r: World)
    requires Ready(w) && i < |w.conns|
    ensures Ready(r) && |r.conns| == |w.conns| && r.sessions == w.sessions
    ensures forall k :: k in r.active ==> k in w.active
    ensures w.conns[i].state != NonExistent ==> i !in r.active
    decreases Rank(w.conns[i].kind), 0, 0
  {
    var c := w.conns[i];
    if c.state == NonExistent then w
    else if MasterKind(c.kind) && c.params.producing == Multicast && c.producingUdp.Some? then
      match FirstCandidate(w.conns, w.active, c.params.inputPt, false)
      case Some(n) => Shut(HandOver(w, i, n), i)
      case None => Shut(CloseEach(w, w.active, c.params.inputPt, ListenOnly), i)
    else Shut(w, i)
  }

  predicate Matches(c: Conn, p: int, t: Kind) {
    c.kind == t && c.params.inputPt == p
  }

  /** CloseAllConnectionsForInputWithSameType along the list `s`. */
  function CloseEach(w: World, s: seq<nat>, p: int, t: Kind): (r: World)
    requires Ready(w) && InRange(s, |w.conns|)
    ensures Ready(r) && |r.conns| == |w.conns| && r.sessions == w.sessions
    ensures forall k :: k in r.active ==> k in w.active
    decreases Rank(t), 1, |s|
  {
    if s == [] then w
    else if Matches(w.conns[s[0]], p, t) then CloseEach(Close(w, s[0]), s[1..], p, t)
    else CloseEach(w, s[1..], p, t)
  }

  function Elements(s: seq<nat>): (r: set<nat>)
    ensures forall k :: k in r <==> k in s
  {
    set k | k in s
  }

  /** CloseAllConnections. The second guard is never met while every listed connection is
      open (see ConnRuns.ShutdownEmpties): closing the head always shortens the list. */
  function CloseAll(w: World): (r: World)
    requires Ready(w)
    ensures Ready(r) && |r.conns| == |w.conns|
    decreases Elements(w.active)
  {
    if w.active == [] || w.conns[w.active[0]].state == NonExistent then w
    else
      var v := Close(w, w.active[0]);
      assert w.active[0] in Elements(w.active) && w.active[0] !in Elements(v.active);
      CloseAll(v)
  }

  /** CloseClass3Connections along the list `s`. */
  function CloseClass3(w: World, s: seq<nat>, h: nat): (r: World)
    requires Ready(w) && InRange(s, |w.conns|)
    ensures Ready(r) && |r.conns| == |w.conns|
    decreases |s|
  {
    if s == [] then w
    else
      var c := w.conns[s[0]];
      CloseClass3(if TransportClass(c.params.transport) == 3 && c.session == h then Close(w, s[0]) else w, s[1..], h)
  }

  // ----- Timers and the watchdog

  function Pow2(n: nat): (r: nat)
    ensures r > 0
  {
    if n == 0 then 1 else 2 * Pow2(n - 1)
  }

  /** The timeout the originator asked for: the interval times 4, 8, ... or 512. */
  function Timeout(c: Conn): nat {
    c.rate * Pow2(2 + c.params.multiplier)
  }

  /** The timeout as it is computed, in 32 bits. */
  function RxTimeout(c: Conn): nat {
    U32(Timeout(c))
  }

  /** SetExpectedPacketRateUSecs: the interval rounded up to whole ticks. */
  function RoundUpToTick(rpi: nat): nat {
    if rpi % TICK_USECS != 0 then U32(rpi / TICK_USECS * TICK_USECS + TICK_USECS) else rpi
  }

  predicate HasWatchdog(c: Conn) {
    c.rate != 0 && (c.params.hasConsumer || IsServer(c.params.transport))
  }

  predicate Expired(c: Conn, now: nat) {
    c.state == Established && HasWatchdog(c) && Diff32(c.watchdog, now) <= 0
  }

  /** CheckForTimedOutConnectionsAndCloseTCPConnections. */
  function CheckSession(w: World, h: nat): World
    requires Ready(w)
  {
    if exists k :: k in w.active && w.conns[k].session == h then w
    else w.(sessions := w.sessions - {h})
  }

  /** The part of timeOut before it calls Close. */
  function TimeOutCascade(w: World, i: nat): (r: World)
    requires Ready(w) && i < |w.conns|
    ensures Ready(r) && |r.conns| == |w.conns| && r.sessions == w.sessions
  {
    var c := w.conns[i];
    var p := c.params.inputPt;
    if c.params.producing != Multicast then w
    else if c.kind == ExclusiveOwner then
      var v := CloseEach(w, w.active, p, InputOnly);
      CloseEach(v, v.active, p, ListenOnly)
    else if c.kind == InputOnly && c.producingUdp.Some? then
      match FirstCandidate(w.conns, w.active, p, false)
      case Some(n) => HandOverSocket(w, i, n)
      case None => CloseEach(w, w.active, p, ListenOnly)
    else w
  }

  /** CipConn::timeOut. */
  function TimeOut(w: World, i: nat): (r: World)
    requires Ready(w) && i < |w.conns|
    ensures Ready(r) && |r.conns| == |w.conns|
  {
    var v := TimeOutCascade(w, i);
    var h := v.conns[i].session;
    var x := Close(v, i);
    if h != 0 then CheckSession(x, h) else x
  }

  predicate Due(c: Conn, now: nat) {
    c.state == Established && !IsServer(c.params.transport) && c.rate != 0
    && c.producingUdp.Some? && Diff32(c.trigger, now) <= 0
  }

  /** One datagram goes out: SendConnectedData and the next trigger time. */
  function Produce(c: Conn, changed: bool): Conn {
    c.(eipProducing := U32(c.eipProducing + 1),
       seqProducing := if changed then U16(c.seqProducing + 1) else c.seqProducing,
       trigger := U32(c.trigger + c.params.producingRpi))
  }

  /** ManageConnections along the list `s`: the walk ends at the first expired connection,
      because timing out unlinks the node the walk stands on. */
  function ManageWalk(w: World, s: seq<nat>, changed: set<nat>): (r: World)
    requires Ready(w) && InRange(s, |w.conns|)
    ensures Ready(r) && |r.conns| == |w.conns|
    decreases |s|
  {
    if s == [] then w
    else
      var c := w.conns[s[0]];
      if Expired(c, w.now) then TimeOut(w, s[0])
      else ManageWalk(if Due(c, w.now) then Put(w, s[0], Produce(c, s[0] in changed)) else w, s[1..], changed)
  }

  // ----- Opening

  /** A slot of the pools, a refusal, or nothing registered for this request. */
  datatype Pick = Found(slot: nat, kind: Kind) | Refused(ext: Ext) | NoMatch

  predicate SlotsInRange(es: seq<Expectation>, n: nat) {
    forall k :: 0 <= k < |es| ==> InRange(es[k].slots, n)
  }

  predicate ConfigFits(cfg: Config, n: nat) {
    && SlotsInRange(cfg.owners, n) && SlotsInRange(cfg.inputOnlys, n) && SlotsInRange(cfg.listeners, n)
    && (forall k :: 0 <= k < |cfg.owners| ==> |cfg.owners[k].slots| == 1)
    && InRange(cfg.explicits, n)
  }

  /** Alloc and getFreeExplicitConnection: the first slot that is not in use. */
  function FirstFree(cs: seq<Conn>, slots: seq<nat>): (r: Option<nat>)
    requires InRange(slots, |cs|)
    ensures r.Some? ==> r.value in slots && r.value < |cs| && cs[r.value].state == NonExistent
    ensures r.None? ==> forall k :: k in slots ==> cs[k].state != NonExistent
  {
    if slots == [] then None
    else if cs[slots[0]].state == NonExistent then Some(slots[0])
    else FirstFree(cs, slots[1..])
  }

  /** ExclusiveOwner::GetConnection. */
  function PickOwner(w: World, es: seq<Expectation>, q: Params): (r: Pick)
    requires Ready(w) && SlotsInRange(es, |w.conns|)
    requires forall k :: 0 <= k < |es| ==> |es[k].slots| == 1
    ensures r.Found? ==> r.slot < |w.conns| && r.kind == ExclusiveOwner
    ensures r.Refused? ==> r.ext != Success
  {
    if es == [] then NoMatch
    else
      var e := es[0];
      if e.output == q.outputPt && e.input == q.inputPt
         && (e.config == q.configPt || (e.config == -1 && !q.hasConfig))
      then
        if OutputConnected(w.conns, w.active, q.outputPt) then Refused(OwnershipConflict)
        else Found(e.slots[0], ExclusiveOwner)
      else PickOwner(w, es[1..], q)
  }

  /** InputOnlyConnSet::GetConnection and, past its own two checks, that of the listeners. */
  function PickFromSets(w: World, es: seq<Expectation>, q: Params, kind: Kind, outputSeen: bool, inputSeen: bool): (r: Pick)
    requires Ready(w) && SlotsInRange(es, |w.conns|)
    ensures r.Found? ==> r.slot < |w.conns| && r.kind == kind && w.conns[r.slot].state == NonExistent
    ensures r.Refused? ==> r.ext != Success
    ensures r.Found? && kind == ListenOnly ==> FirstCandidate(w.conns, w.active, q.inputPt, true).Some?
  {
    if es == [] then
      if inputSeen then Refused(InconsistentPathCombo)
      else if outputSeen then Refused(InvalidProducingPath)
      else NoMatch
    else
      var e := es[0];
      if e.output != q.outputPt then PickFromSets(w, es[1..], q, kind, outputSeen, inputSeen)
      else if e.input != q.inputPt then PickFromSets(w, es[1..], q, kind, true, inputSeen)
      else if e.config != q.configPt then PickFromSets(w, es[1..], q, kind, true, true)
      else if kind == ListenOnly && FirstCandidate(w.conns, w.active, q.inputPt, true).None? then
        Refused(NonListenOnlyNotOpened)
      else
        match FirstFree(w.conns, e.slots)
        case Some(k) => Found(k, kind)
        case None => Refused(OutOfConnections)
  }

  function PickListener(w: World, es: seq<Expectation>, q: Params): (r: Pick)
    requires Ready(w) && SlotsInRange(es, |w.conns|)
  {
    if q.producing != Multicast then Refused(NonListenOnlyNotOpened)
    else PickFromSets(w, es, q, ListenOnly, false, false)
  }

  /** GetIoConnectionForConnectionData. */
  function PickIo(w: World, cfg: Config, q: Params): (r: Pick)
    requires Ready(w) && ConfigFits(cfg, |w.conns|)
    ensures !r.NoMatch?
    ensures r.Found? ==> r.slot < |w.conns| && r.kind != Explicit
    ensures r.Refused? ==> r.ext != Success
  {
    var o := PickOwner(w, cfg.owners, q);
    if !o.NoMatch? then o
    else
      var n := PickFromSets(w, cfg.inputOnlys, q, InputOnly, false, false);
      if !n.NoMatch? then n
      else
        var l := PickListener(w, cfg.listeners, q);
        if !l.NoMatch? then l else Refused(InconsistentPathCombo)
  }

  /** NewConnectionId: the incarnation in the upper half, a 16 bit count in the lower. */
  function NewId(cfg: Config, lastId: nat): nat {
    cfg.incarnation * TWO16 + U16(lastId + 1)
  }

  /** The connection ids this end selects: the consuming one of a point to point, the
      producing one of a multicast connection. */
  function SelectIds(cfg: Config, lastId: nat, q: Params): (Params, nat) {
    var p2p := q.consuming == PointToPoint;
    var id1 := if p2p then U16(lastId + 1) else lastId;
    var q1 := if p2p then q.(consumingCid := NewId(cfg, lastId)) else q;
    var id2 := if q.producing == Multicast then U16(id1 + 1) else id1;
    (if q.producing == Multicast then q1.(producingCid := NewId(cfg, id1)) else q1, id2)
  }

  /** The counters start over and the timers are armed, the watchdog for ten seconds at
      least. */
  function Arm(c: Conn, q: Params, kind: Kind, now: nat): Conn {
    var d := c.(params := q, kind := kind,
                eipProducing := 0, seqProducing := 0,
                eipConsuming := 0, eipFirst := true, seqConsuming := 0,
                trigger := if IsServer(q.transport) then c.trigger else now,
                rate := RoundUpToTick(q.consumingRpi));
    var t := RxTimeout(d);
    d.(watchdog := if t != 0 then U32(now + (if t < 10000000 then 10000000 else t)) else c.watchdog)
  }

  /** GeneralConfiguration: copy the request, choose the ids this end selects, arm the timers. */
  function Configure(w: World, cfg: Config, i: nat, q: Params, kind: Kind): (r: World)
    requires i < |w.conns|
    ensures |r.conns| == |w.conns| && r.active == w.active && r.udp == w.udp
  {
    var (p, id) := SelectIds(cfg, w.lastId, q);
    Put(w, i, Arm(w.conns[i], p, kind, w.now)).(lastId := id)
  }

  function OpenConsuming(w: World, cfg: Config, i: nat, q: Request): (res: (World, Ext))
    requires Ready(w) && i < |w.conns|
    ensures Ready(res.0) && |res.0.conns| == |w.conns| && res.0.active == w.active
  {
    var c := w.conns[i];
    if c.params.consuming == Multicast then
      if q.saii.None? || !q.saii.value.inet || !IsMulticast(q.saii.value.addr) then (w, ParameterError)
      else
        var (u, id) := Grab(w.udp, BASE, Some(q.saii.value.addr.(port := IO_UDP_PORT)), q.osIn);
        if id.None? then (w.(udp := u), OutOfConnections)
        else (Put(w, i, c.(consumingUdp := id, recvAddr := SockAddr(q.peer, IO_UDP_PORT))).(udp := u), Success)
    else if c.params.consuming == PointToPoint then
      var (u, id) := Grab(w.udp, SockAddr(0, cfg.ioPort), None, q.osIn);
      if id.None? then (w.(udp := u), OutOfConnections)
      else (Put(w, i, c.(consumingUdp := id, recvAddr := SockAddr(q.peer, cfg.ioPort))).(udp := u), Success)
    else (w, Success)
  }

  /** openProducingMulticastConnection when the input point already has a master m: an
      exclusive owner takes the socket over, the others only share the connection id. */
  function JoinMaster(w: World, cfg: Config, i: nat, m: nat): (r: World)
    requires i < |w.conns| && m < |w.conns|
    ensures |r.conns| == |w.conns| && r.active == w.active && r.udp == w.udp
  {
    var c := w.conns[i];
    var joined := c.(params := c.params.(producingCid := w.conns[m].params.producingCid),
                     sendAddr := SockAddr(cfg.multicastAddr, IO_UDP_PORT));
    if c.kind == ExclusiveOwner then
      Put(Put(w, i, joined.(producingUdp := w.conns[m].producingUdp)), m, w.conns[m].(producingUdp := None))
    else
      Put(w, i, joined.(producingUdp := None))
  }

  function OpenProducing(w: World, cfg: Config, i: nat, q: Request): (res: (World, Ext))
    requires Ready(w) && i < |w.conns|
    ensures Ready(res.0) && |res.0.conns| == |w.conns| && res.0.active == w.active
  {
    var c := w.conns[i];
    if c.params.producing == Multicast then
      match FirstCandidate(w.conns, w.active, c.params.inputPt, true)
      case Some(m) => (JoinMaster(w, cfg, i, m), Success)
      case None =>
        var (u, id) := Grab(w.udp, SockAddr(0, cfg.ioPort), None, q.osOut);
        if id.None? then (w.(udp := u), OutOfConnections)
        else (Put(w, i, c.(producingUdp := id, sendAddr := SockAddr(cfg.multicastAddr, IO_UDP_PORT))).(udp := u), Success)
    else if c.params.producing == PointToPoint then
      var (u, id) := Grab(w.udp, SockAddr(0, cfg.ioPort), None, q.osOut);
      var port := if q.saii.Some? then q.saii.value.addr.port else IO_UDP_PORT;
      if id.None? then (w.(udp := u), OutOfConnections)
      else (Put(w, i, c.(producingUdp := id, sendAddr := SockAddr(q.peer, port))).(udp := u), Success)
    else (w, Success)
  }

  function OpenChannels(w: World, cfg: Config, i: nat, q: Request): (res: (World, Ext))
    requires Ready(w) && i < |w.conns|
    ensures Ready(res.0) && |res.0.conns| == |w.conns| && res.0.active == w.active
  {
    var (v, e) := OpenConsuming(w, cfg, i, q);
    if e != Success then (v, e) else OpenProducing(v, cfg, i, q)
  }

  /** CipConn::Clear( false ): everything but the connection data. */
  function Cleared(c: Conn, now: nat): Conn {
    Blank(c.params, now)
  }

  function Blank(p: Params, now: nat): Conn {
    Conn(p, NonExistent, Explicit, None, None,
         SockAddr(0, 0), SockAddr(0, 0), 0, 0, 0, now, now, 0, 0, true, 0, 0)
  }

  /** The failure path of Activate: whatever was opened is given back. */
  function Abandon(w: World, i: nat): (r: World)
    requires Ready(w) && i < |w.conns|
    ensures Ready(r) && |r.conns| == |w.conns| && r.active == w.active
  {
    var c := w.conns[i];
    Put(w, i, Cleared(c, w.now)).(udp := ReleaseEnd(ReleaseEnd(w.udp, c.consumingUdp), c.producingUdp))
  }

  /** CipConn::Activate. */
  function Activate(w: World, cfg: Config, i: nat, q: Request): (res: (World, Ext))
    requires Ready(w) && i < |w.conns|
    ensures Ready(res.0) && |res.0.conns| == |w.conns|
  {
    var c := w.conns[i];
    if c.params.hasConfig && c.params.hasConfigData && q.configResult != Success then
      (Put(w, i, Cleared(c, w.now)), q.configResult)
    else
      var (v, e) := OpenChannels(Put(w, i, c.(session := q.session)), cfg, i, q);
      if e != Success then (Abandon(v, i), e)
      else (Put(v, i, v.conns[i].(state := Established)).(active := [i] + v.active), Success)
  }

  /** CipConnectionClass::OpenIO, from the choice of a slot on. */
  function OpenIo(w: World, cfg: Config, q: Request): (res: (World, Ext))
    requires Ready(w) && ConfigFits(cfg, |w.conns|)
    ensures Ready(res.0) && |res.0.conns| == |w.conns|
  {
    match PickIo(w, cfg, q.params)
    case Refused(e) => (w, e)
    case NoMatch => (w, InconsistentPathCombo)
    case Found(i, kind) =>
      var c := w.conns[i];
      var w1 := Put(w, i, if kind == ExclusiveOwner then c else c.(state := Configuring));
      var (v, e) := Activate(Configure(w1, cfg, i, q.params, kind), cfg, i, q);
      if e == Success then (Put(v, i, v.conns[i].(opener := q.peer)), e) else (v, e)
  }

  /** CipMessageRouterClass::OpenConnection. */
  function OpenExplicit(w: World, cfg: Config, q: Request): (res: (World, Ext))
    requires Ready(w) && ConfigFits(cfg, |w.conns|)
    ensures Ready(res.0) && |res.0.conns| == |w.conns|
  {
    match FirstFree(w.conns, cfg.explicits)
    case None => (w, NoMoreConnections)
    case Some(i) =>
      var v := Configure(w, cfg, i, q.params, Explicit);
      (Put(v, i, v.conns[i].(opener := q.peer, session := q.session, state := Established)).(active := [i] + v.active), Success)
  }

  /** The requested interval cut down to whole ticks, or None when nothing is left of it. */
  function Faster(rpi: nat): Option<nat> {
    if rpi % TICK_USECS == 0 then Some(rpi)
    else if rpi < TICK_USECS then None
    else Some(rpi / TICK_USECS * TICK_USECS)
  }

  /** CipConnMgrClass::forward_open. */
  function ForwardOpen(w: World, cfg: Config, q: Request): (res: (World, Ext))
    requires Ready(w) && ConfigFits(cfg, |w.conns|)
    ensures Ready(res.0) && |res.0.conns| == |w.conns|
  {
    var p := q.params;
    if FindTriad(w.conns, w.active, p.triad).Some? then (w, ConnectionInUse)
    else if p.multiplier > 7 then (w, MultiplierNotAcceptable)
    else if p.consuming == InvalidCast then (w, InvalidConsumingType)
    else if p.producing == InvalidCast then (w, InvalidProducingType)
    else if UndocumentedTrigger(p.transport) then (w, TriggerNotSupported)
    else if Faster(p.consumingRpi).None? || Faster(p.producingRpi).None? then (w, RpiNotSupported)
    else if q.checks != Success then (w, q.checks)
    else
      var q1 := q.(params := p.(consumingRpi := Faster(p.consumingRpi).value, producingRpi := Faster(p.producingRpi).value));
      if q.toMessageRouter then OpenExplicit(w, cfg, q1) else OpenIo(w, cfg, q1)
  }

  /** CipConnMgrClass::forward_close_service, the lookup and the close. */
  function ForwardClose(w: World, t: Triad, peer: nat): (res: (World, Ext))
    requires Ready(w)
    ensures Ready(res.0) && |res.0.conns| == |w.conns|
  {
    match FindTriad(w.conns, w.active, t)
    case None => (w, NotFound)
    case Some(i) =>
      if w.conns[i].opener != peer then (w, PrivilegeViolation) else (Close(w, i), Success)
  }

  // ----- Received frames

  /** The encapsulation sequence filter of RecvConnectedData on one connection. */
  function Filter(c: Conn, seqNum: nat): (Conn, bool) {
    var c1 := if c.eipFirst then c.(eipConsuming := U32(seqNum - 1), eipFirst := false) else c;
    if Diff32(seqNum, c1.eipConsuming) > 0 then (c1.(eipConsuming := seqNum), true) else (c1, false)
  }

  /** RecvConnectedData as far as the connection is concerned. */
  function Receive(w: World, cid: nat, from: nat, seqNum: nat, count: nat): (r: World)
    requires Ready(w)
    ensures Ready(r) && |r.conns| == |w.conns|
  {
    match FindConsumer(w.conns, w.active, cid)
    case None => w
    case Some(i) =>
      if from != w.conns[i].recvAddr.addr then w
      else
        var (c, isNew) := Filter(w.conns[i], seqNum);
        if !isNew then Put(w, i, c)
        else
          var d := c.(watchdog := U32(w.now + RxTimeout(c)));
          if TransportClass(d.params.transport) == 1 && Diff16(count, d.seqConsuming) > 0
          then Put(w, i, d.(seqConsuming := count))
          else Put(w, i, d)
  }

  /** A connected explicit message only feeds the watchdog. */
  function ReceiveExplicit(w: World, cid: nat): (r: World)
    requires Ready(w)
    ensures Ready(r) && |r.conns| == |w.conns|
  {
    match FindConsumer(w.conns, w.active, cid)
    case None => w
    case Some(i) => Put(w, i, w.conns[i].(watchdog := U32(w.now + RxTimeout(w.conns[i]))))
  }

  // ----- Runs

  datatype Step =
    | Open(q: Request)
    | CloseRequest(triad: Triad, peer: nat)
    | Manage(changed: set<nat>)
    | Frame(cid: nat, from: nat, seqNum: nat, count: nat)
    | Message(cid: nat)
    | SessionOpened(h: nat)
    | SessionAged(h: nat)
    | Elapse(usecs: nat)
    | Shutdown

  function Do(w: World, cfg: Config, s: Step): (r: World)
    requires Ready(w) && ConfigFits(cfg, |w.conns|)
    ensures Ready(r) && |r.conns| == |w.conns|
  {
    match s
    case Open(q) => ForwardOpen(w, cfg, q).0
    case CloseRequest(t, peer) => ForwardClose(w, t, peer).0
    case Manage(changed) => ManageWalk(w, w.active, changed)
    case Frame(cid, from, seqNum, count) => Receive(w, cid, from, seqNum, count)
    case Message(cid) => ReceiveExplicit(w, cid)
    case SessionOpened(h) => w.(sessions := w.sessions + {h})
    case SessionAged(h) => var v := CloseClass3(w, w.active, h); v.(sessions := v.sessions - {h})
    case Elapse(usecs) => w.(now := U32(w.now + usecs))
    case Shutdown => CloseAll(w)
  }

  function Run(w: World, cfg: Config, steps: seq<Step>): (r: World)
    requires Ready(w) && ConfigFits(cfg, |w.conns|)
    ensures Ready(r) && |r.conns| == |w.conns|
    decreases |steps|
  {
    if steps == [] then w else Run(Do(w, cfg, steps[0]), cfg, steps[1..])
  }

  /** Start-up: every slot free, nothing listed, no socket made yet. */
  function Boot(n: nat, now: nat): (r: World)
    ensures Ready(r) && |r.conns| == n
  {
    var p := Params(Triad(0, 0, 0), 0, 0, NullCast, 0, 0, NullCast, 0, 0, 0, 0, 0, false, false, false);
    var c := Conn(p, NonExistent, Explicit, None, None, SockAddr(0, 0), SockAddr(0, 0), 0, 0, 0, now, now, 0, 0, true, 0, 0);
    World(seq(n, _ => c), [], Udp([], [], [], []), 18, {}, now)
  }
}
