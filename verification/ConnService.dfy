/** The requests the stack serves, on its objects: the pools, forward open and close,
    received frames, closing a session, shutdown. Each method does what ConnSpec says, so a
    stack that serves any sequence of requests goes through the states of a run. */
module ConnService {
  import opened Words
  import opened SocketSpec
  import opened SocketInv
  import opened ConnSpec
  import opened ConnInv
  import opened ConnOpen
  import opened ConnRuns
  import opened ConnTheorems
  import opened UdpSockets
  import opened ConnList
  import opened ConnStack

  // ----- The pools

  /** Alloc and getFreeExplicitConnection: scan the slots of one pool. */
  method FreeSlot(s: Stack, slots: seq<nat>) returns (r: Option<nat>)
    requires s.Valid() && InRange(slots, |s.conns|)
    ensures |s.world.conns| == |s.conns| && r == FirstFree(s.world.conns, slots)
  {
    hide Stack.Valid;
    s.AtHead();
    var j := 0;
    while j < |slots|
      invariant 0 <= j <= |slots|
      invariant FirstFree(s.world.conns, slots) == FirstFree(s.world.conns, slots[j..])
    {
      s.MineAt(slots[j]);
      s.See(s.conns[slots[j]]);
      if s.conns[slots[j]].state == NonExistent {
        return Some(slots[j]);
      }
      assert slots[j..][1..] == slots[j + 1..];
      j := j + 1;
    }
    r := None;
  }

  /** GetConnectedOutputAssembly. */
  method ConnectedOutput(s: Stack, output: int) returns (r: bool)
    requires s.Valid()
    ensures Ready(s.world) && r == OutputConnected(s.world.conns, s.world.active, output)
  {
    hide Stack.Valid;
    s.AtHead();
    var c := s.box.head;
    ghost var k := 0;
    while c != null
      invariant 0 <= k <= |s.world.active|
      invariant c == if k < |s.world.active| then s.conns[s.world.active[k]] else null
      invariant forall j :: 0 <= j < k ==>
                  !(s.world.conns[s.world.active[j]].state == Established && s.world.conns[s.world.active[j]].params.outputPt == output)
      decreases |s.world.active| - k
    {
      s.At(k);
      s.See(c);
      if c.state == Established && output == c.params.outputPt {
        assert s.world.active[k] in s.world.active;
        return true;
      }
      c := c.next;
      k := k + 1;
    }
    r := false;
  }

  /** FindExistingMatchingConnection. */
  method FindMatching(s: Stack, t: Triad) returns (r: CipConn?)
    requires s.Valid()
    ensures Ready(s.world)
    ensures var f := FindTriad(s.world.conns, s.world.active, t);
            if r == null then f == None else f == Some(r.id) && s.Mine(r)
  {
    hide Stack.Valid;
    s.AtHead();
    assert s.world.active[0..] == s.world.active;
    var c := s.box.head;
    ghost var k := 0;
    while c != null
      invariant 0 <= k <= |s.world.active|
      invariant c == if k < |s.world.active| then s.conns[s.world.active[k]] else null
      invariant FindTriad(s.world.conns, s.world.active, t) == FindTriad(s.world.conns, s.world.active[k..], t)
      decreases |s.world.active| - k
    {
      s.At(k);
      s.See(c);
      assert s.world.active[k..][1..] == s.world.active[k + 1..];
      if c.state == Established && c.params.triad == t {
        return c;
      }
      c := c.next;
      k := k + 1;
    }
    r := null;
  }

  /** GetConnectionByConsumingId. */
  method FindByConsumingId(s: Stack, cid: nat) returns (r: CipConn?)
    requires s.Valid()
    ensures Ready(s.world)
    ensures var f := FindConsumer(s.world.conns, s.world.active, cid);
            if r == null then f == None else f == Some(r.id) && s.Mine(r)
  {
    hide Stack.Valid;
    s.AtHead();
    assert s.world.active[0..] == s.world.active;
    var c := s.box.head;
    ghost var k := 0;
    while c != null
      invariant 0 <= k <= |s.world.active|
      invariant c == if k < |s.world.active| then s.conns[s.world.active[k]] else null
      invariant FindConsumer(s.world.conns, s.world.active, cid) == FindConsumer(s.world.conns, s.world.active[k..], cid)
      decreases |s.world.active| - k
    {
      s.At(k);
      s.See(c);
      assert s.world.active[k..][1..] == s.world.active[k + 1..];
      if c.state == Established && c.params.consumingCid == cid {
        return c;
      }
      c := c.next;
      k := k + 1;
    }
    r := null;
  }

  /** ExclusiveOwner::GetConnection. */
  method GetOwner(s: Stack, q: Params) returns (r: Pick)
    requires s.Valid() && ConfigFits(s.cfg, |s.conns|)
    ensures Ready(s.world) && |s.world.conns| == |s.conns| && r == PickOwner(s.world, s.cfg.owners, q)
  {
    hide Stack.Valid, OutputConnected;
    s.AtHead();
    var es := s.cfg.owners;
    var k := 0;
    while k < |es|
      invariant 0 <= k <= |es|
      invariant PickOwner(s.world, es, q) == PickOwner(s.world, es[k..], q)
    {
      assert es[k..][1..] == es[k + 1..];
      if es[k].output == q.outputPt && es[k].input == q.inputPt
         && (es[k].config == q.configPt || (es[k].config == -1 && !q.hasConfig)) {
        var connected := ConnectedOutput(s, q.outputPt);
        return if connected then Refused(OwnershipConflict) else Found(es[k].slots[0], ExclusiveOwner);
      }
      k := k + 1;
    }
    r := NoMatch;
  }

  /** InputOnlyConnSet::GetConnection and the loop of ListenOnlyConnSet::GetConnection. */
  method GetFromSets(s: Stack, es: seq<Expectation>, q: Params, kind: Kind) returns (r: Pick)
    requires s.Valid() && SlotsInRange(es, |s.conns|)
    ensures Ready(s.world) && |s.world.conns| == |s.conns| && r == PickFromSets(s.world, es, q, kind, false, false)
  {
    hide Stack.Valid, FirstCandidate, FirstFree;
    s.AtHead();
    var outputMatches, inputMatches := false, false;
    var k := 0;
    while k < |es|
      invariant 0 <= k <= |es|
      invariant PickFromSets(s.world, es, q, kind, false, false) == PickFromSets(s.world, es[k..], q, kind, outputMatches, inputMatches)
    {
      assert es[k..][1..] == es[k + 1..];
      if es[k].output == q.outputPt {
        outputMatches := true;
        if es[k].input == q.inputPt {
          inputMatches := true;
          if es[k].config == q.configPt {
            r := GetFromSet(s, es[k], q, kind);
            return;
          }
        }
      }
      k := k + 1;
    }
    r := if inputMatches then Refused(InconsistentPathCombo)
         else if outputMatches then Refused(InvalidProducingPath)
         else NoMatch;
  }

  /** A slot of the expectation all three paths agree with. */
  method GetFromSet(s: Stack, e: Expectation, q: Params, kind: Kind) returns (r: Pick)
    requires s.Valid() && InRange(e.slots, |s.conns|)
    ensures Ready(s.world) && |s.world.conns| == |s.conns|
    ensures r == if kind == ListenOnly && FirstCandidate(s.world.conns, s.world.active, q.inputPt, true).None? then
                   Refused(NonListenOnlyNotOpened)
                 else
                   match FirstFree(s.world.conns, e.slots)
                   case Some(k) => Found(k, kind)
                   case None => Refused(OutOfConnections)
  {
    hide Stack.Valid, FirstCandidate, FirstFree;
    s.AtHead();
    if kind == ListenOnly {
      var master := s.FindCandidate(q.inputPt, true);
      if master == null {
        return Refused(NonListenOnlyNotOpened);
      }
    }
    var slot := FreeSlot(s, e.slots);
    r := match slot case Some(i) => Found(i, kind) case None => Refused(OutOfConnections);
  }

  /** GetIoConnectionForConnectionData. */
  method GetIoConnection(s: Stack, q: Params) returns (r: Pick)
    requires s.Valid() && ConfigFits(s.cfg, |s.conns|)
    ensures Ready(s.world) && |s.world.conns| == |s.conns| && r == PickIo(s.world, s.cfg, q)
  {
    hide Stack.Valid, PickOwner, PickFromSets;
    s.AtHead();
    r := GetOwner(s, q);
    if r.NoMatch? {
      r := GetFromSets(s, s.cfg.inputOnlys, q, InputOnly);
      if r.NoMatch? {
        if q.producing != Multicast {
          r := Refused(NonListenOnlyNotOpened);
        } else {
          r := GetFromSets(s, s.cfg.listeners, q, ListenOnly);
        }
        if r.NoMatch? {
          r := Refused(InconsistentPathCombo);
        }
      }
    }
  }

  // ----- Configuring and opening

  /** NewConnectionId. */
  method NewConnectionId(s: Stack) returns (id: nat)
    requires s.Valid()
    modifies s`lastId, s`world
    ensures s.Valid() && s.world == old(s.world).(lastId := U16(old(s.world).lastId + 1))
    ensures id == NewId(s.cfg, old(s.world).lastId)
  {
    hide UdpSocketMgr.Valid, Stack.ListIs, Stack.SlotsAre;
    s.lastId := U16(s.lastId + 1);
    s.world := s.world.(lastId := s.lastId);
    id := s.cfg.incarnation * TWO16 + s.lastId;
  }

  method SelectIds(s: Stack, c: CipConn, q: Params)
    requires s.Valid() && s.Mine(c)
    modifies s`lastId, s`world, c`params
    ensures s.Valid() && c.id < |old(s.world).conns|
    ensures var (p, id) := ConnSpec.SelectIds(s.cfg, old(s.world).lastId, q);
            s.world == Put(old(s.world), c.id, old(s.world).conns[c.id].(params := p)).(lastId := id)
  {
    hide Stack.Valid;
    s.See(c);
    s.SetParams(c, q);
    if q.consuming == PointToPoint {
      var id := NewConnectionId(s);
      s.See(c);
      s.SetParams(c, c.params.(consumingCid := id));
    }
    if q.producing == Multicast {
      var id := NewConnectionId(s);
      s.See(c);
      s.SetParams(c, c.params.(producingCid := id));
    }
  }

  method ResetCounters(s: Stack, c: CipConn)
    requires s.Valid() && s.Mine(c)
    modifies s`world, c`eipProducing, c`seqProducing, c`eipConsuming, c`eipFirst, c`seqConsuming
    ensures s.Valid() && c.id < |old(s.world).conns|
    ensures s.world == Put(old(s.world), c.id, old(s.world).conns[c.id].(
                         eipProducing := 0, seqProducing := 0, eipConsuming := 0, eipFirst := true, seqConsuming := 0))
  {
    hide Stack.Valid;
    s.SetProducingCounts(c, 0, 0);
    s.SetConsumingFilter(c, 0, true);
    s.SetSeqConsuming(c, 0);
  }

  method StartTimers(s: Stack, c: CipConn)
    requires s.Valid() && s.Mine(c)
    modifies s`world, c`trigger, c`rate, c`watchdog
    ensures s.Valid() && c.id < |old(s.world).conns|
    ensures var d := old(s.world).conns[c.id];
            var now := old(s.world).now;
            var e := d.(trigger := if IsServer(d.params.transport) then d.trigger else now,
                        rate := RoundUpToTick(d.params.consumingRpi));
            var t := RxTimeout(e);
            s.world == Put(old(s.world), c.id, e.(watchdog := if t != 0 then U32(now + (if t < 10000000 then 10000000 else t)) else d.watchdog))
  {
    hide Stack.Valid, Pow2, IsServer, RoundUpToTick, U32;
    s.See(c);
    if !IsServer(c.params.transport) {
      s.SetTrigger(c, s.NowOf());
    }
    s.See(c);
    s.SetRate(c, RoundUpToTick(c.params.consumingRpi));
    s.See(c);
    var t := U32(c.rate * Pow2(2 + c.params.multiplier));
    if t != 0 {
      s.SetWatchdog(c, U32(s.NowOf() + (if t < 10000000 then 10000000 else t)));
    }
  }

  method Arm(s: Stack, c: CipConn, kind: Kind)
    requires s.Valid() && s.Mine(c)
    modifies s`world, c`kind, c`eipProducing, c`seqProducing, c`eipConsuming, c`eipFirst, c`seqConsuming,
             c`trigger, c`rate, c`watchdog
    ensures s.Valid() && c.id < |old(s.world).conns|
    ensures var d := old(s.world).conns[c.id];
            s.world == Put(old(s.world), c.id, ConnSpec.Arm(d, d.params, kind, old(s.world).now))
  {
    hide Stack.Valid, Pow2, IsServer, RoundUpToTick, U32;
    ResetCounters(s, c);
    StartTimers(s, c);
    s.SetKind(c, kind);
  }

  /** GeneralConfiguration. */
  method GeneralConfiguration(s: Stack, c: CipConn, q: Params, kind: Kind)
    requires s.Valid() && s.Mine(c)
    modifies s`lastId, s`world, c`params, c`kind, c`eipProducing, c`seqProducing, c`eipConsuming, c`eipFirst,
             c`seqConsuming, c`trigger, c`rate, c`watchdog
    ensures s.Valid() && c.id < |old(s.world).conns|
    ensures s.world == Configure(old(s.world), s.cfg, c.id, q, kind)
  {
    hide Stack.Valid, ConnSpec.SelectIds;
    SelectIds(s, c, q);
    Arm(s, c, kind);
  }

  method ShareStream(s: Stack, c: CipConn, cid: nat)
    requires s.Valid() && s.Mine(c)
    modifies s`world, c`params, c`sendAddr
    ensures s.Valid() && c.id < |old(s.world).conns|
    ensures var d := old(s.world).conns[c.id];
            s.world == Put(old(s.world), c.id, d.(params := d.params.(producingCid := cid), sendAddr := SockAddr(s.cfg.multicastAddr, IO_UDP_PORT)))
  {
    hide Stack.Valid;
    s.See(c);
    s.SetParams(c, c.params.(producingCid := cid));
    s.SetSendAddr(c, SockAddr(s.cfg.multicastAddr, IO_UDP_PORT));
  }

  method AttachConsuming(s: Stack, c: CipConn, socket: UdpSocket, from: SockAddr)
    requires s.Valid() && s.Mine(c) && s.udp.Owns(socket)
    modifies s`world, c`consumingUdp, c`recvAddr
    ensures s.Valid() && c.id < |old(s.world).conns|
    ensures s.world == Put(old(s.world), c.id, old(s.world).conns[c.id].(consumingUdp := Some(socket.id), recvAddr := from))
  {
    hide Stack.Valid;
    s.SetConsumingUdp(c, socket);
    s.SetRecvAddr(c, from);
  }

  method AttachProducing(s: Stack, c: CipConn, socket: UdpSocket, to: SockAddr)
    requires s.Valid() && s.Mine(c) && s.udp.Owns(socket)
    modifies s`world, c`producingUdp, c`sendAddr
    ensures s.Valid() && c.id < |old(s.world).conns|
    ensures s.world == Put(old(s.world), c.id, old(s.world).conns[c.id].(producingUdp := Some(socket.id), sendAddr := to))
  {
    hide Stack.Valid;
    s.SetProducingUdp(c, socket);
    s.SetSendAddr(c, to);
  }

  method TakeSocket(s: Stack, c: CipConn, master: CipConn, socket: UdpSocket?)
    requires s.Valid() && s.Mine(c) && s.Mine(master) && c != master && (socket != null ==> s.udp.Owns(socket))
    modifies s`world, c`producingUdp, master`producingUdp
    ensures s.Valid() && c.id < |old(s.world).conns| && master.id < |old(s.world).conns|
    ensures var w := Put(old(s.world), c.id, old(s.world).conns[c.id].(producingUdp := CipConn.SockId(socket)));
            s.world == Put(w, master.id, w.conns[master.id].(producingUdp := None))
  {
    hide Stack.Valid;
    s.SetProducingUdp(c, socket);
    s.SetProducingUdp(master, null);
  }

  /** openConsumingMulticast and openConsumingPointToPointConnection. */
  method OpenConsuming(s: Stack, c: CipConn, q: Request) returns (e: Ext)
    requires s.Valid() && s.Mine(c)
    modifies s`world, s.udp, s.udp.records, c`consumingUdp, c`recvAddr
    ensures s.Valid() && s.udp.Grows() && Ready(old(s.world)) && c.id < |old(s.world).conns|
    ensures var r := ConnSpec.OpenConsuming(old(s.world), s.cfg, c.id, q);
            s.world == r.0 && e == r.1
  {
    hide Stack.Valid, Grab;
    s.See(c);
    if c.params.consuming == Multicast {
      if q.saii.None? || !q.saii.value.inet || !IsMulticast(q.saii.value.addr) {
        return ParameterError;
      }
      var socket := s.GrabUdp(BASE, Some(q.saii.value.addr.(port := IO_UDP_PORT)), q.osIn);
      if socket == null {
        return OutOfConnections;
      }
      AttachConsuming(s, c, socket, SockAddr(q.peer, IO_UDP_PORT));
    } else if c.params.consuming == PointToPoint {
      var socket := s.GrabUdp(SockAddr(0, s.cfg.ioPort), None, q.osIn);
      if socket == null {
        return OutOfConnections;
      }
      AttachConsuming(s, c, socket, SockAddr(q.peer, s.cfg.ioPort));
    }
    e := Success;
  }

  /** The branch of openProducingMulticastConnection that finds a master. */
  method JoinMaster(s: Stack, c: CipConn, master: CipConn)
    requires s.Valid() && s.Mine(c) && s.Mine(master) && c != master
    modifies s`world, c`params, c`sendAddr, c`producingUdp, master`producingUdp
    ensures s.Valid() && c.id < |old(s.world).conns| && master.id < |old(s.world).conns|
    ensures s.world == ConnSpec.JoinMaster(old(s.world), s.cfg, c.id, master.id)
  {
    hide Stack.Valid;
    s.See(c);
    s.See(master);
    var owner, socket := c.kind == ExclusiveOwner, master.producingUdp;
    ShareStream(s, c, master.params.producingCid);
    if owner {
      TakeSocket(s, c, master, socket);
    } else {
      s.SetProducingUdp(c, null);
    }
  }

  /** openProducingMulticast and openProducingPointToPointConnection. */
  method OpenProducing(s: Stack, c: CipConn, q: Request) returns (e: Ext)
    requires s.Valid() && s.Mine(c) && c.id !in s.world.active
    modifies s`world, s.udp, s.udp.records, s.conns
    ensures s.Valid() && s.udp.Grows() && Ready(old(s.world)) && c.id < |old(s.world).conns|
    ensures var r := ConnSpec.OpenProducing(old(s.world), s.cfg, c.id, q);
            s.world == r.0 && e == r.1
  {
    hide Stack.Valid, Grab, FirstCandidate, ConnSpec.JoinMaster;
    s.See(c);
    if c.params.producing == Multicast {
      var master := s.FindCandidate(c.params.inputPt, true);
      if master != null {
        JoinMaster(s, c, master);
        return Success;
      }
      var socket := s.GrabUdp(SockAddr(0, s.cfg.ioPort), None, q.osOut);
      if socket == null {
        return OutOfConnections;
      }
      AttachProducing(s, c, socket, SockAddr(s.cfg.multicastAddr, IO_UDP_PORT));
    } else if c.params.producing == PointToPoint {
      var port := if q.saii.Some? then q.saii.value.addr.port else IO_UDP_PORT;
      var socket := s.GrabUdp(SockAddr(0, s.cfg.ioPort), None, q.osOut);
      if socket == null {
        return OutOfConnections;
      }
      AttachProducing(s, c, socket, SockAddr(q.peer, port));
    }
    e := Success;
  }

  method OpenChannels(s: Stack, c: CipConn, q: Request) returns (e: Ext)
    requires s.Valid() && s.Mine(c) && c.id !in s.world.active
    modifies s`world, s.udp, s.udp.records, s.conns
    ensures s.Valid() && s.udp.Grows() && Ready(old(s.world)) && c.id < |old(s.world).conns|
    ensures var r := ConnSpec.OpenChannels(old(s.world), s.cfg, c.id, q);
            s.world == r.0 && e == r.1
  {
    hide Stack.Valid, ConnSpec.OpenConsuming, ConnSpec.OpenProducing;
    e := OpenConsuming(s, c, q);
    if e == Success {
      e := OpenProducing(s, c, q);
    }
  }

  /** The failure path of CipConn::Activate. */
  method Abandon(s: Stack, c: CipConn)
    requires s.Valid() && s.Mine(c) && c.id !in s.world.active
    modifies s`world, s.udp`multicast, s.udp`free, s.udp`spec, s.udp.records, c
    ensures s.Valid() && Ready(old(s.world)) && c.id < |old(s.world).conns|
    ensures s.world == ConnSpec.Abandon(old(s.world), c.id)
  {
    hide Stack.Valid, Release, Ranged;
    s.See(c);
    s.ReleaseUdp(c.consumingUdp);
    s.See(c);
    s.ReleaseUdp(c.producingUdp);
    s.Clear(c);
  }

  /** CipConn::Activate. */
  method Activate(s: Stack, c: CipConn, q: Request) returns (e: Ext)
    requires s.Valid() && s.Mine(c) && c.id !in s.world.active
    modifies s`world, s.udp, s.udp.records, s.conns, s.box
    ensures s.Valid() && s.udp.Grows() && Ready(old(s.world)) && c.id < |old(s.world).conns|
    ensures var r := ConnSpec.Activate(old(s.world), s.cfg, c.id, q);
            s.world == r.0 && e == r.1
  {
    hide Stack.Valid, ConnSpec.OpenChannels, ConnSpec.Abandon;
    s.See(c);
    if c.params.hasConfig && c.params.hasConfigData {
      e := q.configResult;  // handleConfigData
      if e != Success {
        s.Clear(c);
        return;
      }
    }
    s.SetSession(c, q.session);
    e := OpenChannels(s, c, q);
    if e != Success {
      Abandon(s, c);
      return;
    }
    s.Enlist(c);
    s.SetState(c, Established);
  }

  /** CipConnectionClass::OpenIO, from the choice of a slot on. */
  method OpenIo(s: Stack, q: Request) returns (e: Ext)
    requires s.Valid() && Inv(s.world, s.cfg) && ConfigWf(s.cfg, |s.conns|)
    modifies s`world, s`lastId, s.udp, s.udp.records, s.conns, s.box
    ensures s.Valid() && s.udp.Grows() && Ready(old(s.world)) && |old(s.world).conns| == |s.conns|
    ensures var r := ConnSpec.OpenIo(old(s.world), s.cfg, q);
            s.world == r.0 && e == r.1
  {
    hide Stack.Valid, ConnSpec.Activate, Configure, PickIo, Balanced, Held, MasterInv, UniqueInv;
    s.AtHead();
    PickIsFree(s.world, s.cfg, q.params);
    var pick := GetIoConnection(s, q.params);
    if !pick.Found? {
      return if pick.Refused? then pick.ext else InconsistentPathCombo;
    }
    var c := s.conns[pick.slot];
    s.MineAt(pick.slot);
    assert Put(s.world, c.id, s.world.conns[c.id]) == s.world;
    if pick.kind != ExclusiveOwner {
      s.SetState(c, Configuring);
    }
    GeneralConfiguration(s, c, q.params, pick.kind);
    e := Activate(s, c, q);
    if e == Success {
      s.SetOpener(c, q.peer);
    }
  }

  /** CipMessageRouterClass::OpenConnection. */
  method OpenExplicit(s: Stack, q: Request) returns (e: Ext)
    requires s.Valid() && Inv(s.world, s.cfg) && ConfigWf(s.cfg, |s.conns|)
    modifies s`world, s`lastId, s.conns, s.box
    ensures s.Valid() && Ready(old(s.world)) && |old(s.world).conns| == |s.conns|
    ensures var r := ConnSpec.OpenExplicit(old(s.world), s.cfg, q);
            s.world == r.0 && e == r.1
  {
    hide Stack.Valid, Configure, Balanced, Held, MasterInv, UniqueInv, FirstFree;
    s.AtHead();
    var slot := FreeSlot(s, s.cfg.explicits);
    if slot.None? {
      return NoMoreConnections;
    }
    var c := s.conns[slot.value];
    s.MineAt(slot.value);
    FreeIsOffList(s.world, slot.value, |s.conns|);
    GeneralConfiguration(s, c, q.params, Explicit);
    s.SetOpener(c, q.peer);
    s.SetSession(c, q.session);
    s.Enlist(c);
    s.SetState(c, Established);
    e := Success;
  }

  /** CipConnMgrClass::forward_open. */
  method ForwardOpen(s: Stack, q: Request) returns (e: Ext)
    requires s.Valid() && Inv(s.world, s.cfg) && ConfigWf(s.cfg, |s.conns|) && Resolved(q)
    modifies s`world, s`lastId, s.udp, s.udp.records, s.conns, s.box
    ensures s.Valid() && s.udp.Grows() && Ready(old(s.world)) && |old(s.world).conns| == |s.conns|
    ensures var r := ConnSpec.ForwardOpen(old(s.world), s.cfg, q);
            s.world == r.0 && e == r.1
    ensures Inv(s.world, s.cfg)
  {
    hide Stack.Valid, ConnSpec.OpenIo, ConnSpec.OpenExplicit, Balanced, Held, MasterInv, UniqueInv, FindTriad;
    s.AtHead();
    ForwardOpenKeeps(s.world, s.cfg, q);
    var p := q.params;
    var same := FindMatching(s, p.triad);
    if same != null {
      return ConnectionInUse;
    }
    if p.multiplier > 7 {
      return MultiplierNotAcceptable;
    }
    if p.consuming == InvalidCast {
      return InvalidConsumingType;
    }
    if p.producing == InvalidCast {
      return InvalidProducingType;
    }
    if UndocumentedTrigger(p.transport) {
      return TriggerNotSupported;
    }
    var o2t, t2o := Faster(p.consumingRpi), Faster(p.producingRpi);
    if o2t.None? || t2o.None? {
      return RpiNotSupported;
    }
    if q.checks != Success {
      return q.checks;
    }
    var q1 := q.(params := p.(consumingRpi := o2t.value, producingRpi := t2o.value));
    if q.toMessageRouter {
      e := OpenExplicit(s, q1);
    } else {
      e := OpenIo(s, q1);
    }
  }

  // ----- Closing

  /** CipConnMgrClass::forward_close_service. */
  method ForwardClose(s: Stack, t: Triad, peer: nat) returns (e: Ext)
    requires s.Valid() && Inv(s.world, s.cfg)
    modifies s`world, s.conns, s.box, s.udp`multicast, s.udp`free, s.udp`spec, s.udp.records
    ensures s.Valid() && Ready(old(s.world))
    ensures var r := ConnSpec.ForwardClose(old(s.world), t, peer);
            s.world == r.0 && e == r.1
  {
    hide Stack.Valid, ConnSpec.Close, Balanced, Held, MasterInv, UniqueInv, FindTriad;
    s.AtHead();
    var c := FindMatching(s, t);
    if c == null {
      return NotFound;
    }
    s.See(c);
    if c.opener != peer {
      return PrivilegeViolation;
    }
    s.Close(c);
    e := Success;
  }

  /** CloseAllConnections: the list gets shorter with every Close. */
  method CloseAllConnections(s: Stack)
    requires s.Valid() && Inv(s.world, s.cfg)
    modifies s`world, s.conns, s.box, s.udp`multicast, s.udp`free, s.udp`spec, s.udp.records
    ensures s.Valid() && Ready(old(s.world)) && s.world == CloseAll(old(s.world))
    ensures s.world.active == [] && s.box.head == null
  {
    hide Stack.Valid, ConnSpec.Close, Balanced, Held, MasterInv, UniqueInv;
    s.AtHead();
    while s.box.head != null
      invariant s.Valid() && Inv(s.world, s.cfg) && |s.world.conns| == |s.conns|
      invariant s.box.head == if s.world.active == [] then null else s.conns[s.world.active[0]]
      invariant Ready(old(s.world)) && CloseAll(s.world) == CloseAll(old(s.world))
      decreases |s.world.active|
    {
      ghost var i := s.world.active[0];
      s.At(0);
      CloseKeepsInv(s.world, s.cfg, i);
      assert SlotOk(s.world, i);
      CloseIsShorter(s.world, s.cfg, i);
      s.Close(s.box.head);
      s.AtHead();
    }
  }

  lemma CloseIsShorter(w: World, cfg: Config, i: nat)
    requires Inv(w, cfg) && i in w.active && i < |w.conns|
    ensures |ConnSpec.Close(w, i).active| < |w.active|
  {
    hide ConnSpec.Close, Balanced, Held, MasterInv, UniqueInv;
    assert SlotOk(w, i);
    var v := ConnSpec.Close(w, i);
    CloseKeepsInv(w, cfg, i);
    SizeOf(v.active);
    SizeOf(w.active);
    assert Elements(v.active) < Elements(w.active) by {
      assert i in Elements(w.active) && i !in Elements(v.active);
    }
    ProperSubsetIsSmaller(Elements(v.active), Elements(w.active));
  }

  /** A list without duplicates is as long as its set of elements is large. */
  lemma {:induction false} SizeOf(l: seq<nat>)
    requires NoDup(l)
    ensures |Elements(l)| == |l|
  {
    if l != [] {
      SizeOf(l[1..]);
      assert Elements(l) == {l[0]} + Elements(l[1..]);
    }
  }

  lemma CloseClass3Step(w: World, k: nat, h: nat)
    requires Ready(w) && k <= |w.active|
    ensures CloseClass3(w, w.active[k..], h) ==
            if k == |w.active| then w
            else
              var c := w.conns[w.active[k]];
              CloseClass3(if TransportClass(c.params.transport) == 3 && c.session == h then ConnSpec.Close(w, w.active[k]) else w, w.active[k + 1..], h)
  {
    if k < |w.active| { assert w.active[k..][1..] == w.active[k + 1..]; }
  }

  /** A class 3 connection is explicit, so closing it takes that node alone off the list. */
  lemma Class3CloseIsExact(w: World, cfg: Config, k: nat)
    requires Inv(w, cfg) && k < |w.active| && TransportClass(w.conns[w.active[k]].params.transport) == 3
    ensures var v := ConnSpec.Close(w, w.active[k]);
            v.active == w.active[..k] + w.active[k + 1..] && v.active[k..] == w.active[k + 1..]
  {
    hide ConnSpec.Close, Balanced, Held, MasterInv;
    assert SlotOk(w, w.active[k]);
    assert w.active[k] in w.active;
    PlainCloseIsExact(w, w.active[k]);
    WithoutAt(w.active, k);
  }

  /** CloseClass3Connections: the walk saves the next node before it closes one. */
  method CloseClass3Connections(s: Stack, h: nat)
    requires s.Valid() && Inv(s.world, s.cfg)
    modifies s`world, s.conns, s.box, s.udp`multicast, s.udp`free, s.udp`spec, s.udp.records
    ensures s.Valid() && Ready(old(s.world)) && s.world == CloseClass3(old(s.world), old(s.world).active, h)
    ensures Inv(s.world, s.cfg)
  {
    hide Stack.Valid, ConnSpec.Close, Balanced, Held, MasterInv, UniqueInv;
    s.AtHead();
    ghost var w0 := s.world;
    var c := s.box.head;
    ghost var pos := 0;
    assert s.world.active[0..] == s.world.active;
    while c != null
      invariant s.Valid() && Inv(s.world, s.cfg) && |s.world.conns| == |s.conns| && Ready(w0)
      invariant pos <= |s.world.active|
      invariant c == if pos < |s.world.active| then s.conns[s.world.active[pos]] else null
      invariant CloseClass3(w0, w0.active, h) == CloseClass3(s.world, s.world.active[pos..], h)
      decreases |s.world.active| - pos
    {
      s.At(pos);
      s.See(c);
      CloseClass3Step(s.world, pos, h);
      if TransportClass(c.params.transport) == 3 && c.session == h {
        var toClose := c;
        c := c.next;
        CloseKeepsInv(s.world, s.cfg, toClose.id);
        Class3CloseIsExact(s.world, s.cfg, pos);
        s.Close(toClose);
        s.AtAny(pos);
      } else {
        c := c.next;
        pos := pos + 1;
      }
    }
    CloseClass3Step(s.world, pos, h);
  }

  // ----- Received frames

  /** RecvConnectedData from the lookup on: the peer check, the encapsulation sequence
      filter, the watchdog, and the sequence count of class 1. */
  method RecvConnectedData(s: Stack, cid: nat, from: nat, seqNum: nat, count: nat)
    requires s.Valid()
    modifies s`world, s.conns
    ensures s.Valid() && Ready(old(s.world)) && s.world == Receive(old(s.world), cid, from, seqNum, count)
  {
    hide Stack.Valid, FindConsumer, Pow2;
    s.AtHead();
    var c := FindByConsumingId(s, cid);
    if c == null {
      return;
    }
    s.See(c);
    if from != c.recvAddr.addr {
      return;
    }
    if c.eipFirst {
      s.SetConsumingFilter(c, U32(seqNum - 1), false);
    }
    s.See(c);
    assert Put(old(s.world), c.id, old(s.world).conns[c.id]) == old(s.world);
    if Diff32(seqNum, c.eipConsuming) > 0 {
      AcceptFrame(s, c, seqNum, count);
    }
  }

  /** A new frame: feed the watchdog, note the numbers. */
  method AcceptFrame(s: Stack, c: CipConn, seqNum: nat, count: nat)
    requires s.Valid() && s.Mine(c)
    modifies s`world, c`watchdog, c`eipConsuming, c`eipFirst, c`seqConsuming
    ensures s.Valid() && c.id < |old(s.world).conns|
    ensures var d := old(s.world).conns[c.id];
            var e := d.(eipConsuming := seqNum, watchdog := U32(old(s.world).now + RxTimeout(d)));
            s.world == Put(old(s.world), c.id,
                           if TransportClass(d.params.transport) == 1 && Diff16(count, d.seqConsuming) > 0
                           then e.(seqConsuming := count) else e)
  {
    hide Stack.Valid, Pow2, U32;
    s.See(c);
    var class1 := TransportClass(c.params.transport) == 1 && Diff16(count, c.seqConsuming) > 0;
    s.SetConsumingFilter(c, seqNum, c.eipFirst);
    FeedWatchdog(s, c);
    if class1 {
      s.SetSeqConsuming(c, count);
    }
  }

  method FeedWatchdog(s: Stack, c: CipConn)
    requires s.Valid() && s.Mine(c)
    modifies s`world, c`watchdog
    ensures s.Valid() && c.id < |old(s.world).conns|
    ensures var d := old(s.world).conns[c.id];
            s.world == Put(old(s.world), c.id, d.(watchdog := U32(old(s.world).now + RxTimeout(d))))
  {
    hide Stack.Valid, Pow2;
    s.See(c);
    s.SetWatchdog(c, U32(s.NowOf() + U32(c.rate * Pow2(2 + c.params.multiplier))));
  }

  /** A connected explicit message only feeds the watchdog of its connection. */
  method RecvExplicit(s: Stack, cid: nat)
    requires s.Valid()
    modifies s`world, s.conns
    ensures s.Valid() && Ready(old(s.world)) && s.world == ReceiveExplicit(old(s.world), cid)
  {
    hide Stack.Valid, FindConsumer, Pow2;
    s.AtHead();
    var c := FindByConsumingId(s, cid);
    if c != null {
      FeedWatchdog(s, c);
    }
  }

  // ----- Runs

  method SetClock(s: Stack, now: nat)
    requires s.Valid()
    modifies s`world, s`now
    ensures s.Valid() && s.world == old(s.world).(now := now)
  {
    hide UdpSocketMgr.Valid, Stack.ListIs, Stack.SlotsAre;
    s.now := now;
    s.world := s.world.(now := now);
  }

  method AddSession(s: Stack, h: nat)
    requires s.Valid()
    modifies s`world, s`sessions
    ensures s.Valid() && s.world == old(s.world).(sessions := old(s.world).sessions + {h})
  {
    hide UdpSocketMgr.Valid, Stack.ListIs, Stack.SlotsAre;
    s.sessions := s.sessions + {h};
    s.world := s.world.(sessions := s.world.sessions + {h});
  }

  /** One event of the main loop. */
  method Serve(s: Stack, step: Step)
    requires s.Valid() && Inv(s.world, s.cfg) && ConfigWf(s.cfg, |s.conns|) && Legal(step)
    modifies s, s.udp, s.udp.records, s.conns, s.box
    ensures s.Valid() && s.udp.Grows() && Ready(old(s.world)) && |old(s.world).conns| == |s.conns|
    ensures s.world == Do(old(s.world), s.cfg, step) && Inv(s.world, s.cfg)
  {
    hide Stack.Valid, Balanced, Held, MasterInv, UniqueInv, ConnSpec.ForwardOpen, ConnSpec.ForwardClose, ManageWalk,
      CloseClass3, CloseAll, Receive, ReceiveExplicit;
    s.AtHead();
    StepKeeps(s.world, s.cfg, step);
    match step {
      case Open(q) => var _ := ForwardOpen(s, q);
      case CloseRequest(t, peer) => var _ := ForwardClose(s, t, peer);
      case Manage(changed) => s.ManageConnections(changed);
      case Frame(cid, from, seqNum, count) => RecvConnectedData(s, cid, from, seqNum, count);
      case Message(cid) => RecvExplicit(s, cid);
      case SessionOpened(h) => AddSession(s, h);
      case SessionAged(h) =>
        CloseClass3Connections(s, h);
        s.SetSessions(h);
      case Elapse(usecs) => SetClock(s, U32(s.NowOf() + usecs));
      case Shutdown => CloseAllConnections(s);
    }
  }

  /** The objects of a stack that starts up and serves any requests are, at the end, in a
      state of a run, so everything proved of those holds of them. */
  method RunStack(cfg: Config, n: nat, now: nat, steps: seq<Step>) returns (s: Stack)
    requires Possible(cfg, n, steps)
    ensures s.Valid() && s.cfg == cfg && s.world == Reached(cfg, n, now, steps)
  {
    hide Stack.Valid, Balanced, Held, MasterInv, UniqueInv, Do, Inv;
    s := new Stack(cfg, n, now);
    s.AtHead();
    BootInv(n, cfg, now);
    var k := 0;
    assert steps[0..] == steps;
    while k < |steps|
      invariant 0 <= k <= |steps| && s.Valid() && s.cfg == cfg && |s.conns| == n && Inv(s.world, cfg)
      invariant Ready(s.world) && |s.world.conns| == n
      invariant Run(s.world, cfg, steps[k..]) == Run(Boot(n, now), cfg, steps)
      invariant fresh(s) && fresh(s.box) && fresh(s.udp)
      invariant forall i :: 0 <= i < |s.conns| ==> fresh(s.conns[i])
      invariant forall i :: 0 <= i < |s.udp.records| ==> fresh(s.udp.records[i])
    {
      assert steps[k..][1..] == steps[k + 1..];
      Serve(s, steps[k]);
      s.AtHead();
      k := k + 1;
    }
  }
}
