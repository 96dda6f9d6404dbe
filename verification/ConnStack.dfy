/** The stack as it runs: pools of CipConn objects, the active list, the socket manager.
    Every method is proved to do to the objects what ConnSpec does to the values. */
module ConnStack {
  import opened Words
  import opened SocketSpec
  import opened SocketInv
  import opened ConnSpec
  import opened ConnInv
  import opened ConnOpen
  import opened ConnRuns
  import opened UdpSockets
  import opened ConnList

  class Stack {
    const cfg: Config  // the registered expectations
    const conns: seq<CipConn>
    const box: CipConnBox
    const udp: UdpSocketMgr
    var sessions: set<nat>
    var lastId: nat
    var now: nat

    ghost var world: World  // the whole state, as a value

    /** c is the object of its pool slot. */
    ghost predicate Mine(c: CipConn) {
      c.id < |conns| && conns[c.id] == c
    }

    /** o is the object of slot i and holds the connection c. */
    ghost predicate SlotIs(o: CipConn, i: nat, c: Conn)
      reads o, udp`records
    {
      && o.id == i && o.Is(c)
      && (o.consumingUdp != null ==> udp.Owns(o.consumingUdp))
      && (o.producingUdp != null ==> udp.Owns(o.producingUdp))
    }

    /** The connection data of all slots; the links are ListIs's. */
    ghost predicate SlotsAre(cs: seq<Conn>)
      reads conns, udp`records
    {
      |cs| == |conns| && forall i :: 0 <= i < |conns| ==> SlotIs(conns[i], i, cs[i])
    }

    /** The nodes are the objects of these slots, in this order. */
    ghost predicate NodesAre(nodes: seq<CipConn>, ids: seq<nat>) {
      |nodes| == |ids| && forall k :: 0 <= k < |ids| ==> ids[k] < |conns| && nodes[k] == conns[ids[k]]
    }

    ghost predicate FlagsAre(ids: seq<nat>)
      reads conns`onList
    {
      forall i :: 0 <= i < |conns| ==> (conns[i].onList <==> i in ids)
    }

    /** A node that is off the list leads nowhere. */
    ghost predicate LooseEnds()
      reads conns`onList, conns`next
    {
      forall i :: 0 <= i < |conns| && !conns[i].onList ==> conns[i].next == null
    }

    ghost predicate ListIs(active: seq<nat>)
      reads box, box.elems`next, box.elems`prev, box.elems`onList, conns`onList, conns`next
    {
      box.Linked() && NodesAre(box.elems, active) && FlagsAre(active) && LooseEnds()
    }

    ghost predicate Valid()
      reads this, box, box.elems, conns, udp, udp.records
    {
      && udp.Valid() && udp.spec == world.udp
      && SlotsAre(world.conns) && ListIs(world.active)
      && sessions == world.sessions && lastId == world.lastId && now == world.now
    }

    /** A connection that is in no state at all. */
    static ghost predicate Unused(c: CipConn, i: nat, now: nat)
      reads c
    {
      c.id == i && !c.onList && c.next == null && c.consumingUdp == null && c.producingUdp == null
      && c.Is(Boot(1, now).conns[0])
    }

    static method NewPool(n: nat, now: nat) returns (cs: seq<CipConn>)
      ensures |cs| == n && forall i :: 0 <= i < |cs| ==> fresh(cs[i]) && Unused(cs[i], i, now)
    {
      hide CipConn.Is;
      cs := [];
      while |cs| < n
        invariant |cs| <= n
        invariant forall i :: 0 <= i < |cs| ==> fresh(cs[i]) && Unused(cs[i], i, now)
      {
        var c := new CipConn(|cs|, now);
        cs := cs + [c];
      }
    }

    /** Start-up with a pool of n slots. */
    constructor (cfg: Config, n: nat, now: nat)
      ensures Valid() && world == Boot(n, now) && this.cfg == cfg
      ensures fresh(box) && fresh(udp) && udp.records == [] && forall i :: 0 <= i < |conns| ==> fresh(conns[i])
    {
      var cs := NewPool(n, now);
      this.cfg := cfg;
      conns := cs;
      box := new CipConnBox();
      udp := new UdpSocketMgr();
      sessions, lastId, this.now := {}, 18, now;
      world := Boot(n, now);
    }

    lemma IsReady()
      requires Valid()
      ensures Ready(world)
    {
      udp.SpecIsRanged();
    }

    /** The head of the list, and the node after the k-th. */
    lemma AtHead()
      requires Valid()
      ensures Ready(world) && |world.conns| == |conns|
      ensures box.head == (if world.active == [] then null else conns[world.active[0]])
    {
      IsReady();
    }

    lemma At(k: nat)
      requires Valid() && k < |world.active|
      ensures Ready(world) && |world.conns| == |conns| && world.active[k] < |conns|
      ensures var c := conns[world.active[k]];
              && Mine(c) && c.id == world.active[k]
              && c.next == (if k + 1 < |world.active| then conns[world.active[k + 1]] else null)
    {
      IsReady();
      assert SlotIs(conns[world.active[k]], world.active[k], world.conns[world.active[k]]);
      assert box.elems[k] == conns[world.active[k]];
      if k + 1 < |world.active| { assert box.elems[k + 1] == conns[world.active[k + 1]]; }
    }

    lemma MineAt(i: nat)
      requires Valid() && i < |conns|
      ensures Mine(conns[i]) && conns[i].id == i
    {
      assert SlotIs(conns[i], i, world.conns[i]);
    }

    lemma CandidateStep(cs: seq<Conn>, s: seq<nat>, k: nat, p: int, holding: bool)
      requires InRange(s, |cs|) && k <= |s|
      ensures FirstCandidate(cs, s[k..], p, holding) ==
              if k == |s| then None
              else if Candidate(cs[s[k]], p, holding) then Some(s[k])
              else FirstCandidate(cs, s[k + 1..], p, holding)
    {
      if k < |s| { assert s[k..][1..] == s[k + 1..]; }
    }

    /** GetExistingProducerMulticastConnection and GetNextNonControlMasterConnection. */
    method FindCandidate(p: int, holding: bool) returns (r: CipConn?)
      requires Valid()
      ensures Ready(world)
      ensures var f := FirstCandidate(world.conns, world.active, p, holding);
              if r == null then f == None else f == Some(r.id) && Mine(r)
    {
      hide Valid, FirstCandidate;
      AtHead();
      assert world.active[0..] == world.active;
      var c := box.head;
      ghost var k := 0;
      while c != null
        invariant 0 <= k <= |world.active|
        invariant c == if k < |world.active| then conns[world.active[k]] else null
        invariant FirstCandidate(world.conns, world.active, p, holding) == FirstCandidate(world.conns, world.active[k..], p, holding)
        decreases |world.active| - k
      {
        At(k);
        See(c);
        CandidateStep(world.conns, world.active, k, p, holding);
        if MasterKind(c.kind) && p == c.params.inputPt && c.params.producing == Multicast
           && (c.producingUdp != null) == holding {
          return c;
        }
        c := c.next;
        k := k + 1;
      }
      CandidateStep(world.conns, world.active, k, p, holding);
      r := null;
    }

    // ----- Setters

    /** One connection differs in its data, the value follows. */
    twostate lemma OneChanged(new c: CipConn)
      requires old(Valid()) && Mine(c) && c.id < |old(world).conns| && c.id < |world.conns|
      requires world == Put(old(world), c.id, world.conns[c.id]) && c.Is(world.conns[c.id])
      requires (c.consumingUdp != null ==> udp.Owns(c.consumingUdp)) && (c.producingUdp != null ==> udp.Owns(c.producingUdp))
      requires SameLinks() && forall i :: 0 <= i < |conns| && conns[i] != c ==> unchanged(conns[i])
      requires unchanged(box) && udp.Valid() && udp.spec == old(udp.spec) && udp.records == old(udp.records)
      requires sessions == old(sessions) && lastId == old(lastId) && now == old(now)
      ensures Valid()
    {
      hide UdpSocketMgr.Valid, CipConn.Is, CipConnBox.Linked, ListIs;
      forall i | 0 <= i < |conns| ensures SlotIs(conns[i], i, world.conns[i]) {
        assert old(SlotIs(conns[i], i, world.conns[i]));
      }
      SameList();
    }

    lemma UdpValid()
      requires Valid()
      ensures udp.Valid()
    {
      hide UdpSocketMgr.Valid, SlotsAre, ListIs;
    }

    /** The links of all nodes are as before. */
    twostate predicate SameLinks()
      reads conns
    {
      forall i :: 0 <= i < |conns| ==>
        conns[i].next == old(conns[i].next) && conns[i].prev == old(conns[i].prev) && conns[i].onList == old(conns[i].onList)
    }

    twostate lemma SameList()
      requires old(ListIs(world.active)) && unchanged(box) && world.active == old(world.active) && SameLinks()
      ensures ListIs(world.active)
    {
      forall k | 0 <= k < |box.elems|
        ensures box.elems[k].next == old(box.elems[k].next) && box.elems[k].prev == old(box.elems[k].prev)
                && box.elems[k].onList == old(box.elems[k].onList)
      {
        assert box.elems[k] == conns[world.active[k]];
      }
    }

    /** What a change of one field starts from. */
    lemma Before(c: CipConn)
      requires Valid() && Mine(c)
      ensures c.id < |world.conns| && c.Is(world.conns[c.id]) && Ready(world) && udp.Valid()
      ensures (c.consumingUdp != null ==> udp.Owns(c.consumingUdp)) && (c.producingUdp != null ==> udp.Owns(c.producingUdp))
    {
      hide Valid, UdpSocketMgr.Valid;
      See(c);
      UdpValid();
    }

    method SetProducingUdp(c: CipConn, s: UdpSocket?)
      requires Valid() && Mine(c) && (s != null ==> udp.Owns(s))
      modifies this`world, c`producingUdp
      ensures Valid() && Mine(c) && c.id < |old(world).conns|
      ensures world == Put(old(world), c.id, old(world).conns[c.id].(producingUdp := CipConn.SockId(s)))
    {
      hide Valid, UdpSocketMgr.Valid;
      Before(c);
      c.producingUdp := s;
      world := Put(world, c.id, world.conns[c.id].(producingUdp := CipConn.SockId(s)));
      OneChanged(c);
    }

    method SetConsumingUdp(c: CipConn, s: UdpSocket?)
      requires Valid() && Mine(c) && (s != null ==> udp.Owns(s))
      modifies this`world, c`consumingUdp
      ensures Valid() && Mine(c) && c.id < |old(world).conns|
      ensures world == Put(old(world), c.id, old(world).conns[c.id].(consumingUdp := CipConn.SockId(s)))
    {
      hide Valid, UdpSocketMgr.Valid;
      Before(c);
      c.consumingUdp := s;
      world := Put(world, c.id, world.conns[c.id].(consumingUdp := CipConn.SockId(s)));
      OneChanged(c);
    }

    method SetSendAddr(c: CipConn, v: SockAddr)
      requires Valid() && Mine(c)
      modifies this`world, c`sendAddr
      ensures Valid() && Mine(c) && c.id < |old(world).conns|
      ensures world == Put(old(world), c.id, old(world).conns[c.id].(sendAddr := v))
    {
      hide Valid, UdpSocketMgr.Valid;
      Before(c);
      c.sendAddr := v;
      world := Put(world, c.id, world.conns[c.id].(sendAddr := v));
      OneChanged(c);
    }

    method SetRecvAddr(c: CipConn, v: SockAddr)
      requires Valid() && Mine(c)
      modifies this`world, c`recvAddr
      ensures Valid() && Mine(c) && c.id < |old(world).conns|
      ensures world == Put(old(world), c.id, old(world).conns[c.id].(recvAddr := v))
    {
      hide Valid, UdpSocketMgr.Valid;
      Before(c);
      c.recvAddr := v;
      world := Put(world, c.id, world.conns[c.id].(recvAddr := v));
      OneChanged(c);
    }

    method SetTrigger(c: CipConn, v: nat)
      requires Valid() && Mine(c)
      modifies this`world, c`trigger
      ensures Valid() && Mine(c) && c.id < |old(world).conns|
      ensures world == Put(old(world), c.id, old(world).conns[c.id].(trigger := v))
    {
      hide Valid, UdpSocketMgr.Valid;
      Before(c);
      c.trigger := v;
      world := Put(world, c.id, world.conns[c.id].(trigger := v));
      OneChanged(c);
    }

    method SetState(c: CipConn, v: ConnState)
      requires Valid() && Mine(c)
      modifies this`world, c`state
      ensures Valid() && Mine(c) && c.id < |old(world).conns|
      ensures world == Put(old(world), c.id, old(world).conns[c.id].(state := v))
    {
      hide Valid, UdpSocketMgr.Valid;
      Before(c);
      c.state := v;
      world := Put(world, c.id, world.conns[c.id].(state := v));
      OneChanged(c);
    }

    method SetKind(c: CipConn, v: Kind)
      requires Valid() && Mine(c)
      modifies this`world, c`kind
      ensures Valid() && Mine(c) && c.id < |old(world).conns|
      ensures world == Put(old(world), c.id, old(world).conns[c.id].(kind := v))
    {
      hide Valid, UdpSocketMgr.Valid;
      Before(c);
      c.kind := v;
      world := Put(world, c.id, world.conns[c.id].(kind := v));
      OneChanged(c);
    }

    method SetSession(c: CipConn, v: nat)
      requires Valid() && Mine(c)
      modifies this`world, c`session
      ensures Valid() && Mine(c) && c.id < |old(world).conns|
      ensures world == Put(old(world), c.id, old(world).conns[c.id].(session := v))
    {
      hide Valid, UdpSocketMgr.Valid;
      Before(c);
      c.session := v;
      world := Put(world, c.id, world.conns[c.id].(session := v));
      OneChanged(c);
    }

    method SetOpener(c: CipConn, v: nat)
      requires Valid() && Mine(c)
      modifies this`world, c`opener
      ensures Valid() && Mine(c) && c.id < |old(world).conns|
      ensures world == Put(old(world), c.id, old(world).conns[c.id].(opener := v))
    {
      hide Valid, UdpSocketMgr.Valid;
      Before(c);
      c.opener := v;
      world := Put(world, c.id, world.conns[c.id].(opener := v));
      OneChanged(c);
    }

    method SetParams(c: CipConn, v: Params)
      requires Valid() && Mine(c)
      modifies this`world, c`params
      ensures Valid() && Mine(c) && c.id < |old(world).conns|
      ensures world == Put(old(world), c.id, old(world).conns[c.id].(params := v))
    {
      hide Valid, UdpSocketMgr.Valid;
      Before(c);
      c.params := v;
      world := Put(world, c.id, world.conns[c.id].(params := v));
      OneChanged(c);
    }

    method SetRate(c: CipConn, v: nat)
      requires Valid() && Mine(c)
      modifies this`world, c`rate
      ensures Valid() && Mine(c) && c.id < |old(world).conns|
      ensures world == Put(old(world), c.id, old(world).conns[c.id].(rate := v))
    {
      hide Valid, UdpSocketMgr.Valid;
      Before(c);
      c.rate := v;
      world := Put(world, c.id, world.conns[c.id].(rate := v));
      OneChanged(c);
    }

    method SetWatchdog(c: CipConn, v: nat)
      requires Valid() && Mine(c)
      modifies this`world, c`watchdog
      ensures Valid() && Mine(c) && c.id < |old(world).conns|
      ensures world == Put(old(world), c.id, old(world).conns[c.id].(watchdog := v))
    {
      hide Valid, UdpSocketMgr.Valid;
      Before(c);
      c.watchdog := v;
      world := Put(world, c.id, world.conns[c.id].(watchdog := v));
      OneChanged(c);
    }

    method SetSeqConsuming(c: CipConn, v: nat)
      requires Valid() && Mine(c)
      modifies this`world, c`seqConsuming
      ensures Valid() && Mine(c) && c.id < |old(world).conns|
      ensures world == Put(old(world), c.id, old(world).conns[c.id].(seqConsuming := v))
    {
      hide Valid, UdpSocketMgr.Valid;
      Before(c);
      c.seqConsuming := v;
      world := Put(world, c.id, world.conns[c.id].(seqConsuming := v));
      OneChanged(c);
    }

    method SetProducingCounts(c: CipConn, eip: nat, count: nat)
      requires Valid() && Mine(c)
      modifies this`world, c`eipProducing, c`seqProducing
      ensures Valid() && Mine(c) && c.id < |old(world).conns|
      ensures world == Put(old(world), c.id, old(world).conns[c.id].(eipProducing := eip, seqProducing := count))
    {
      hide Valid, UdpSocketMgr.Valid;
      Before(c);
      c.eipProducing, c.seqProducing := eip, count;
      world := Put(world, c.id, world.conns[c.id].(eipProducing := eip, seqProducing := count));
      OneChanged(c);
    }

    method SetConsumingFilter(c: CipConn, eip: nat, first: bool)
      requires Valid() && Mine(c)
      modifies this`world, c`eipConsuming, c`eipFirst
      ensures Valid() && Mine(c) && c.id < |old(world).conns|
      ensures world == Put(old(world), c.id, old(world).conns[c.id].(eipConsuming := eip, eipFirst := first))
    {
      hide Valid, UdpSocketMgr.Valid;
      Before(c);
      c.eipConsuming, c.eipFirst := eip, first;
      world := Put(world, c.id, world.conns[c.id].(eipConsuming := eip, eipFirst := first));
      OneChanged(c);
    }

    /** CipConn::Clear( false ), for a connection that is off the list. */
    method Clear(c: CipConn)
      requires Valid() && Mine(c) && c.id !in world.active
      modifies this`world, c
      ensures Valid() && c.id < |old(world).conns|
      ensures world == Put(old(world), c.id, Cleared(old(world).conns[c.id], old(world).now))
    {
      hide Valid;
      ClearData(c);
      ClearLinks(c);
    }

    method ClearData(c: CipConn)
      requires Valid() && Mine(c)
      modifies this`world, c
      ensures Valid() && Mine(c) && c.id < |old(world).conns|
      ensures world == Put(old(world), c.id, Cleared(old(world).conns[c.id], old(world).now))
    {
      hide UdpSocketMgr.Valid, ListIs;
      assert SlotIs(c, c.id, world.conns[c.id]);
      c.Clear(now);

      world := Put(world, c.id, Cleared(world.conns[c.id], world.now));
    }

    /** The links of a node that is off the list mean nothing. */
    method ClearLinks(c: CipConn)
      requires Valid() && Mine(c) && c.id !in world.active
      modifies c`next, c`prev, c`onList
      ensures Valid()
    {
      hide UdpSocketMgr.Valid, SlotsAre, CipConnBox.Linked;
      SlotIds();
      ghost var _ := NodeOf(c);
      c.next, c.prev, c.onList := null, null, false;
      StillLinked(c);
      LinksOnly();
    }

    twostate lemma StillLinked(new c: CipConn)
      requires old(ListIs(world.active)) && Mine(c) && c !in box.elems && unchanged(box) && unchanged(this)
      requires forall o :: o in conns && o != c ==> unchanged(o)
      requires forall k :: 0 <= k < |box.elems| ==> box.elems[k] in conns
      requires c.next == null && !c.onList && !old(c.onList)
      ensures ListIs(world.active)
    {
      forall k | 0 <= k < |box.elems| ensures unchanged(box.elems[k]) && box.elems[k] == old(box.elems[k]) {
        assert box.elems[k] in conns && box.elems[k] != c;
      }
      forall i | 0 <= i < |conns| ensures conns[i].onList == old(conns[i].onList) && (conns[i] == c || conns[i].next == old(conns[i].next)) {
        assert conns[i] in conns;
      }
    }

    /** What the fields of c are, as far as the value of the stack goes. */
    lemma See(c: CipConn)
      requires Valid() && Mine(c)
      ensures c.id < |world.conns| && c.Is(world.conns[c.id]) && Ready(world)
      ensures (c.consumingUdp != null ==> udp.Owns(c.consumingUdp)) && (c.producingUdp != null ==> udp.Owns(c.producingUdp))
    {
      IsReady();
      assert SlotIs(c, c.id, world.conns[c.id]);
    }

    // ----- Handing over

    /** The stream of c goes to n, counters included. */
    method HandOver(c: CipConn, n: CipConn)
      requires Valid() && Mine(c) && Mine(n) && c != n
      modifies this`world, c`producingUdp, n`producingUdp, n`sendAddr, n`eipProducing, n`seqProducing, n`trigger
      ensures Valid() && c.id < |old(world).conns| && n.id < |old(world).conns| && world == ConnSpec.HandOver(old(world), c.id, n.id)
    {
      hide Valid;
      See(c);
      SetProducingUdp(n, c.producingUdp);
      SetSendAddr(n, c.sendAddr);
      SetProducingCounts(n, c.eipProducing, c.seqProducing);
      SetProducingUdp(c, null);
      SetTrigger(n, c.trigger);
    }

    method HandOverSocket(c: CipConn, n: CipConn)
      requires Valid() && Mine(c) && Mine(n) && c != n
      modifies this`world, c`producingUdp, n`producingUdp, n`trigger
      ensures Valid() && c.id < |old(world).conns| && n.id < |old(world).conns| && world == ConnSpec.HandOverSocket(old(world), c.id, n.id)
    {
      hide Valid;
      See(c);
      SetProducingUdp(n, c.producingUdp);
      SetProducingUdp(c, null);
      SetTrigger(n, c.trigger);
    }

    // ----- Sockets and the list

    /** UdpSocketMgr::ReleaseSocket on one end, if there is one. */
    method ReleaseUdp(s: UdpSocket?)
      requires Valid() && (s != null ==> udp.Owns(s))
      modifies this`world, udp`multicast, udp`free, udp`spec, udp.records
      ensures Valid() && Ranged(old(world).udp)
      ensures world == old(world).(udp := ReleaseEnd(old(world).udp, CipConn.SockId(s)))
    {
      hide ListIs;
      udp.SpecIsRanged();
      if s != null {
        var _ := udp.ReleaseSocket(s);
        world := world.(udp := udp.spec);
      }
    }

    method GrabUdp(a: SockAddr, group: Option<SockAddr>, os: Os) returns (s: UdpSocket?)
      requires Valid()
      modifies this`world, udp, udp.records
      ensures Valid() && udp.Grows() && Ranged(old(world).udp) && (s != null ==> udp.Owns(s))
      ensures var (u, id) := Grab(old(world).udp, a, group, os);
              id == CipConn.SockId(s) && world == old(world).(udp := u)
    {
      hide ListIs, SlotIs, Grab;
      s := udp.GrabSocket(a, group, os);
      SlotsSurvive();
      world := world.(udp := udp.spec);
    }

    /** More records do not disturb the slots. */
    twostate lemma SlotsSurvive()
      requires old(SlotsAre(world.conns)) && udp.Grows()
      requires forall c :: c in conns ==> unchanged(c)
      requires unchanged(this)
      ensures SlotsAre(world.conns)
    {
      forall i | 0 <= i < |conns| ensures SlotIs(conns[i], i, world.conns[i]) {
        assert old(SlotIs(conns[i], i, world.conns[i])) && conns[i] in conns;
      }
    }

    /** Relinking the list does not disturb the slots either. */
    twostate lemma LinksOnly()
      requires old(SlotsAre(world.conns)) && unchanged(this) && unchanged(udp)
      requires forall c :: c in conns ==> c.SameData()
      ensures SlotsAre(world.conns)
    {
      forall i | 0 <= i < |conns| ensures SlotIs(conns[i], i, world.conns[i]) {
        assert old(SlotIs(conns[i], i, world.conns[i])) && conns[i] in conns;
      }
    }

    lemma SlotIds()
      requires Valid()
      ensures forall i :: 0 <= i < |conns| ==> conns[i].id == i
    {
      forall i | 0 <= i < |conns| ensures conns[i].id == i {
        assert SlotIs(conns[i], i, world.conns[i]);
      }
    }

    lemma ListedOnce()
      requires Valid()
      ensures NoDup(world.active)
    {
      forall i, j | 0 <= i < j < |world.active| ensures world.active[i] != world.active[j] {
        assert box.elems[i] != box.elems[j];
      }
    }

    /** CipConnBox::Remove on the active list. */
    method Unlist(c: CipConn)
      requires Valid() && Mine(c) && c.id in world.active
      modifies this`world, box, conns`next, conns`prev, conns`onList
      ensures Valid() && world == old(world).(active := Without(old(world).active, c.id))
    {
      hide SlotsAre, UdpSocketMgr.Valid, ListIs, NodesAre, FlagsAre, LooseEnds, CipConnBox.Linked, Without, NoDup;
      ListedOnce();
      SlotIds();
      ghost var at := NodeOf(c);
      ghost var ids := world.active;
      ghost var left := Without(ids, c.id);
      NodesAfterRemove(box.elems, ids, at);
      Unlink(c, at);
      FlagsAfterRemove(c, ids, left);
      LooseAfterRemove(c);
      ListAssembled(left);
      world := world.(active := left);
    }

    /** The nodes are relinked; data and flags of the others stay. */
    method Unlink(c: CipConn, ghost at: nat)
      requires box.Linked() && at < |box.elems| && box.elems[at] == c && c.onList && SlotsAre(world.conns)
      requires forall k :: 0 <= k < |box.elems| ==> box.elems[k] in conns && box.elems[k].onList
      modifies box, conns`next, conns`prev, conns`onList
      ensures box.Linked() && SlotsAre(world.conns)
      ensures box.elems == old(box.elems)[..at] + old(box.elems)[at + 1..] && c.next == null && !c.onList
      ensures forall i :: 0 <= i < |conns| && conns[i] != c ==> conns[i].onList == old(conns[i].onList)
      ensures forall i :: 0 <= i < |conns| && conns[i] != c && !conns[i].onList ==> conns[i].next == old(conns[i].next)
    {
      hide SlotsAre, CipConnBox.Linked;
      var _ := box.Remove(c, at);
      LinksOnly();
    }

    lemma ListAssembled(ids: seq<nat>)
      requires box.Linked() && NodesAre(box.elems, ids) && FlagsAre(ids) && LooseEnds()
      ensures ListIs(ids)
    {
    }

    /** Where a connection is on the list, if it is. */
    lemma NodeOf(c: CipConn) returns (at: nat)
      requires ListIs(world.active) && Mine(c) && forall i :: 0 <= i < |conns| ==> conns[i].id == i
      ensures box.Linked() && NodesAre(box.elems, world.active) && FlagsAre(world.active) && LooseEnds()
      ensures |box.elems| == |world.active|
      ensures c.onList <==> c.id in world.active
      ensures c.onList ==> at < |world.active| && world.active[at] == c.id && box.elems[at] == c
      ensures c.onList <==> c in box.elems
      ensures c in conns && forall k :: 0 <= k < |box.elems| ==> box.elems[k] in conns && box.elems[k].onList
    {
      assert conns[c.id] in conns;
      at := 0;
      if c.onList {
        at :| 0 <= at < |world.active| && world.active[at] == c.id;
        assert box.elems[at] == c;
      }
    }

    lemma NodesAfterRemove(nodes: seq<CipConn>, ids: seq<nat>, at: nat)
      requires NodesAre(nodes, ids) && at < |ids| && NoDup(ids)
      ensures |nodes| == |ids| && NodesAre(nodes[..at] + nodes[at + 1..], Without(ids, ids[at]))
    {
      WithoutAt(ids, at);
    }

    twostate lemma FlagsAfterRemove(new c: CipConn, new ids: seq<nat>, new left: seq<nat>)
      requires old(FlagsAre(ids)) && Mine(c) && (forall i :: 0 <= i < |conns| ==> conns[i].id == i)
      requires (forall i :: i in left <==> i in ids && i != c.id) && !c.onList
      requires forall i :: 0 <= i < |conns| && conns[i] != c ==> conns[i].onList == old(conns[i].onList)
      ensures FlagsAre(left)
    {
    }

    twostate lemma LooseAfterRemove(new c: CipConn)
      requires old(LooseEnds()) && !c.onList && c.next == null
      requires forall i :: 0 <= i < |conns| && conns[i] != c ==> conns[i].onList == old(conns[i].onList)
      requires forall i :: 0 <= i < |conns| && conns[i] != c && !conns[i].onList ==> conns[i].next == old(conns[i].next)
      ensures LooseEnds()
    {
    }

    method Link(c: CipConn)
      requires box.Linked() && !c.onList && c !in box.elems && c in conns && SlotsAre(world.conns)
      requires forall k :: 0 <= k < |box.elems| ==> box.elems[k] in conns && box.elems[k].onList
      modifies box, conns`next, conns`prev, conns`onList
      ensures box.Linked() && SlotsAre(world.conns) && box.elems == [c] + old(box.elems) && c.onList
      ensures forall i :: 0 <= i < |conns| && conns[i] != c ==>
                conns[i].onList == old(conns[i].onList) && conns[i].next == old(conns[i].next)
    {
      hide SlotsAre, CipConnBox.Linked;
      var _ := box.Insert(c);
      LinksOnly();
    }

    /** CipConnBox::Insert on the active list. */
    method Enlist(c: CipConn)
      requires Valid() && Mine(c) && c.id !in world.active
      modifies this`world, box, conns`next, conns`prev, conns`onList
      ensures Valid() && world == old(world).(active := [c.id] + old(world).active)
    {
      hide SlotsAre, UdpSocketMgr.Valid, ListIs, NodesAre, FlagsAre, LooseEnds, CipConnBox.Linked;
      SlotIds();
      ghost var _ := NodeOf(c);
      ghost var ids := world.active;
      NodesAfterInsert(box.elems, ids, c);
      Link(c);
      FlagsAfterInsert(c, ids);
      LooseAfterInsert(c);
      ListAssembled([c.id] + ids);
      world := world.(active := [c.id] + ids);
    }

    lemma NodesAfterInsert(nodes: seq<CipConn>, ids: seq<nat>, c: CipConn)
      requires NodesAre(nodes, ids) && Mine(c)
      ensures NodesAre([c] + nodes, [c.id] + ids)
    {
    }

    twostate lemma FlagsAfterInsert(new c: CipConn, new ids: seq<nat>)
      requires old(FlagsAre(ids)) && Mine(c) && c.onList && (forall i :: 0 <= i < |conns| ==> conns[i].id == i)
      requires forall i :: 0 <= i < |conns| && conns[i] != c ==> conns[i].onList == old(conns[i].onList)
      ensures FlagsAre([c.id] + ids)
    {
      forall i | 0 <= i < |conns| ensures conns[i].onList <==> i in [c.id] + ids {
        assert i in [c.id] + ids <==> i == c.id || i in ids;
      }
    }

    twostate lemma LooseAfterInsert(new c: CipConn)
      requires old(LooseEnds()) && c.onList
      requires forall i :: 0 <= i < |conns| && conns[i] != c ==>
                 conns[i].onList == old(conns[i].onList) && conns[i].next == old(conns[i].next)
      ensures LooseEnds()
    {
    }

    // ----- Closing

    /** Both sockets are given back. */
    method ReleaseEnds(c: CipConn)
      requires Valid() && Mine(c)
      modifies this`world, c`consumingUdp, c`producingUdp, udp`multicast, udp`free, udp`spec, udp.records
      ensures Valid() && Ready(old(world)) && c.id < |old(world).conns|
      ensures var d := old(world).conns[c.id];
              world == Put(old(world), c.id, d.(consumingUdp := None, producingUdp := None)).(
                         udp := ReleaseEnd(ReleaseEnd(old(world).udp, d.consumingUdp), d.producingUdp))
    {
      hide Valid, ReleaseEnd;
      See(c);
      ReleaseUdp(c.consumingUdp);
      SetConsumingUdp(c, null);
      See(c);
      ReleaseUdp(c.producingUdp);
      SetProducingUdp(c, null);
    }

    /** The tail of CipConn::Close. */
    method Shut(c: CipConn)
      requires Valid() && Mine(c) && c.id in world.active
      modifies this`world, conns, box, udp`multicast, udp`free, udp`spec, udp.records
      ensures Valid() && Ready(old(world)) && c.id < |old(world).conns| && world == ConnSpec.Shut(old(world), c.id)
    {
      hide Valid, ReleaseEnd;
      ReleaseEnds(c);
      SetSession(c, 0);
      Unlist(c);
      SetState(c, NonExistent);
    }

    /** The owner whose timeout closes the input-only connections of its point. */
    ghost predicate OwnerAt(e: nat, p: int)
      requires Ready(world)
      reads this
    {
      && e in world.active && world.conns[e].kind == ExclusiveOwner
      && world.conns[e].params.producing == Multicast && world.conns[e].params.inputPt == p
    }

    /** CipConn::Close. */
    method Close(c: CipConn)
      requires Valid() && Mine(c) && Sound(world, |conns|) && MasterInv(world)
      modifies this`world, conns, box, udp`multicast, udp`free, udp`spec, udp.records
      ensures Valid() && Ready(old(world)) && c.id < |old(world).conns| && world == ConnSpec.Close(old(world), c.id)
      ensures Sound(world, |conns|) && MasterInv(world)
      decreases Rank(c.kind), 0, 0
    {
      hide Valid, Balanced, Held, MasterInv, FirstCandidate, ConnSpec.Shut, ConnSpec.CloseEach;
      See(c);
      AtHead();
      assert SlotOk(world, c.id);
      CloseKeeps(world, c.id, |conns|);
      if c.state == NonExistent {
        return;
      }
      var p := c.params.inputPt;
      if MasterKind(c.kind) && c.params.producing == Multicast && c.producingUdp != null {
        var heir := FindCandidate(p, false);
        if heir != null {
          See(heir);
          HandOver(c, heir);
        } else {
          LastMasterDispensable(world, c.id, |conns|);
          CloseAllForInput(p, ListenOnly, 0);
        }
      }
      Shut(c);
    }

    /** CloseAllConnectionsForInputWithSameType. It is called for listen-only connections, and
        for input-only ones when the exclusive owner e of the point times out. */
    method CloseAllForInput(p: int, t: Kind, ghost e: nat)
      requires Valid() && Sound(world, |conns|) && MasterInv(world)
      requires t == ListenOnly || (t == InputOnly && OwnerAt(e, p))
      modifies this`world, conns, box, udp`multicast, udp`free, udp`spec, udp.records
      ensures Valid() && Ready(old(world)) && world == CloseEach(old(world), old(world).active, p, t)
      ensures Sound(world, |conns|) && MasterInv(world)
      decreases Rank(t), 1, 0
    {
      hide Valid, Balanced, Held, MasterInv, ConnSpec.Close;
      AtHead();
      var c := box.head;
      ghost var w0 := world;
      ghost var pos := 0;
      assert world.active[0..] == world.active;
      while c != null
        invariant Valid() && Sound(world, |conns|) && MasterInv(world)
        invariant pos <= |world.active| && |world.conns| == |conns| && Ready(w0)
        invariant c == if pos < |world.active| then conns[world.active[pos]] else null
        invariant CloseEach(w0, w0.active, p, t) == CloseEach(world, world.active[pos..], p, t)
        invariant t == InputOnly ==> OwnerAt(e, p)
        decreases |world.active| - pos
      {
        At(pos);
        See(c);
        CloseEachStep(world, pos, p, t);
        if t == c.kind && p == c.params.inputPt {
          var toClose := c;
          c := c.next;
          CloseIsExact(toClose, pos, t, e, p);
          Close(toClose);
          AtAny(pos);
        } else {
          c := c.next;
          pos := pos + 1;
        }
      }
      CloseEachStep(world, pos, p, t);
    }

    lemma AtAny(k: nat)
      requires Valid() && k <= |world.active|
      ensures Ready(world) && |world.conns| == |conns| && (k < |world.active| ==> world.active[k] < |conns|)
    {
      IsReady();
    }

    /** One step of the walk, at place k of the list. */
    lemma CloseEachStep(w: World, k: nat, p: int, t: Kind)
      requires Ready(w) && k <= |w.active|
      ensures CloseEach(w, w.active[k..], p, t) ==
              if k == |w.active| then w
              else if Matches(w.conns[w.active[k]], p, t) then CloseEach(ConnSpec.Close(w, w.active[k]), w.active[k + 1..], p, t)
              else CloseEach(w, w.active[k + 1..], p, t)
    {
      if k < |w.active| { assert w.active[k..][1..] == w.active[k + 1..]; }
    }

    /** Closing the node at place k takes that node, and no other, off the list. */
    lemma CloseIsExact(c: CipConn, k: nat, t: Kind, e: nat, p: int)
      requires Valid() && Mine(c) && Sound(world, |conns|) && MasterInv(world)
      requires k < |world.active| && world.active[k] == c.id && c.kind == t && c.params.inputPt == p
      requires t == ListenOnly || (t == InputOnly && Ready(world) && OwnerAt(e, p))
      ensures Ready(world) && c.id < |world.conns|
      ensures var v := ConnSpec.Close(world, c.id);
              && v.active == world.active[..k] + world.active[k + 1..]
              && v.active[k..] == world.active[k + 1..]
              && (t == InputOnly ==> e in v.active && v.conns[e].kind == ExclusiveOwner
                                     && v.conns[e].params.producing == Multicast && v.conns[e].params.inputPt == p)
    {
      hide Balanced, Held, MasterInv, ConnSpec.Close, UdpSocketMgr.Valid, ListIs, CipConnBox.Linked;
      See(c);
      assert SlotOk(world, c.id);
      WithoutAt(world.active, k);
      CloseShrinks(world, c.id);
      if t == ListenOnly {
        PlainCloseIsExact(world, c.id);
      } else {
        InputOnlyCloseIsExact(world, c.id, e, |conns|);
      }
    }

    // ----- Timing out

    /** Some connection from place k of the list on carries the session handle. */
    ghost predicate Carries(w: World, k: nat, h: nat)
      requires Ready(w)
    {
      exists j :: k <= j < |w.active| && w.conns[w.active[j]].session == h
    }

    lemma CarriesAny(w: World, h: nat)
      requires Ready(w)
      ensures Carries(w, 0, h) <==> exists i :: i in w.active && w.conns[i].session == h
    {
      if Carries(w, 0, h) {
        var j :| 0 <= j < |w.active| && w.conns[w.active[j]].session == h;
        assert w.active[j] in w.active;
      }
    }

    /** CheckForTimedOutConnectionsAndCloseTCPConnections. */
    method CheckSession(h: nat)
      requires Valid()
      modifies this`world, this`sessions
      ensures Valid() && Ready(old(world)) && world == ConnSpec.CheckSession(old(world), h)
    {
      hide Valid;
      AtHead();
      CarriesAny(world, h);
      var c := box.head;
      ghost var k := 0;
      while c != null
        invariant Valid() && Ready(world) && world == old(world) && |world.conns| == |conns|
        invariant k <= |world.active|
        invariant c == if k < |world.active| then conns[world.active[k]] else null
        invariant Carries(world, 0, h) <==> Carries(world, k, h)
        decreases |world.active| - k
      {
        At(k);
        See(c);
        if c.session == h {
          return;
        }
        c := c.next;
        k := k + 1;
      }
      SetSessions(h);
    }

    method SetSessions(h: nat)
      requires Valid()
      modifies this`world, this`sessions
      ensures Valid() && world == old(world).(sessions := old(world).sessions - {h})
    {
      hide UdpSocketMgr.Valid, ListIs, SlotsAre;
      sessions := sessions - {h};
      world := world.(sessions := world.sessions - {h});
    }

    /** The part of CipConn::timeOut before it calls Close. */
    method TimeOutCascade(c: CipConn)
      requires Valid() && Mine(c) && Inv(world, cfg) && c.id in world.active
      modifies this`world, conns, box, udp`multicast, udp`free, udp`spec, udp.records
      ensures Valid() && Ready(old(world)) && c.id < |old(world).conns|
      ensures world == ConnSpec.TimeOutCascade(old(world), c.id) && Inv(world, cfg)
    {
      hide Valid, Balanced, Held, MasterInv, UniqueInv, SlotOk, FirstCandidate, ConnSpec.CloseEach;
      See(c);
      AtHead();
      CascadeKeeps(world, cfg, c.id);
      var p := c.params.inputPt;
      if c.params.producing == Multicast {
        if c.kind == ExclusiveOwner {
          CloseAllForInput(p, InputOnly, c.id);
          CloseAllForInput(p, ListenOnly, 0);
        } else if c.kind == InputOnly {
          if c.producingUdp != null {
            var heir := FindCandidate(p, false);
            if heir != null {
              See(heir);
              HandOverSocket(c, heir);
            } else {
              CloseAllForInput(p, ListenOnly, 0);
            }
          }
        }
      }
    }

    /** CipConn::timeOut. */
    method TimeOut(c: CipConn)
      requires Valid() && Mine(c) && Inv(world, cfg) && c.id in world.active
      modifies this`world, this`sessions, conns, box, udp`multicast, udp`free, udp`spec, udp.records
      ensures Valid() && Ready(old(world)) && c.id < |old(world).conns|
      ensures world == ConnSpec.TimeOut(old(world), c.id) && Inv(world, cfg)
      ensures c.next == null && c.state == NonExistent
    {
      hide Valid, Balanced, Held, MasterInv, UniqueInv, ConnSpec.Close, ConnSpec.TimeOutCascade, ConnSpec.CheckSession;
      AtHead();
      TimeOutKeeps(world, cfg, c.id);
      TimeOutCascade(c);
      See(c);
      var h := c.session;  // Close clears it
      assert SlotOk(world, c.id);
      Close(c);
      if h != 0 {
        CheckSession(h);
      }
      OffTheList(c);
    }

    lemma OffTheList(c: CipConn)
      requires Valid() && Mine(c) && Sound(world, |conns|) && c.id !in world.active
      ensures c.next == null && c.state == NonExistent
    {
      See(c);
      assert SlotOk(world, c.id);
    }

    /** ManageConnections, the walk over the active list; `changed` are the connections whose
        application reports new data when asked before sending. */
    method ManageConnections(changed: set<nat>)
      requires Valid() && Inv(world, cfg)
      modifies this`world, this`sessions, conns, box, udp`multicast, udp`free, udp`spec, udp.records
      ensures Valid() && Ready(old(world)) && world == ManageWalk(old(world), old(world).active, changed)
      ensures Inv(world, cfg)
    {
      hide Valid, Balanced, Held, MasterInv, UniqueInv, SlotOk, ConnSpec.TimeOut, ManageWalk, Produce;
      AtHead();
      ghost var w0 := world;
      ManageKeeps(world, cfg, world.active, changed);
      var c := box.head;
      ghost var pos := 0;
      ghost var stopped := false;
      assert world.active[0..] == world.active;
      while c != null
        invariant Valid() && Inv(world, cfg) && |world.conns| == |conns| && Ready(w0)
        invariant stopped ==> c == null && world == ManageWalk(w0, w0.active, changed)
        invariant !stopped ==>
                    && pos <= |world.active|
                    && c == (if pos < |world.active| then conns[world.active[pos]] else null)
                    && ManageWalk(w0, w0.active, changed) == ManageWalk(world, world.active[pos..], changed)
        decreases !stopped, |world.active| - pos
      {
        At(pos);
        See(c);
        ManageStep(world, pos, changed);
        ListedIsOpen(c);
        if c.rate != 0 && (c.params.hasConsumer || IsServer(c.params.transport)) && Diff32(c.watchdog, NowOf()) <= 0 {
          TimeOut(c);
          stopped := true;
        } else {
          if !IsServer(c.params.transport) && c.rate != 0 && c.producingUdp != null && Diff32(c.trigger, NowOf()) <= 0 {
            DueKeeps(world, cfg, c.id, c.id in changed);
            SendConnectedData(c, c.id in changed);
            At(pos);
          }
          pos := pos + 1;
        }
        c := c.next;
      }
      if !stopped { ManageStep(world, pos, changed); }
    }

    /** The clock, as the value knows it. */
    function NowOf(): (t: nat)
      requires Valid()
      reads this, box, box.elems, conns, udp, udp.records
      ensures t == world.now
    {
      now
    }

    lemma ListedIsOpen(c: CipConn)
      requires Valid() && Mine(c) && Sound(world, |conns|) && c.id in world.active
      ensures c.state == Established && c.id < |world.conns| && world.conns[c.id].state == Established
    {
      See(c);
      assert SlotOk(world, c.id);
    }

    lemma ManageStep(w: World, k: nat, changed: set<nat>)
      requires Ready(w) && k <= |w.active|
      ensures ManageWalk(w, w.active[k..], changed) ==
              if k == |w.active| then w
              else
                var i := w.active[k];
                if Expired(w.conns[i], w.now) then ConnSpec.TimeOut(w, i)
                else ManageWalk(if Due(w.conns[i], w.now) then Put(w, i, Produce(w.conns[i], i in changed)) else w, w.active[k + 1..], changed)
    {
      if k < |w.active| { assert w.active[k..][1..] == w.active[k + 1..]; }
    }

    /** The counters and the trigger of one datagram; its bytes are IoFrame's. */
    method SendConnectedData(c: CipConn, changed: bool)
      requires Valid() && Mine(c)
      modifies this`world, c`eipProducing, c`seqProducing, c`trigger
      ensures Valid() && c.id < |old(world).conns|
      ensures world == Put(old(world), c.id, Produce(old(world).conns[c.id], changed))
    {
      hide Valid;
      See(c);
      SetProducingCounts(c, U32(c.eipProducing + 1), if changed then U16(c.seqProducing + 1) else c.seqProducing);
      See(c);
      SetTrigger(c, U32(c.trigger + c.params.producingRpi));
    }
  }
}
