/** Opening keeps the invariants of the connection life cycle, and a failed open gives back
    everything it took. */
module ConnOpen {
  import opened Words
  import opened SocketSpec
  import opened SocketInv
  import opened ConnSpec
  import opened ConnInv

  /** Every exclusive owner has a slot of its own. */
  ghost predicate ConfigWf(cfg: Config, n: nat) {
    && ConfigFits(cfg, n)
    && (forall k, l :: 0 <= k < |cfg.owners| && 0 <= l < |cfg.owners| && k != l ==>
          cfg.owners[k].slots[0] !in cfg.owners[l].slots)
    && (forall k, l :: 0 <= k < |cfg.owners| && 0 <= l < |cfg.inputOnlys| ==>
          cfg.owners[k].slots[0] !in cfg.inputOnlys[l].slots)
    && (forall k, l :: 0 <= k < |cfg.owners| && 0 <= l < |cfg.listeners| ==>
          cfg.owners[k].slots[0] !in cfg.listeners[l].slots)
    && (forall k :: 0 <= k < |cfg.owners| ==> cfg.owners[k].slots[0] !in cfg.explicits)
  }

  /** The parameters are those of the request, but for the connection ids. */
  predicate Copied(p: Params, q: Params) {
    p == q.(consumingCid := p.consumingCid, producingCid := p.producingCid)
  }

  /** The slot belongs to the pool of its kind. */
  predicate FromPool(cfg: Config, slot: nat, kind: Kind, q: Params) {
    match kind
    case ExclusiveOwner => exists k :: 0 <= k < |cfg.owners| && slot in cfg.owners[k].slots && cfg.owners[k].output == q.outputPt
    case InputOnly => exists k :: 0 <= k < |cfg.inputOnlys| && slot in cfg.inputOnlys[k].slots
    case ListenOnly => exists k :: 0 <= k < |cfg.listeners| && slot in cfg.listeners[k].slots
    case Explicit => slot in cfg.explicits
  }

  lemma {:induction false} OwnerFromPool(w: World, es: seq<Expectation>, q: Params)
    requires Ready(w) && SlotsInRange(es, |w.conns|)
    requires forall k :: 0 <= k < |es| ==> |es[k].slots| == 1
    ensures var r := PickOwner(w, es, q);
            r.Found? ==>
              && !OutputConnected(w.conns, w.active, q.outputPt)
              && exists k :: 0 <= k < |es| && r.slot in es[k].slots && es[k].output == q.outputPt
  {
    if es != [] {
      var e := es[0];
      if e.output == q.outputPt && e.input == q.inputPt
         && (e.config == q.configPt || (e.config == -1 && !q.hasConfig)) {
        assert e.slots[0] in es[0].slots;
      } else {
        OwnerFromPool(w, es[1..], q);
        var r := PickOwner(w, es[1..], q);
        if r.Found? {
          var k :| 0 <= k < |es[1..]| && r.slot in es[1..][k].slots && es[1..][k].output == q.outputPt;
          assert r.slot in es[k + 1].slots;
        }
      }
    }
  }

  lemma {:induction false} SetFromPool(w: World, es: seq<Expectation>, q: Params, kind: Kind, o: bool, n: bool)
    requires Ready(w) && SlotsInRange(es, |w.conns|)
    ensures var r := PickFromSets(w, es, q, kind, o, n);
            r.Found? ==> exists k :: 0 <= k < |es| && r.slot in es[k].slots
  {
    if es != [] {
      var r := PickFromSets(w, es, q, kind, o, n);
      var o' := o || es[0].output == q.outputPt;
      var n' := n || (es[0].output == q.outputPt && es[0].input == q.inputPt);
      SetFromPool(w, es[1..], q, kind, o', n');
      var t := PickFromSets(w, es[1..], q, kind, o', n');
      if t.Found? && r == t {
        var k :| 0 <= k < |es[1..]| && t.slot in es[1..][k].slots;
        assert t.slot in es[k + 1].slots;
      } else if r.Found? {
        assert r.slot in es[0].slots;
      }
    }
  }

  /** The slot of a listed exclusive owner counts as a consumer of its output assembly. */
  lemma ListedOwnerIsConnected(w: World, cfg: Config, slot: nat, k: nat)
    requires Inv(w, cfg) && k < |cfg.owners| && slot in cfg.owners[k].slots && slot < |w.conns|
    ensures slot in w.active ==> OutputConnected(w.conns, w.active, cfg.owners[k].output)
  {
    assert SlotOk(w, slot);
  }

  lemma FreeIsOffList(w: World, slot: nat, x: nat)
    requires Sound(w, x) && slot < |w.conns| && slot != x
    ensures w.conns[slot].state == NonExistent ==> slot !in w.active
  {
    assert SlotOk(w, slot);
  }

  /** A slot handed out is off the list, an owner's output is not consumed yet, and a
      listen-only connection has a master to listen to. */
  lemma PickIsFree(w: World, cfg: Config, q: Params)
    requires Inv(w, cfg) && ConfigWf(cfg, |w.conns|)
    ensures var r := PickIo(w, cfg, q);
            r.Found? ==>
              && r.slot !in w.active && FromPool(cfg, r.slot, r.kind, q)
              && (r.kind == ExclusiveOwner ==> !OutputConnected(w.conns, w.active, q.outputPt))
              && (r.kind == ListenOnly ==> q.producing == Multicast && HasMaster(w, q.inputPt))
  {
    var r := PickIo(w, cfg, q);
    OwnerFromPool(w, cfg.owners, q);
    SetFromPool(w, cfg.inputOnlys, q, InputOnly, false, false);
    SetFromPool(w, cfg.listeners, q, ListenOnly, false, false);
    if r.Found? {
      FreeIsOffList(w, r.slot, |w.conns|);
      if r.kind == ExclusiveOwner {
        var k :| 0 <= k < |cfg.owners| && r.slot in cfg.owners[k].slots && cfg.owners[k].output == q.outputPt;
        ListedOwnerIsConnected(w, cfg, r.slot, k);
      }
    }
  }

  // ----- Changes to a connection that is not on the list

  ghost predicate OffList(w: World, r: World, i: nat) {
    && Ready(w) && Ready(r) && r.active == w.active && |r.conns| == |w.conns| && r.now == w.now
    && i !in w.active && i < |w.conns|
    && (forall k :: 0 <= k < |w.conns| && k != i ==> r.conns[k] == w.conns[k])
  }

  lemma OffListKeeps(w: World, r: World, cfg: Config, i: nat)
    requires OffList(w, r, i) && MasterInv(w) && UniqueInv(w, cfg)
    ensures MasterInv(r) && UniqueInv(r, cfg)
  {
    MasterOffList(w, r, i);
    UniqueOffList(w, r, cfg, i);
  }

  lemma OffListMasters(w: World, r: World, i: nat, p: int)
    requires OffList(w, r, i)
    ensures HasMaster(r, p) <==> HasMaster(w, p)
  {
    if HasMaster(w, p) {
      var m :| m in w.active && Candidate(w.conns[m], p, true);
      assert m in r.active && Candidate(r.conns[m], p, true);
    }
    if HasMaster(r, p) {
      var m :| m in r.active && Candidate(r.conns[m], p, true);
      assert m in w.active && Candidate(w.conns[m], p, true);
    }
  }

  /** The slot's connection changes, its sockets do not. */
  lemma PutSound(w: World, i: nat, c: Conn)
    requires Sound(w, i) && i < |w.conns|
    requires c.consumingUdp == w.conns[i].consumingUdp && c.producingUdp == w.conns[i].producingUdp
    ensures Sound(Put(w, i, c), i)
  {
    hide Balanced, Held;
    HeldSame(w.conns, i, c);
    var r := Put(w, i, c);
    forall k | 0 <= k < |r.conns| && k != i ensures SlotOk(r, k) {
      assert SlotOk(w, k);
    }
  }

  lemma TakeHeld(cs: seq<Conn>, i: nat, c: Conn, id: Option<nat>)
    requires i < |cs|
    requires (c.producingUdp == cs[i].producingUdp && cs[i].consumingUdp.None? && c.consumingUdp == id)
          || (c.consumingUdp == cs[i].consumingUdp && cs[i].producingUdp.None? && c.producingUdp == id)
    ensures Held(cs[i := c]) == Held(cs) + One(id)
  {
    hide Held;
    forall k: nat ensures Held(cs[i := c])[k] == (Held(cs) + One(id))[k] {
      HeldUpdate(cs, i, c, k);
    }
  }

  /** Grabbing, with the new end counted where there is one. */
  lemma GrabEnd(u: Udp, held: multiset<nat>, a: SockAddr, g: Option<SockAddr>, os: Os)
    requires Balanced(u, held) && !IsMulticast(a)
    requires g.Some? ==> a == BASE && IsMulticast(g.value)
    ensures var (v, id) := Grab(u, a, g, os);
            Balanced(v, held + One(id)) && (id.None? ==> Balanced(v, held))
  {
    hide Balanced, Grab;
    GrabKeeps(u, held, a, g, os);
    assert held + One(None) == held;
  }

  lemma BalancedIsRanged(u: Udp, held: multiset<nat>)
    requires Balanced(u, held)
    ensures Ranged(u)
  {
  }

  /** A grabbed socket becomes an end of the connection being opened. */
  lemma TakeSound(w: World, u: Udp, i: nat, c: Conn, id: Option<nat>)
    requires Sound(w, i) && i < |w.conns| && Balanced(u, Held(w.conns) + One(id))
    requires (c.producingUdp == w.conns[i].producingUdp && w.conns[i].consumingUdp.None? && c.consumingUdp == id)
          || (c.consumingUdp == w.conns[i].consumingUdp && w.conns[i].producingUdp.None? && c.producingUdp == id)
    ensures Sound(Put(w, i, c).(udp := u), i)
  {
    hide Balanced, Held, One;
    BalancedIsRanged(u, Held(w.conns) + One(id));
    var r := Put(w, i, c).(udp := u);
    TakeHeld(w.conns, i, c, id);
    forall k | 0 <= k < |r.conns| && k != i ensures SlotOk(r, k) {
      assert SlotOk(w, k);
    }
  }

  lemma UdpOnly(w: World, u: Udp, x: nat)
    requires Sound(w, x) && Balanced(u, Held(w.conns))
    ensures Sound(w.(udp := u), x)
  {
    hide Balanced, Held;
    BalancedIsRanged(u, Held(w.conns));
    var r := w.(udp := u);
    forall k | 0 <= k < |r.conns| && k != x ensures SlotOk(r, k) {
      assert SlotOk(w, k);
    }
  }

  lemma ConsumingKeeps(w: World, cfg: Config, i: nat, q: Request)
    requires Sound(w, i) && i < |w.conns| && w.conns[i].consumingUdp.None?
    ensures var (r, e) := OpenConsuming(w, cfg, i, q);
            Sound(r, i) && OffList(w, r, i)
            && r.conns[i] == w.conns[i].(consumingUdp := r.conns[i].consumingUdp, recvAddr := r.conns[i].recvAddr)
  {
    hide Balanced, Held, One, Grab, SlotOk;
    var c := w.conns[i];
    var (r, e) := OpenConsuming(w, cfg, i, q);
    var group := if c.params.consuming == Multicast && q.saii.Some? then Some(q.saii.value.addr.(port := IO_UDP_PORT)) else None;
    var a := if c.params.consuming == Multicast then BASE else SockAddr(0, cfg.ioPort);
    if e == Success && c.params.consuming != Multicast && c.params.consuming != PointToPoint {
    } else if e == ParameterError {
    } else {
      GrabEnd(w.udp, Held(w.conns), a, group, q.osIn);
      var (u, id) := Grab(w.udp, a, group, q.osIn);
      if id.Some? { TakeSound(w, u, i, r.conns[i], id); } else { UdpOnly(w, u, i); }
    }
  }

  /** The connection is entered at the head of the list. */
  function Admit(w: World, i: nat): (r: World)
    requires Ready(w) && i < |w.conns|
    ensures Ready(r) && |r.conns| == |w.conns|
  {
    Put(w, i, w.conns[i].(state := Established)).(active := [i] + w.active)
  }

  lemma AdmitSound(w: World, i: nat)
    requires Sound(w, i) && i < |w.conns|
    ensures Sound(Admit(w, i), |w.conns|)
  {
    hide Balanced, Held;
    var r := Admit(w, i);
    HeldSame(w.conns, i, r.conns[i]);
    forall k | 0 <= k < |r.conns| ensures SlotOk(r, k) {
      if k != i { assert SlotOk(w, k); }
    }
  }

  /** What opening the producing end does to the other connections. */
  ghost predicate OthersLive(w: World, r: World, i: nat) {
    && Ready(w) && Ready(r) && r.active == w.active && |r.conns| == |w.conns| && i < |w.conns|
    && (forall k :: k in w.active ==> SameLife(w.conns[k], r.conns[k]))
    && r.conns[i].kind == w.conns[i].kind && r.conns[i].state == w.conns[i].state
    && r.conns[i].params == w.conns[i].params.(producingCid := r.conns[i].params.producingCid)
  }

  /** How the other connections must look for i to be admitted: h holds the socket of i's
      point, nobody else of that point does, and all share i's connection id. */
  ghost predicate MasterReady(w: World, r: World, i: nat, h: nat) {
    && OthersLive(w, r, i) && i !in w.active && MemberOk(r.conns[i])
    && (forall k :: k in w.active && !Peers(r.conns[i], w.conns[k]) ==> r.conns[k] == w.conns[k])
    && (Multi(r.conns[i]) ==>
         && (h == i || h in w.active) && Candidate(r.conns[h], r.conns[i].params.inputPt, true)
         && (h == i || r.conns[i].producingUdp.None?)
         && (forall k :: k in w.active && Peers(r.conns[i], w.conns[k]) ==>
               r.conns[k].params.producingCid == r.conns[i].params.producingCid
               && (k != h ==> r.conns[k].producingUdp.None?)))
  }

  lemma AdmitPairs(w: World, r: World, i: nat, h: nat, j: nat, k: nat)
    requires MasterReady(w, r, i, h) && MasterInv(w)
    requires j in w.active && k in w.active && j != k
    ensures PairOk(r.conns[j], r.conns[k])
  {
    assert PairOk(w.conns[j], w.conns[k]);
    assert SameLife(w.conns[j], r.conns[j]) && SameLife(w.conns[k], r.conns[k]);
  }

  lemma AdmitNewPair(w: World, r: World, i: nat, h: nat, k: nat)
    requires MasterReady(w, r, i, h) && MasterInv(w) && k in w.active
    ensures PairOk(r.conns[i], r.conns[k]) && PairOk(r.conns[k], r.conns[i])
  {
    assert SameLife(w.conns[k], r.conns[k]);
  }

  lemma AdmitHasMaster(w: World, r: World, i: nat, h: nat, j: nat)
    requires MasterReady(w, r, i, h) && MasterInv(w)
    requires (j == i || j in w.active) && Multi(r.conns[j])
    ensures HasMaster(Admit(r, i), r.conns[j].params.inputPt)
  {
    var z := Admit(r, i);
    var p := r.conns[j].params.inputPt;
    if j == i || Peers(r.conns[i], w.conns[j]) {
      assert h in z.active && Candidate(z.conns[h], p, true);
    } else {
      assert HasMaster(w, p);
      var m :| m in w.active && Candidate(w.conns[m], p, true);
      assert m in z.active && Candidate(z.conns[m], p, true);
    }
  }

  /** Admitting i keeps one master per point. */
  lemma AdmitMaster(w: World, r: World, i: nat, h: nat)
    requires MasterReady(w, r, i, h) && MasterInv(w)
    ensures MasterInv(Admit(r, i))
  {
    hide HasMaster;
    var z := Admit(r, i);
    forall j | j in z.active && Multi(z.conns[j]) ensures HasMaster(z, z.conns[j].params.inputPt) {
      AdmitHasMaster(w, r, i, h, j);
    }
    forall j, k | j in z.active && k in z.active && j != k ensures PairOk(z.conns[j], z.conns[k]) {
      if j == i { AdmitNewPair(w, r, i, h, k); }
      else if k == i { AdmitNewPair(w, r, i, h, j); }
      else { AdmitPairs(w, r, i, h, j, k); }
    }
  }

  /** A connection that produces no multicast data changes no master. */
  lemma NonProducerMaster(w: World, r: World, i: nat)
    requires OffList(w, r, i) && OthersLive(w, r, i) && MasterInv(w)
    requires !Multi(r.conns[i]) && r.conns[i].kind != ListenOnly
    ensures MasterInv(Admit(r, i))
  {
    AdmitMaster(w, r, i, i);
  }

  /** The first producer of an input point, holding a new socket. */
  lemma FirstProducerMaster(w: World, r: World, i: nat)
    requires OffList(w, r, i) && OthersLive(w, r, i) && MasterInv(w)
    requires MasterKind(r.conns[i].kind) && r.conns[i].params.producing == Multicast && r.conns[i].producingUdp.Some?
    requires !HasMaster(w, r.conns[i].params.inputPt)
    ensures MasterInv(Admit(r, i))
  {
    forall k | k in w.active ensures !Peers(r.conns[i], w.conns[k]) {
      if Multi(w.conns[k]) { assert HasMaster(w, w.conns[k].params.inputPt); }
    }
    AdmitMaster(w, r, i, i);
  }

  /** Joining a point that has a master: an owner becomes the master, others do not. */
  lemma JoinMasterInv(w: World, cfg: Config, i: nat, m: nat)
    requires Ready(w) && MasterInv(w) && i < |w.conns| && m in w.active && i !in w.active
    requires Multi(w.conns[i]) && Candidate(w.conns[m], w.conns[i].params.inputPt, true)
    ensures MasterInv(Admit(JoinMaster(w, cfg, i, m), i))
  {
    var r := JoinMaster(w, cfg, i, m);
    var h := if w.conns[i].kind == ExclusiveOwner then i else m;
    forall k | k in w.active && Peers(r.conns[i], w.conns[k])
      ensures r.conns[k].params.producingCid == r.conns[i].params.producingCid
              && (k != h ==> r.conns[k].producingUdp.None?)
    {
      if k != m { assert PairOk(w.conns[m], w.conns[k]); }
    }
    AdmitMaster(w, r, i, h);
  }

  lemma JoinMasterLive(w: World, cfg: Config, i: nat, m: nat)
    requires Ready(w) && i < |w.conns| && m in w.active && i !in w.active
    ensures OthersLive(w, JoinMaster(w, cfg, i, m), i)
  {
  }

  lemma JoinMasterSound(w: World, cfg: Config, i: nat, m: nat)
    requires Sound(w, i) && i < |w.conns| && m in w.active && w.conns[i].producingUdp.None?
    ensures Sound(JoinMaster(w, cfg, i, m), i)
  {
    hide Balanced, Held;
    var r := JoinMaster(w, cfg, i, m);
    if w.conns[i].kind == ExclusiveOwner {
      assert SlotOk(w, m);
      JoinHeld(w.conns, i, m, r.conns[i], r.conns[m]);
      assert r.conns == w.conns[i := r.conns[i]][m := r.conns[m]];
      forall k | 0 <= k < |r.conns| && k != i ensures SlotOk(r, k) {
        assert SlotOk(w, k);
      }
    } else {
      PutSound(w, i, r.conns[i]);
    }
  }

  lemma JoinHeld(cs: seq<Conn>, i: nat, m: nat, ci: Conn, cm: Conn)
    requires i < |cs| && m < |cs| && i != m && cs[i].producingUdp.None?
    requires cm == cs[m].(producingUdp := None)
    requires ci.producingUdp == cs[m].producingUdp && ci.consumingUdp == cs[i].consumingUdp
    ensures Held(cs[i := ci][m := cm]) == Held(cs)
  {
    MoveHeld(cs, m, i, cm, ci);
  }

  /** The producing end finds a master: nothing can fail any more. */
  lemma ProducingJoins(w: World, cfg: Config, i: nat, m: nat)
    requires Sound(w, i) && MasterInv(w) && i < |w.conns| && w.conns[i].producingUdp.None?
    requires Multi(w.conns[i]) && m in w.active && Candidate(w.conns[m], w.conns[i].params.inputPt, true)
    ensures var r := JoinMaster(w, cfg, i, m); Sound(r, i) && OthersLive(w, r, i) && MasterInv(Admit(r, i))
  {
    hide Balanced, Held, MasterInv, JoinMaster, Admit;
    JoinMasterSound(w, cfg, i, m);
    JoinMasterLive(w, cfg, i, m);
    JoinMasterInv(w, cfg, i, m);
  }

  /** The producing end needs a socket of its own. */
  lemma ProducingGrabs(w: World, cfg: Config, i: nat, q: Request)
    requires Sound(w, i) && MasterInv(w) && i < |w.conns| && w.conns[i].producingUdp.None?
    requires w.conns[i].kind != Explicit && w.conns[i].kind != ListenOnly
    requires w.conns[i].params.producing == PointToPoint
          || (w.conns[i].params.producing == Multicast && !HasMaster(w, w.conns[i].params.inputPt))
    ensures var (r, e) := OpenProducing(w, cfg, i, q);
            && Sound(r, i) && OthersLive(w, r, i)
            && (e == Success ==> MasterInv(Admit(r, i)))
            && (e != Success ==> OffList(w, r, i) && r.conns == w.conns)
  {
    hide Balanced, Held, One, MasterInv, Admit, Grab, FirstCandidate, SlotOk;
    var (r, e) := OpenProducing(w, cfg, i, q);
    GrabEnd(w.udp, Held(w.conns), SockAddr(0, cfg.ioPort), None, q.osOut);
    var (u, id) := Grab(w.udp, SockAddr(0, cfg.ioPort), None, q.osOut);
    if id.Some? {
      TakeSound(w, u, i, r.conns[i], id);
      if w.conns[i].params.producing == Multicast { FirstProducerMaster(w, r, i); } else { NonProducerMaster(w, r, i); }
    } else {
      UdpOnly(w, u, i);
    }
  }

  lemma ProducingKeeps(w: World, cfg: Config, i: nat, q: Request)
    requires Sound(w, i) && MasterInv(w) && i < |w.conns| && w.conns[i].producingUdp.None?
    requires w.conns[i].kind != Explicit
    requires w.conns[i].kind == ListenOnly ==>
               w.conns[i].params.producing == Multicast && HasMaster(w, w.conns[i].params.inputPt)
    ensures var (r, e) := OpenProducing(w, cfg, i, q);
            && Sound(r, i) && OthersLive(w, r, i)
            && (e == Success ==> MasterInv(Admit(r, i)))
            && (e != Success ==> OffList(w, r, i) && r.conns == w.conns)
  {
    hide Balanced, Held, MasterInv, Admit, Grab, JoinMaster, FirstCandidate;
    var c := w.conns[i];
    var first := FirstCandidate(w.conns, w.active, c.params.inputPt, true);
    if c.params.producing == Multicast && first.Some? {
      ProducingJoins(w, cfg, i, first.value);
    } else if c.params.producing == Multicast || c.params.producing == PointToPoint {
      ProducingGrabs(w, cfg, i, q);
    } else {
      NonProducerMaster(w, w, i);
    }
  }

  /** Giving up on slot i leaves it as free as it was. */
  lemma AbandonKeeps(w: World, i: nat)
    requires Sound(w, i) && i < |w.conns|
    ensures Sound(Abandon(w, i), |w.conns|) && OffList(w, Abandon(w, i), i)
  {
    hide Balanced, Held;
    var r := Abandon(w, i);
    ReleaseBothKeeps(w.udp, w.conns, i, r.conns[i]);
    forall k | 0 <= k < |r.conns| ensures SlotOk(r, k) {
      if k != i { assert SlotOk(w, k); }
    }
  }

  /** The connection being opened may join the list. */
  ghost predicate Admissible(w: World, cfg: Config, i: nat, q: Params, kind: Kind)
    requires Ready(w)
  {
    && (forall k :: k in w.active ==> w.conns[k].params.triad != q.triad)
    && (kind == ExclusiveOwner ==> forall k :: k in w.active ==> w.conns[k].params.outputPt != q.outputPt)
    && FromPool(cfg, i, kind, q)
    && (TransportClass(q.transport) == 3 ==> kind == Explicit)
  }

  lemma AdmitUnique(w: World, r: World, cfg: Config, i: nat, q: Params, kind: Kind)
    requires OthersLive(w, r, i) && UniqueInv(w, cfg) && i !in w.active && ConfigWf(cfg, |w.conns|)
    requires Admissible(w, cfg, i, q, kind)
    requires r.conns[i].kind == kind && Copied(r.conns[i].params, q)
    ensures UniqueInv(Admit(r, i), cfg)
  {
    var z := Admit(r, i);
    forall j, k | j in z.active && k in z.active && j != k ensures Distinct(z.conns[j], z.conns[k]) {
      if j != i && k != i { assert Distinct(w.conns[j], w.conns[k]); }
    }
    forall j, k | 0 <= k < |cfg.owners| && j in z.active && j in cfg.owners[k].slots
      ensures z.conns[j].params.outputPt == cfg.owners[k].output
    {
      if j == i { assert cfg.owners[k].slots[0] == i; }
    }
  }

  /** Both ends: on failure nothing but slot i and the sockets has changed. */
  lemma ChannelsKeep(w: World, cfg: Config, i: nat, q: Request)
    requires Sound(w, i) && MasterInv(w) && i < |w.conns|
    requires w.conns[i].consumingUdp.None? && w.conns[i].producingUdp.None? && w.conns[i].kind != Explicit
    requires w.conns[i].kind == ListenOnly ==>
               w.conns[i].params.producing == Multicast && HasMaster(w, w.conns[i].params.inputPt)
    ensures var (r, e) := OpenChannels(w, cfg, i, q);
            && Sound(r, i)
            && (e == Success ==> OthersLive(w, r, i) && MasterInv(Admit(r, i)))
            && (e != Success ==> OffList(w, r, i))
  {
    hide Balanced, Held, MasterInv, OpenConsuming, OpenProducing, Admit, FirstCandidate, SlotOk;
    var (v, e1) := OpenConsuming(w, cfg, i, q);
    ConsumingKeeps(w, cfg, i, q);
    MasterOffList(w, v, i);
    OffListMasters(w, v, i, w.conns[i].params.inputPt);
    if e1 == Success {
      ProducingKeeps(v, cfg, i, q);
    }
  }

  lemma MasterOffList(w: World, r: World, i: nat)
    requires OffList(w, r, i) && MasterInv(w)
    ensures MasterInv(r)
  {
    forall j | j in r.active && Multi(r.conns[j]) ensures HasMaster(r, r.conns[j].params.inputPt) {
      assert HasMaster(w, w.conns[j].params.inputPt);
      var m :| m in w.active && Candidate(w.conns[m], w.conns[j].params.inputPt, true);
      assert m in r.active && Candidate(r.conns[m], w.conns[j].params.inputPt, true);
    }
  }

  lemma UniqueOffList(w: World, r: World, cfg: Config, i: nat)
    requires OffList(w, r, i) && UniqueInv(w, cfg)
    ensures UniqueInv(r, cfg)
  {
  }

  /** Connection i of the request joined the list at its head; to the others no more happened
      than a change of master. */
  ghost predicate Opened(w: World, r: World, i: nat, p: Params) {
    && Ready(w) && Ready(r) && |r.conns| == |w.conns| && i < |w.conns| && i !in w.active && r.active == [i] + w.active
    && (forall k :: k in w.active ==> SameLife(w.conns[k], r.conns[k]))
    && Copied(r.conns[i].params, p)
  }

  /** Opening the ends of slot i, whatever becomes of its session, and admitting it. */
  lemma AdmitOpened(w: World, x: World, i: nat, session: nat, p: Params)
    requires Ready(w) && i < |w.conns| && i !in w.active && Copied(w.conns[i].params, p)
    requires OthersLive(Put(w, i, w.conns[i].(session := session)), x, i)
    ensures Opened(w, Admit(x, i), i, p)
  {
    var w1 := Put(w, i, w.conns[i].(session := session));
    forall k | k in w.active ensures SameLife(w.conns[k], Admit(x, i).conns[k]) {
      assert w1.conns[k] == w.conns[k];
    }
  }

  /** A slot whose configuration data was refused goes back to the pool. */
  lemma ClearedKeeps(w: World, cfg: Config, i: nat)
    requires Sound(w, i) && MasterInv(w) && UniqueInv(w, cfg) && i < |w.conns| && i !in w.active
    requires w.conns[i].consumingUdp.None? && w.conns[i].producingUdp.None?
    ensures var r := Put(w, i, Cleared(w.conns[i], w.now)); Inv(r, cfg) && OffList(w, r, i)
  {
    hide MasterInv, UniqueInv, Balanced, Held;
    var r := Put(w, i, Cleared(w.conns[i], w.now));
    PutSound(w, i, r.conns[i]);
    assert SlotOk(r, i);
    OffListKeeps(w, r, cfg, i);
  }

  /** Slot i, configured for p, may be activated. */
  ghost predicate Activatable(w: World, cfg: Config, i: nat, p: Params, kind: Kind) {
    && i < |w.conns| && Sound(w, i) && MasterInv(w) && UniqueInv(w, cfg) && ConfigWf(cfg, |w.conns|)
    && w.conns[i].consumingUdp.None? && w.conns[i].producingUdp.None?
    && w.conns[i].kind == kind && kind != Explicit
    && Copied(w.conns[i].params, p)
    && Admissible(w, cfg, i, p, kind)
    && (kind == ListenOnly ==> p.producing == Multicast && HasMaster(w, p.inputPt))
  }

  lemma SessionKeeps(w: World, cfg: Config, i: nat, session: nat, p: Params, kind: Kind)
    requires Activatable(w, cfg, i, p, kind)
    ensures var w1 := Put(w, i, w.conns[i].(session := session));
            Activatable(w1, cfg, i, p, kind) && OffList(w, w1, i)
  {
    hide MasterInv, UniqueInv, ConfigWf, Balanced, Held;
    var w1 := Put(w, i, w.conns[i].(session := session));
    PutSound(w, i, w1.conns[i]);
    OffListKeeps(w, w1, cfg, i);
    OffListMasters(w, w1, i, p.inputPt);
  }

  lemma ChannelsActivate(w: World, cfg: Config, i: nat, q: Request, p: Params, kind: Kind)
    requires Activatable(w, cfg, i, p, kind)
    ensures var (x, e) := OpenChannels(w, cfg, i, q);
            && (e == Success ==> Inv(Admit(x, i), cfg) && OthersLive(w, x, i))
            && (e != Success ==> Inv(Abandon(x, i), cfg) && OffList(w, Abandon(x, i), i))
  {
    hide MasterInv, UniqueInv, OpenChannels, ConfigWf, Balanced, Held, Abandon, Admit, SlotOk;
    ChannelsKeep(w, cfg, i, q);
    var (x, e) := OpenChannels(w, cfg, i, q);
    if e != Success {
      AbandonKeeps(x, i);
      OffListKeeps(w, Abandon(x, i), cfg, i);
    } else {
      AdmitSound(x, i);
      AdmitUnique(w, x, cfg, i, p, kind);
    }
  }

  lemma ActivateKeeps(w: World, cfg: Config, i: nat, q: Request, p: Params, kind: Kind)
    requires Activatable(w, cfg, i, p, kind)
    ensures var (r, e) := Activate(w, cfg, i, q);
            && Inv(r, cfg)
            && (e == Success ==> Opened(w, r, i, p))
            && (e != Success ==> OffList(w, r, i))
  {
    hide MasterInv, UniqueInv, OpenChannels, ConfigWf, Balanced, Held, Opened, Abandon, Cleared, OthersLive, Admissible, SlotOk, HasMaster;
    if w.conns[i].params.hasConfig && w.conns[i].params.hasConfigData && q.configResult != Success {
      ClearedKeeps(w, cfg, i);
    } else {
      var w1 := Put(w, i, w.conns[i].(session := q.session));
      SessionKeeps(w, cfg, i, q.session, p, kind);
      ChannelsActivate(w1, cfg, i, q, p, kind);
      var (x, e) := OpenChannels(w1, cfg, i, q);
      if e == Success { AdmitOpened(w, x, i, q.session, p); }
    }
  }

  /** Everything the invariants look at stays. */
  predicate Harmless(c: Conn, d: Conn) {
    d.params == c.params && d.state == c.state && d.kind == c.kind
    && d.consumingUdp == c.consumingUdp && d.producingUdp == c.producingUdp
  }

  lemma HarmlessMaster(w: World, i: nat, c: Conn)
    requires Ready(w) && MasterInv(w) && i < |w.conns| && Harmless(w.conns[i], c)
    ensures MasterInv(Put(w, i, c))
  {
    var r := Put(w, i, c);
    forall j | j in r.active && Multi(r.conns[j]) ensures HasMaster(r, r.conns[j].params.inputPt) {
      var p := w.conns[j].params.inputPt;
      assert HasMaster(w, p);
      var m :| m in w.active && Candidate(w.conns[m], p, true);
      assert m in r.active && Candidate(r.conns[m], p, true);
    }
    forall j, k | j in r.active && k in r.active && j != k ensures PairOk(r.conns[j], r.conns[k]) {
      assert PairOk(w.conns[j], w.conns[k]);
    }
  }

  lemma HarmlessSound(w: World, i: nat, c: Conn, x: nat)
    requires Sound(w, x) && i < |w.conns| && Harmless(w.conns[i], c)
    ensures Sound(Put(w, i, c), x)
  {
    hide Balanced, Held;
    var r := Put(w, i, c);
    HeldSame(w.conns, i, c);
    forall k | 0 <= k < |r.conns| && k != x ensures SlotOk(r, k) {
      assert SlotOk(w, k);
    }
  }

  /** Timers, counters, addresses and the opener do not matter to the invariants. */
  lemma HarmlessKeeps(w: World, cfg: Config, i: nat, c: Conn)
    requires Inv(w, cfg) && i < |w.conns| && Harmless(w.conns[i], c)
    ensures Inv(Put(w, i, c), cfg)
  {
    hide Balanced, Held, MasterInv;
    var r := Put(w, i, c);
    HarmlessSound(w, i, c, |w.conns|);
    HarmlessMaster(w, i, c);
    forall j, k | j in r.active && k in r.active && j != k ensures Distinct(r.conns[j], r.conns[k]) {
      assert Distinct(w.conns[j], w.conns[k]);
    }
  }

  /** A class 3 request is resolved to the message router, or refused. */
  predicate Resolved(q: Request) {
    TransportClass(q.params.transport) == 3 && !q.toMessageRouter ==> q.checks != Success
  }

  /** The slot that was chosen, marked and configured. */
  function Prepared(w: World, cfg: Config, q: Params, i: nat, kind: Kind): World
    requires i < |w.conns|
  {
    Configure(Put(w, i, if kind == ExclusiveOwner then w.conns[i] else w.conns[i].(state := Configuring)), cfg, i, q, kind)
  }

  lemma PreparedActivatable(w: World, cfg: Config, q: Params, i: nat, kind: Kind)
    requires Inv(w, cfg) && ConfigWf(cfg, |w.conns|) && TransportClass(q.transport) != 3
    requires forall k :: k in w.active ==> w.conns[k].params.triad != q.triad
    requires PickIo(w, cfg, q) == Found(i, kind)
    ensures var v := Prepared(w, cfg, q, i, kind); Activatable(v, cfg, i, q, kind) && OffList(w, v, i)
  {
    hide Balanced, Held, MasterInv, UniqueInv, Configure, PickIo;
    PickIsFree(w, cfg, q);
    var c := w.conns[i];
    var w1 := Put(w, i, if kind == ExclusiveOwner then c else c.(state := Configuring));
    assert SlotOk(w, i);
    assert Sound(w, i);
    PutSound(w, i, w1.conns[i]);
    var v := Configure(w1, cfg, i, q, kind);
    ConfigureMidway(w1, cfg, i, q, kind);
    OffListKeeps(w, v, cfg, i);
    OffListMasters(w, v, i, q.inputPt);
    assert Admissible(v, cfg, i, q, kind) by {
      if kind == ExclusiveOwner {
        forall k | k in w.active ensures w.conns[k].params.outputPt != q.outputPt {
          assert SlotOk(w, k);
        }
      }
    }
  }

  lemma OpenIoKeeps(w: World, cfg: Config, q: Request)
    requires Inv(w, cfg) && ConfigWf(cfg, |w.conns|) && TransportClass(q.params.transport) != 3
    requires forall k :: k in w.active ==> w.conns[k].params.triad != q.params.triad
    ensures var (r, e) := OpenIo(w, cfg, q);
            && Inv(r, cfg)
            && (e != Success ==> r.active == w.active && forall k :: k in w.active ==> r.conns[k] == w.conns[k])
            && (e == Success ==> r.active != [] && Opened(w, r, r.active[0], q.params) && r.conns[r.active[0]].opener == q.peer)
  {
    hide Balanced, Held, MasterInv, UniqueInv, Activate, Configure, PickIo, SlotOk, Activatable;
    match PickIo(w, cfg, q.params)
    case Refused(e) =>
    case Found(i, kind) =>
      PreparedActivatable(w, cfg, q.params, i, kind);
      var v := Prepared(w, cfg, q.params, i, kind);
      ActivateKeeps(v, cfg, i, q, q.params, kind);
      var (x, e) := Activate(v, cfg, i, q);
      if e == Success {
        HarmlessKeeps(x, cfg, i, x.conns[i].(opener := q.peer));
      }
  }

  /** Configuring a slot whose state Alloc has already set. */
  lemma ConfigureMidway(w: World, cfg: Config, i: nat, q: Params, kind: Kind)
    requires Sound(w, i) && i < |w.conns| && w.conns[i].consumingUdp.None? && w.conns[i].producingUdp.None?
    ensures var r := Configure(w, cfg, i, q, kind);
            Sound(r, i) && OffList(w, r, i)
            && r.conns[i].consumingUdp.None? && r.conns[i].producingUdp.None?
            && r.conns[i].kind == kind
            && Copied(r.conns[i].params, q)
  {
    hide Balanced, Held;
    var r := Configure(w, cfg, i, q, kind);
    PutSound(w, i, r.conns[i]);
    var p := Put(w, i, r.conns[i]);
    assert r == p.(lastId := r.lastId);
    forall k | 0 <= k < |r.conns| && k != i ensures SlotOk(r, k) {
      assert SlotOk(p, k);
    }
  }

  lemma OpenExplicitKeeps(w: World, cfg: Config, q: Request)
    requires Inv(w, cfg) && ConfigWf(cfg, |w.conns|)
    requires forall k :: k in w.active ==> w.conns[k].params.triad != q.params.triad
    ensures var (r, e) := OpenExplicit(w, cfg, q);
            && Inv(r, cfg)
            && (e != Success ==> r == w)
            && (e == Success ==> r.active != [] && Opened(w, r, r.active[0], q.params) && r.conns[r.active[0]].opener == q.peer)
  {
    hide Balanced, Held, Configure;
    match FirstFree(w.conns, cfg.explicits)
    case None =>
    case Some(i) =>
      assert SlotOk(w, i);
      assert Sound(w, i);
      ConfigureMidway(w, cfg, i, q.params, Explicit);
      var v := Configure(w, cfg, i, q.params, Explicit);
      var x := Put(v, i, v.conns[i].(opener := q.peer, session := q.session));
      PutSound(v, i, x.conns[i]);
      OffListKeeps(w, x, cfg, i);
      AdmitSound(x, i);
      NonProducerMaster(x, x, i);
      AdmitUnique(x, x, cfg, i, q.params, Explicit);
      var (r, e) := OpenExplicit(w, cfg, q);
      assert r == Admit(x, i);
  }

  /** The request with its intervals cut down to whole ticks. */
  function Adjusted(p: Params): Params {
    var o2t, t2o := Faster(p.consumingRpi), Faster(p.producingRpi);
    if o2t.None? || t2o.None? then p else p.(consumingRpi := o2t.value, producingRpi := t2o.value)
  }

  /** A triad that is not found is nobody's. */
  lemma NoneHasTriad(w: World, cfg: Config, t: Triad)
    requires Inv(w, cfg) && FindTriad(w.conns, w.active, t).None?
    ensures forall k :: k in w.active ==> w.conns[k].params.triad != t
  {
    hide Balanced, Held, MasterInv, UniqueInv;
    forall k | k in w.active ensures w.conns[k].params.triad != t {
      assert SlotOk(w, k);
    }
  }

  /** A forward open that refuses on sight changes nothing; any other is an OpenIo or an
      OpenExplicit of the adjusted request, for a triad that nobody has. */
  lemma ForwardOpenTaken(w: World, cfg: Config, q: Request)
    requires Inv(w, cfg) && ConfigFits(cfg, |w.conns|) && Resolved(q)
    ensures var (r, e) := ForwardOpen(w, cfg, q);
            var q1 := q.(params := Adjusted(q.params));
            || (r == w && e != Success)
            || (&& (forall k :: k in w.active ==> w.conns[k].params.triad != q1.params.triad)
                && if q.toMessageRouter then (r, e) == OpenExplicit(w, cfg, q1)
                   else (r, e) == OpenIo(w, cfg, q1) && TransportClass(q1.params.transport) != 3)
  {
    hide SlotOk, MasterInv, UniqueInv, Balanced, Held, OpenIo, OpenExplicit, FindTriad, Faster, UndocumentedTrigger, TransportClass;
    if FindTriad(w.conns, w.active, q.params.triad).None? {
      NoneHasTriad(w, cfg, q.params.triad);
    }
  }

  /** A forward open keeps the invariants. If it fails, the list and every listed connection
      are as before; if it succeeds, one connection was added at the head of the list, with the
      parameters asked for, and the others live on. */
  lemma ForwardOpenKeeps(w: World, cfg: Config, q: Request)
    requires Inv(w, cfg) && ConfigWf(cfg, |w.conns|) && Resolved(q)
    ensures var (r, e) := ForwardOpen(w, cfg, q);
            && Inv(r, cfg)
            && (e != Success ==> r.active == w.active && forall k :: k in w.active ==> r.conns[k] == w.conns[k])
            && (e == Success ==> r.active != [] && Opened(w, r, r.active[0], Adjusted(q.params)) && r.conns[r.active[0]].opener == q.peer)
  {
    hide SlotOk, MasterInv, UniqueInv, Balanced, Held, Opened, ConfigWf, ForwardOpen, OpenIo, OpenExplicit, Adjusted, TransportClass;
    ConfigWfFits(cfg, |w.conns|);
    ForwardOpenTaken(w, cfg, q);
    var (r, e) := ForwardOpen(w, cfg, q);
    if r != w || e == Success {
      var q1 := q.(params := Adjusted(q.params));
      if q.toMessageRouter {
        OpenExplicitKeeps(w, cfg, q1);
      } else {
        OpenIoKeeps(w, cfg, q1);
      }
    }
  }

  lemma ConfigWfFits(cfg: Config, n: nat)
    requires ConfigWf(cfg, n)
    ensures ConfigFits(cfg, n)
  {
  }
}
