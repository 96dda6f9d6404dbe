/** Which connection a forward open gets: the slot that is chosen, when the open succeeds, what
    the new connection then has, and the error otherwise. */
module ConnAccept {
  import opened Words
  import opened SocketSpec
  import opened SocketInv
  import opened ConnSpec
  import opened ConnInv
  import opened ConnOpen
  import opened ConnRuns
  import opened ConnEffects
  import opened ConnStreams

  // ----- The slot

  /** All three paths of the request are those expected, or the owner expects no configuration
      and there is none. */
  predicate OwnerFits(e: Expectation, q: Params) {
    InputFits(e, q) && (e.config == q.configPt || (e.config == -1 && !q.hasConfig))
  }

  /** The first of the owners' expectations that fits decides: its slot is handed out unless the
      output assembly has a consumer already. */
  lemma {:induction false} OwnerPicked(w: World, es: seq<Expectation>, q: Params, k: nat)
    requires Ready(w) && SlotsInRange(es, |w.conns|) && forall j :: 0 <= j < |es| ==> |es[j].slots| == 1
    requires k < |es| && OwnerFits(es[k], q) && forall j :: 0 <= j < k ==> !OwnerFits(es[j], q)
    ensures PickOwner(w, es, q) == if OutputConnected(w.conns, w.active, q.outputPt) then Refused(OwnershipConflict)
                                   else Found(es[k].slots[0], ExclusiveOwner)
  {
    if k > 0 {
      assert !OwnerFits(es[0], q);
      OwnerPicked(w, es[1..], q, k - 1);
    }
  }

  lemma {:induction false} NoOwnerPicked(w: World, es: seq<Expectation>, q: Params)
    requires Ready(w) && SlotsInRange(es, |w.conns|) && forall j :: 0 <= j < |es| ==> |es[j].slots| == 1
    requires forall j :: 0 <= j < |es| ==> !OwnerFits(es[j], q)
    ensures PickOwner(w, es, q) == NoMatch
  {
    if es != [] {
      assert !OwnerFits(es[0], q);
      NoOwnerPicked(w, es[1..], q);
    }
  }

  /** Likewise for the sets: the first expectation that fits decides, and it hands out the first
      slot of its pool that is free. A listener also needs a master. */
  lemma {:induction false} SetPicked(w: World, es: seq<Expectation>, q: Params, kind: Kind, o: bool, n: bool, k: nat)
    requires Ready(w) && SlotsInRange(es, |w.conns|)
    requires k < |es| && AllFit(es[k], q) && forall j :: 0 <= j < k ==> !AllFit(es[j], q)
    ensures PickFromSets(w, es, q, kind, o, n)
         == if kind == ListenOnly && FirstCandidate(w.conns, w.active, q.inputPt, true).None? then Refused(NonListenOnlyNotOpened)
            else match FirstFree(w.conns, es[k].slots)
              case Some(s) => Found(s, kind)
              case None => Refused(OutOfConnections)
  {
    hide FirstCandidate, FirstFree;
    if k > 0 {
      assert !AllFit(es[0], q);
      SetPicked(w, es[1..], q, kind, o || OutputFits(es[0], q), n || InputFits(es[0], q), k - 1);
    }
  }

  lemma {:induction false} FreeSlot(cs: seq<Conn>, slots: seq<nat>, k: nat)
    requires InRange(slots, |cs|) && k < |slots| && cs[slots[k]].state == NonExistent
    requires forall j :: 0 <= j < k ==> cs[slots[j]].state != NonExistent
    ensures FirstFree(cs, slots) == Some(slots[k])
  {
    if k > 0 {
      FreeSlot(cs, slots[1..], k - 1);
    }
  }

  // ----- The ends

  /** The T->O socket address item names a multicast group. */
  predicate NamesGroup(q: Request) {
    q.saii.Some? && q.saii.value.inet && IsMulticast(q.saii.value.addr)
  }

  /** What the consuming end of c is to be. */
  ghost predicate ConsumesAs(w: World, c: Conn, cfg: Config, q: Request) {
    match c.params.consuming
    case Multicast =>
      && q.saii.Some? && c.recvAddr == SockAddr(q.peer, IO_UDP_PORT)
      && c.consumingUdp.Some? && c.consumingUdp.value < |w.udp.recs|
      && w.udp.recs[c.consumingUdp.value].addr == SockAddr(q.saii.value.addr.addr, IO_UDP_PORT)
    case PointToPoint =>
      && c.recvAddr == SockAddr(q.peer, cfg.ioPort)
      && c.consumingUdp.Some? && c.consumingUdp.value < |w.udp.recs|
      && w.udp.recs[c.consumingUdp.value].addr == SockAddr(0, cfg.ioPort)
    case _ => c.consumingUdp.None?
  }

  lemma ConsumingOutcome(w: World, cfg: Config, i: nat, q: Request)
    requires Sound(w, i) && i < |w.conns| && w.conns[i].consumingUdp.None?
    ensures var (r, e) := OpenConsuming(w, cfg, i, q);
            var c := w.conns[i];
            && (c.params.consuming == Multicast && !NamesGroup(q) ==> e == ParameterError)
            && (!(c.params.consuming == Multicast && !NamesGroup(q)) ==>
                  && e in {Success, OutOfConnections}
                  && (q.osIn.handle.Some? && q.osIn.joins ==> e == Success))
            && (e == Success ==> ConsumesAs(r, r.conns[i], cfg, q))
  {
    hide Balanced, Held, Grab;
    var c := w.conns[i];
    var group := if c.params.consuming == Multicast && q.saii.Some? then Some(q.saii.value.addr.(port := IO_UDP_PORT)) else None;
    if c.params.consuming == PointToPoint || (c.params.consuming == Multicast && NamesGroup(q)) {
      GrabOutcome(w.udp, Held(w.conns), if c.params.consuming == Multicast then BASE else SockAddr(0, cfg.ioPort), group, q.osIn);
    }
  }

  lemma {:induction false} EndIsHeld(cs: seq<Conn>, i: nat)
    requires i < |cs|
    ensures forall id :: id in HeldBy(cs[i]) ==> id in Held(cs)
  {
    if i > 0 {
      EndIsHeld(cs[1..], i - 1);
    }
  }

  /** Another grab does not move the consuming end. */
  lemma StillConsumes(w: World, u: Udp, c: Conn, cfg: Config, q: Request, held: multiset<nat>)
    requires ConsumesAs(w, c, cfg, q) && Balanced(w.udp, held) && (c.consumingUdp.Some? ==> c.consumingUdp.value in held)
    requires forall k :: 0 <= k < |w.udp.recs| && k !in w.udp.free ==> k < |u.recs| && u.recs[k].addr == w.udp.recs[k].addr
    ensures ConsumesAs(w.(udp := u), c, cfg, q)
  {
    if c.consumingUdp.Some? {
      HeldIsReleasable(w.udp, held, c.consumingUdp.value);
    }
  }

  /** What the producing end of slot i is to be, w being the state before it is opened. */
  ghost predicate ProducesAs(w: World, r: World, i: nat, cfg: Config, q: Request)
    requires Ready(w) && i < |w.conns| && i < |r.conns|
  {
    var c := r.conns[i];
    match c.params.producing
    case Multicast =>
      && c.sendAddr == SockAddr(cfg.multicastAddr, IO_UDP_PORT)
      && (c.producingUdp.Some? <==> c.kind == ExclusiveOwner || FirstCandidate(w.conns, w.active, c.params.inputPt, true).None?)
    case PointToPoint =>
      && c.sendAddr == SockAddr(q.peer, if q.saii.Some? then q.saii.value.addr.port else IO_UDP_PORT)
      && c.producingUdp.Some? && c.producingUdp.value < |r.udp.recs|
      && r.udp.recs[c.producingUdp.value].addr == SockAddr(0, cfg.ioPort)
    case _ => c.producingUdp.None?
  }

  lemma JoiningOutcome(w: World, cfg: Config, i: nat, m: nat, q: Request)
    requires Ready(w) && i < |w.conns| && w.conns[i].params.producing == Multicast
    requires FirstCandidate(w.conns, w.active, w.conns[i].params.inputPt, true) == Some(m) && m != i
    ensures var r := JoinMaster(w, cfg, i, m);
            && ProducesAs(w, r, i, cfg, q) && r.udp == w.udp && r.conns[i].kind == w.conns[i].kind
            && r.conns[i].consumingUdp == w.conns[i].consumingUdp && r.conns[i].recvAddr == w.conns[i].recvAddr
            && r.conns[i].params.consuming == w.conns[i].params.consuming
  {
    hide FirstCandidate, Ready;
  }

  lemma ProducingOutcome(w: World, cfg: Config, i: nat, q: Request)
    requires Sound(w, i) && i < |w.conns| && w.conns[i].producingUdp.None? && ConsumesAs(w, w.conns[i], cfg, q)
    ensures var (r, e) := OpenProducing(w, cfg, i, q);
            && e in {Success, OutOfConnections}
            && (q.osOut.handle.Some? ==> e == Success)
            && (e == Success ==> ProducesAs(w, r, i, cfg, q) && ConsumesAs(r, r.conns[i], cfg, q))
            && r.conns[i].kind == w.conns[i].kind
  {
    hide Balanced, Held, Grab, FirstCandidate, ConsumesAs, JoinMaster, SlotOk, HeldBy;
    var c := w.conns[i];
    var first := FirstCandidate(w.conns, w.active, c.params.inputPt, true);
    var (r, e) := OpenProducing(w, cfg, i, q);
    if c.params.producing == Multicast && first.Some? {
      JoiningOutcome(w, cfg, i, first.value, q);
      SameConsumes(w, r, c, r.conns[i], cfg, q);
    } else if c.params.producing == Multicast || c.params.producing == PointToPoint {
      var u := Grab(w.udp, SockAddr(0, cfg.ioPort), None, q.osOut).0;
      GrabOutcome(w.udp, Held(w.conns), SockAddr(0, cfg.ioPort), None, q.osOut);
      EndStays(w, u, i, cfg, q);
      SameConsumes(w.(udp := u), r, c, r.conns[i], cfg, q);
    }
  }

  lemma EndStays(w: World, u: Udp, i: nat, cfg: Config, q: Request)
    requires Sound(w, i) && i < |w.conns| && ConsumesAs(w, w.conns[i], cfg, q)
    requires forall k :: 0 <= k < |w.udp.recs| && k !in w.udp.free ==> k < |u.recs| && u.recs[k].addr == w.udp.recs[k].addr
    ensures ConsumesAs(w.(udp := u), w.conns[i], cfg, q)
  {
    hide Balanced, Held, ConsumesAs;
    EndIsHeld(w.conns, i);
    StillConsumes(w, u, w.conns[i], cfg, q, Held(w.conns));
  }

  lemma SameConsumes(w: World, r: World, c: Conn, d: Conn, cfg: Config, q: Request)
    ensures ConsumesAs(w, c, cfg, q)
            && r.udp == w.udp && d.consumingUdp == c.consumingUdp && d.recvAddr == c.recvAddr
            && d.params.consuming == c.params.consuming
            ==> ConsumesAs(r, d, cfg, q)
  {
  }

  // ----- The open

  predicate ConfigRefused(q: Request) {
    q.params.hasConfig && q.params.hasConfigData && q.configResult != Success
  }

  /** The system makes every socket and joins every group it is asked for. */
  predicate SystemGives(q: Request) {
    q.osIn.handle.Some? && q.osIn.joins && q.osOut.handle.Some?
  }

  /** The code an open in a free slot ends with. */
  predicate EndsWith(q: Request, e: Ext) {
    if ConfigRefused(q) then e == q.configResult
    else if q.params.consuming == Multicast && !NamesGroup(q) then e == ParameterError
    else e in {Success, OutOfConnections} && (SystemGives(q) ==> e == Success)
  }

  /** What connection i is once it is open, w being the state before. */
  ghost predicate OpenAs(w: World, r: World, i: nat, cfg: Config, q: Request, kind: Kind)
    requires Ready(w) && i < |w.conns| && i < |r.conns|
  {
    var c := r.conns[i];
    && r.active == [i] + w.active && c.state == Established && c.kind == kind
    && c.session == q.session && Copied(c.params, q.params)
    && ConsumesAs(r, c, cfg, q) && ProducesAs(w, r, i, cfg, q)
  }

  lemma ChannelsOutcome(w: World, cfg: Config, i: nat, q: Request)
    requires Sound(w, i) && i < |w.conns| && w.conns[i].consumingUdp.None? && w.conns[i].producingUdp.None?
    ensures var (r, e) := OpenChannels(w, cfg, i, q);
            var c := w.conns[i];
            && (c.params.consuming == Multicast && !NamesGroup(q) ==> e == ParameterError)
            && (!(c.params.consuming == Multicast && !NamesGroup(q)) ==>
                  e in {Success, OutOfConnections} && (SystemGives(q) ==> e == Success))
            && (e == Success ==> ConsumesAs(r, r.conns[i], cfg, q) && ProducesAs(w, r, i, cfg, q) && r.conns[i].kind == c.kind)
  {
    hide Balanced, Held, ConsumesAs, OpenConsuming, OpenProducing, FirstCandidate, SlotOk;
    var (v, e) := OpenConsuming(w, cfg, i, q);
    ConsumingOutcome(w, cfg, i, q);
    ConsumingKeeps(w, cfg, i, q);
    if e == Success {
      ProducingOutcome(v, cfg, i, q);
      SameCandidate(w, v, i, OpenProducing(v, cfg, i, q).0.conns[i].params.inputPt);
    }
  }

  lemma SameCandidate(w: World, v: World, i: nat, p: int)
    requires OffList(w, v, i)
    ensures FirstCandidate(v.conns, v.active, p, true) == FirstCandidate(w.conns, w.active, p, true)
  {
    SameCandidateOn(w.conns, v.conns, w.active, i, p);
  }

  lemma {:induction false} SameCandidateOn(cs: seq<Conn>, ds: seq<Conn>, s: seq<nat>, i: nat, p: int)
    requires InRange(s, |cs|) && |ds| == |cs| && i !in s && forall k :: 0 <= k < |cs| && k != i ==> ds[k] == cs[k]
    ensures FirstCandidate(ds, s, p, true) == FirstCandidate(cs, s, p, true)
  {
    if s != [] {
      SameCandidateOn(cs, ds, s[1..], i, p);
    }
  }

  lemma ActivateOutcome(w: World, cfg: Config, i: nat, q: Request, kind: Kind)
    requires Activatable(w, cfg, i, q.params, kind)
    ensures var (r, e) := Activate(w, cfg, i, q);
            EndsWith(q, e) && (e == Success ==> |r.conns| == |w.conns| && OpenAs(w, r, i, cfg, q, kind))
  {
    hide MasterInv, UniqueInv, ConfigWf, Balanced, Held, OpenChannels, Abandon, Cleared, ConsumesAs, Admissible, SlotOk;
    var w1 := Put(w, i, w.conns[i].(session := q.session));
    SessionKeeps(w, cfg, i, q.session, q.params, kind);
    ChannelsOutcome(w1, cfg, i, q);
    ChannelsCalm(w1, cfg, i, q);
    SameCandidate(w, w1, i, q.params.inputPt);
    var (r, e) := Activate(w, cfg, i, q);
    var v := OpenChannels(w1, cfg, i, q).0;
    SameConsumes(v, r, v.conns[i], r.conns[i], cfg, q);
  }

  lemma OpenIoOutcome(w: World, cfg: Config, q: Request, i: nat, kind: Kind)
    requires Inv(w, cfg) && ConfigWf(cfg, |w.conns|) && TransportClass(q.params.transport) != 3
    requires forall k :: k in w.active ==> w.conns[k].params.triad != q.params.triad
    requires PickIo(w, cfg, q.params) == Found(i, kind)
    ensures var (r, e) := OpenIo(w, cfg, q);
            EndsWith(q, e) && (e == Success ==> OpenAs(w, r, i, cfg, q, kind) && r.conns[i].opener == q.peer)
  {
    hide Balanced, Held, MasterInv, UniqueInv, SlotOk, Activate, Configure, PickIo, ConsumesAs, Activatable, EndsWith;
    var v := Prepared(w, cfg, q.params, i, kind);
    PreparedActivatable(w, cfg, q.params, i, kind);
    ActivateOutcome(v, cfg, i, q, kind);
    SameCandidate(w, v, i, q.params.inputPt);
    var x := Activate(v, cfg, i, q).0;
    var r := OpenIo(w, cfg, q).0;
    SameConsumes(x, r, x.conns[i], r.conns[i], cfg, q);
  }

  /** A faultless request with a good path is opened, with its intervals cut to whole ticks. */
  lemma FaultlessIsOpened(w: World, cfg: Config, q: Request)
    requires Inv(w, cfg) && ConfigWf(cfg, |w.conns|) && FaultlessUpTo(w, q, |FAULTS|) && q.checks == Success
    ensures var q1 := q.(params := Adjusted(q.params));
            && ForwardOpen(w, cfg, q) == (if q.toMessageRouter then OpenExplicit(w, cfg, q1) else OpenIo(w, cfg, q1))
            && forall k :: k in w.active ==> w.conns[k].params.triad != q1.params.triad
  {
    hide Balanced, Held, MasterInv, UniqueInv, OpenIo, OpenExplicit, UndocumentedTrigger, FindTriad;
    assert !Faulty(w, q, FAULTS[0]) && !Faulty(w, q, FAULTS[1]) && !Faulty(w, q, FAULTS[2]);
    assert !Faulty(w, q, FAULTS[3]) && !Faulty(w, q, FAULTS[4]) && !Faulty(w, q, FAULTS[5]);
    TriadFound(w, cfg, q.params.triad);
  }

  /** Slot i is the one for this request, as a connection of that kind. */
  ghost predicate Chosen(w: World, cfg: Config, q: Params, i: nat, kind: Kind)
    requires Ready(w) && ConfigFits(cfg, |w.conns|)
  {
    match kind
    case ExclusiveOwner =>
      && !OutputConnected(w.conns, w.active, q.outputPt)
      && exists k: nat :: FirstOwner(cfg.owners, q, k) && i == cfg.owners[k].slots[0]
    case InputOnly =>
      && NoOwner(cfg, q)
      && exists k: nat :: FirstSet(cfg.inputOnlys, q, k) && FirstFree(w.conns, cfg.inputOnlys[k].slots) == Some(i)
    case ListenOnly =>
      && NoOwner(cfg, q) && (forall j :: 0 <= j < |cfg.inputOnlys| ==> !OutputFits(cfg.inputOnlys[j], q))
      && q.producing == Multicast && HasMaster(w, q.inputPt)
      && exists k: nat :: FirstSet(cfg.listeners, q, k) && FirstFree(w.conns, cfg.listeners[k].slots) == Some(i)
    case Explicit => FirstFree(w.conns, cfg.explicits) == Some(i)
  }

  predicate FirstOwner(es: seq<Expectation>, q: Params, k: nat) {
    k < |es| && OwnerFits(es[k], q) && forall j :: 0 <= j < k ==> !OwnerFits(es[j], q)
  }

  predicate FirstSet(es: seq<Expectation>, q: Params, k: nat) {
    k < |es| && AllFit(es[k], q) && forall j :: 0 <= j < k ==> !AllFit(es[j], q)
  }

  predicate NoOwner(cfg: Config, q: Params) {
    forall j :: 0 <= j < |cfg.owners| ==> !OwnerFits(cfg.owners[j], q)
  }

  lemma ChosenIsPicked(w: World, cfg: Config, q: Params, i: nat, kind: Kind)
    requires Ready(w) && ConfigFits(cfg, |w.conns|) && Chosen(w, cfg, q, i, kind) && kind != Explicit
    ensures PickIo(w, cfg, q) == Found(i, kind)
  {
    hide FirstCandidate, FirstFree, PickOwner, PickFromSets, AllFit, OwnerFits;
    match kind {
      case ExclusiveOwner =>
        var k: nat :| FirstOwner(cfg.owners, q, k) && i == cfg.owners[k].slots[0];
        OwnerPicked(w, cfg.owners, q, k);
      case InputOnly =>
        NoOwnerPicked(w, cfg.owners, q);
        var k: nat :| FirstSet(cfg.inputOnlys, q, k) && FirstFree(w.conns, cfg.inputOnlys[k].slots) == Some(i);
        SetPicked(w, cfg.inputOnlys, q, InputOnly, false, false, k);
      case ListenOnly =>
        NoOwnerPicked(w, cfg.owners, q);
        NoSetPicked(w, cfg.inputOnlys, q);
        var k: nat :| FirstSet(cfg.listeners, q, k) && FirstFree(w.conns, cfg.listeners[k].slots) == Some(i);
        SetPicked(w, cfg.listeners, q, ListenOnly, false, false, k);
        MasterFound(w, q.inputPt);
    }
  }

  lemma NoSetPicked(w: World, es: seq<Expectation>, q: Params)
    requires Ready(w) && SlotsInRange(es, |w.conns|) && forall j :: 0 <= j < |es| ==> !OutputFits(es[j], q)
    ensures PickFromSets(w, es, q, InputOnly, false, false) == NoMatch
  {
    PickIsBestMatch(w, es, q, InputOnly, false, false);
  }

  lemma MasterFound(w: World, p: int)
    requires Ready(w) && HasMaster(w, p)
    ensures FirstCandidate(w.conns, w.active, p, true).Some?
  {
    var m :| m in w.active && Candidate(w.conns[m], p, true);
  }

  /** A forward open of an I/O connection without fault, with a good path and a slot for it, ends
      as the configuration data, the socket address item and the system decide; if all of them
      are good it succeeds, with the kind of connection registered for its paths. */
  lemma IoOpenOutcome(w: World, cfg: Config, q: Request, i: nat, kind: Kind)
    requires Inv(w, cfg) && ConfigWf(cfg, |w.conns|) && Resolved(q) && !q.toMessageRouter && kind != Explicit
    requires FaultlessUpTo(w, q, |FAULTS|) && q.checks == Success && Chosen(w, cfg, q.params, i, kind)
    ensures var (r, e) := ForwardOpen(w, cfg, q);
            && i < |w.conns| && i !in w.active && EndsWith(q, e)
            && (e == Success ==> OpenAs(w, r, i, cfg, q.(params := Adjusted(q.params)), kind) && r.conns[i].opener == q.peer)
  {
    hide Balanced, Held, MasterInv, UniqueInv, SlotOk, ForwardOpen, OpenIo, PickIo, Chosen, Faulty, ConsumesAs;
    var q1 := q.(params := Adjusted(q.params));
    FaultlessIsOpened(w, cfg, q);
    AdjustedChosen(w, cfg, q.params, i, kind);
    ChosenIsPicked(w, cfg, q1.params, i, kind);
    PickIsFree(w, cfg, q1.params);
    OpenIoOutcome(w, cfg, q1, i, kind);
  }

  /** The intervals do not matter to the choice. */
  lemma AdjustedChosen(w: World, cfg: Config, q: Params, i: nat, kind: Kind)
    requires Ready(w) && ConfigFits(cfg, |w.conns|) && Chosen(w, cfg, q, i, kind)
    ensures Chosen(w, cfg, Adjusted(q), i, kind)
  {
    hide FirstFree, OutputConnected, Faster;
    var p := Adjusted(q);
    assert forall e :: (OwnerFits(e, p) <==> OwnerFits(e, q)) && (AllFit(e, p) <==> AllFit(e, q)) && (OutputFits(e, p) <==> OutputFits(e, q));
    assert forall es, k: nat :: (FirstOwner(es, p, k) <==> FirstOwner(es, q, k)) && (FirstSet(es, p, k) <==> FirstSet(es, q, k));
  }

  /** If the first owner's expectation that fits is for an output assembly that is consumed
      already, the request is refused as a conflict, whatever else is registered. */
  lemma OwnershipIsExclusive(w: World, cfg: Config, q: Request, k: nat)
    requires Inv(w, cfg) && ConfigWf(cfg, |w.conns|) && Resolved(q) && !q.toMessageRouter
    requires FaultlessUpTo(w, q, |FAULTS|) && q.checks == Success && FirstOwner(cfg.owners, q.params, k)
    ensures (exists j :: j in w.active && w.conns[j].params.outputPt == q.params.outputPt) ==>
              ForwardOpen(w, cfg, q) == (w, OwnershipConflict)
  {
    hide Balanced, Held, MasterInv, UniqueInv, ForwardOpen, Faulty, FirstFree, FirstCandidate, PickFromSets, PickOwner, Faster;
    var q1 := q.(params := Adjusted(q.params));
    FaultlessIsOpened(w, cfg, q);
    if j :| j in w.active && w.conns[j].params.outputPt == q.params.outputPt {
      assert SlotOk(w, j);
      assert forall e :: OwnerFits(e, q1.params) <==> OwnerFits(e, q.params);
      OwnerPicked(w, cfg.owners, q1.params, k);
    }
  }

  /** An explicit connection is opened in the first free slot of its pool, and refused exactly
      when there is none. */
  lemma ExplicitOpenOutcome(w: World, cfg: Config, q: Request)
    requires Inv(w, cfg) && ConfigWf(cfg, |w.conns|) && q.toMessageRouter
    requires FaultlessUpTo(w, q, |FAULTS|) && q.checks == Success
    ensures var (r, e) := ForwardOpen(w, cfg, q);
            match FirstFree(w.conns, cfg.explicits)
            case None => (r, e) == (w, NoMoreConnections)
            case Some(i) =>
              var c := r.conns[i];
              && e == Success && r.active == [i] + w.active && c.state == Established && c.kind == Explicit
              && c.session == q.session && c.opener == q.peer && Copied(c.params, Adjusted(q.params))
  {
    hide Balanced, Held, MasterInv, UniqueInv, ForwardOpen, Faulty, FirstFree, Arm, Adjusted;
    FaultlessIsOpened(w, cfg, q);
    if FirstFree(w.conns, cfg.explicits).Some? {
      var i := FirstFree(w.conns, cfg.explicits).value;
      ConfiguredParams(w, cfg, i, Adjusted(q.params), Explicit);
    }
  }

  lemma ConfiguredParams(w: World, cfg: Config, i: nat, q: Params, kind: Kind)
    requires i < |w.conns|
    ensures var c := Configure(w, cfg, i, q, kind).conns[i]; c.kind == kind && Copied(c.params, q)
  {
    hide RxTimeout, RoundUpToTick;
  }

  /** With no owner and no input-only connection registered for the output assembly a request is
      for a listener, and refused if it does not ask for multicast or none is registered. */
  lemma NothingRegistered(w: World, cfg: Config, q: Params)
    requires Ready(w) && ConfigFits(cfg, |w.conns|) && NoOwner(cfg, q)
    requires forall j :: 0 <= j < |cfg.inputOnlys| ==> !OutputFits(cfg.inputOnlys[j], q)
    ensures q.producing != Multicast ==> PickIo(w, cfg, q) == Refused(NonListenOnlyNotOpened)
    ensures q.producing == Multicast && (forall j :: 0 <= j < |cfg.listeners| ==> !OutputFits(cfg.listeners[j], q)) ==>
              PickIo(w, cfg, q) == Refused(InconsistentPathCombo)
  {
    hide FirstCandidate, FirstFree, PickOwner, PickFromSets, OwnerFits;
    NoOwnerPicked(w, cfg.owners, q);
    NoSetPicked(w, cfg.inputOnlys, q);
    PickIsBestMatch(w, cfg.listeners, q, ListenOnly, false, false);
  }
}
