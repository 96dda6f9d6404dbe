/** What single requests achieve, in the terms of the one who makes them: what a close undoes,
    which requests are refused and why, how intervals and timers come out, and that a frame
    counts once. */
module ConnEffects {
  import opened Words
  import opened SocketSpec
  import opened SocketInv
  import opened ConnSpec
  import opened ConnInv
  import opened ConnOpen
  import opened ConnRuns

  // ----- Closing what was just opened

  /** In a state just after i was opened, listeners of i's point still have another master to
      listen to when i is gone. */
  lemma ListenersHaveOther(w: World, r: World, i: nat, p: Params, j: nat)
    requires MasterInvReady(w) && MasterInvReady(r) && Opened(w, r, i, p) && j in w.active
    requires Matches(r.conns[j], r.conns[i].params.inputPt, ListenOnly)
    requires Candidate(r.conns[i], r.conns[i].params.inputPt, true)
    ensures exists m :: m in r.active && Candidate(r.conns[m], r.conns[i].params.inputPt, false)
  {
    var pt := r.conns[i].params.inputPt;
    assert SameLife(w.conns[j], r.conns[j]);
    assert MemberOk(w.conns[j]);
    assert HasMaster(w, w.conns[j].params.inputPt);
    var m :| m in w.active && Candidate(w.conns[m], pt, true);
    assert SameLife(w.conns[m], r.conns[m]) && m in r.active && i in r.active;
    assert PairOk(r.conns[i], r.conns[m]);
    assert Candidate(r.conns[m], pt, false);
  }

  ghost predicate MasterInvReady(w: World) { Ready(w) && MasterInv(w) }

  /** No connection matches, so closing by type does nothing. */
  lemma {:induction false} NothingToClose(w: World, s: seq<nat>, p: int, t: Kind)
    requires Ready(w) && InRange(s, |w.conns|) && forall k :: k in s ==> !Matches(w.conns[k], p, t)
    ensures CloseEach(w, s, p, t) == w
    decreases |s|
  {
    if s != [] {
      NothingToClose(w, s[1..], p, t);
    }
  }

  /** With no candidate to take over from the connection just opened, nobody listens to it. */
  lemma NoListenersLeft(w: World, r: World, i: nat, p: Params, cfg: Config)
    requires Inv(w, cfg) && Inv(r, cfg) && Opened(w, r, i, p)
    requires Candidate(r.conns[i], r.conns[i].params.inputPt, true)
    requires FirstCandidate(r.conns, r.active, r.conns[i].params.inputPt, false).None?
    ensures CloseEach(r, r.active, r.conns[i].params.inputPt, ListenOnly) == r
  {
    hide Balanced, Held, MasterInv, UniqueInv, FirstCandidate, CloseEach, SameLife, Copied;
    var pt := r.conns[i].params.inputPt;
    assert i in r.active && SlotOk(r, i);
    forall k | k in r.active ensures !Matches(r.conns[k], pt, ListenOnly) {
      if Matches(r.conns[k], pt, ListenOnly) && k != i {
        ListenersHaveOther(w, r, i, p, k);
      }
    }
    NothingToClose(r, r.active, pt, ListenOnly);
  }

  /** Closing a connection right after it was opened takes it, and nothing else, off the list
      again: no listener is lost, even if the connection had become the master. */
  lemma CloseUndoesOpen(w: World, r: World, i: nat, p: Params, cfg: Config)
    requires Inv(w, cfg) && Inv(r, cfg) && Opened(w, r, i, p)
    ensures Close(r, i).active == w.active
  {
    hide Balanced, Held, MasterInv, UniqueInv, SameLife, Copied, Shut, FirstCandidate, CloseEach;
    var c := r.conns[i];
    var pt := c.params.inputPt;
    assert i in r.active && SlotOk(r, i);
    WithoutHead(r.active, i);
    assert Without(r.active, i) == w.active;
    if MasterKind(c.kind) && c.params.producing == Multicast && c.producingUdp.Some? {
      if FirstCandidate(r.conns, r.active, pt, false).None? {
        NoListenersLeft(w, r, i, p, cfg);
        ShutList(r, i);
      } else {
        ShutList(HandOver(r, i, FirstCandidate(r.conns, r.active, pt, false).value), i);
      }
    } else {
      ShutList(r, i);
    }
  }

  lemma ShutList(w: World, i: nat)
    requires Ready(w) && i < |w.conns|
    ensures Shut(w, i).active == Without(w.active, i)
  {
  }

  /** A forward open and the forward close of the same connection by the same peer: the close
      succeeds and the list is as it was. */
  lemma OpenThenClose(w: World, cfg: Config, q: Request)
    requires Inv(w, cfg) && ConfigWf(cfg, |w.conns|) && Resolved(q)
    ensures var (r, e) := ForwardOpen(w, cfg, q);
            e == Success ==>
              var (z, f) := ForwardClose(r, q.params.triad, q.peer);
              f == Success && z.active == w.active && Inv(z, cfg)
  {
    hide Balanced, Held, MasterInv, UniqueInv, ForwardOpen, Close, Faster;
    ForwardOpenKeeps(w, cfg, q);
    var (r, e) := ForwardOpen(w, cfg, q);
    if e == Success {
      var i := r.active[0];
      assert i in r.active && SlotOk(r, i);
      assert FindTriad(r.conns, r.active, q.params.triad) == Some(i);
      CloseUndoesOpen(w, r, i, Adjusted(q.params), cfg);
      CloseKeepsInv(r, cfg, i);
    }
  }

  // ----- Refusals

  /** The transport byte has the class in its low four bits, the trigger in the next three and the
      direction on top; beyond class 3 and trigger 3 it is undocumented. */
  lemma TriggerFields(server: bool, trigger: nat, class_: nat)
    requires trigger < 8 && class_ < 16
    ensures var b := (if server then 128 else 0) + 16 * trigger + class_;
            TransportClass(b) == class_ && IsServer(b) == server && (UndocumentedTrigger(b) <==> class_ > 3 || trigger > 3)
  {
  }

  /** What a forward open is refused for before its path counts, by the code it gets. */
  predicate Faulty(w: World, q: Request, e: Ext)
    requires Ready(w)
  {
    var p := q.params;
    match e
    case ConnectionInUse => exists k :: k in w.active && w.conns[k].params.triad == p.triad
    case MultiplierNotAcceptable => p.multiplier > 7
    case InvalidConsumingType => p.consuming == InvalidCast
    case InvalidProducingType => p.producing == InvalidCast
    case TriggerNotSupported => UndocumentedTrigger(p.transport)
    case RpiNotSupported => 0 < p.consumingRpi < TICK_USECS || 0 < p.producingRpi < TICK_USECS
    case _ => false
  }

  /** The order in which the faults are looked for. */
  const FAULTS := [ConnectionInUse, MultiplierNotAcceptable, InvalidConsumingType, InvalidProducingType,
                   TriggerNotSupported, RpiNotSupported]

  predicate FaultlessUpTo(w: World, q: Request, n: nat)
    requires Ready(w) && n <= |FAULTS|
  {
    forall k :: 0 <= k < n ==> !Faulty(w, q, FAULTS[k])
  }

  /** Any forward open with a fault is refused with the code of its first one, and changes
      nothing; one without gets the code of its path, if that is bad; and only one without
      fault and with a good path is accepted. */
  lemma OpenRefusals(w: World, cfg: Config, q: Request)
    requires Inv(w, cfg) && ConfigWf(cfg, |w.conns|)
    ensures var (r, e) := ForwardOpen(w, cfg, q);
            && (forall k :: 0 <= k < |FAULTS| && FaultlessUpTo(w, q, k) && Faulty(w, q, FAULTS[k]) ==> (r, e) == (w, FAULTS[k]))
            && (FaultlessUpTo(w, q, |FAULTS|) && q.checks != Success ==> (r, e) == (w, q.checks))
            && (e == Success ==> FaultlessUpTo(w, q, |FAULTS|) && q.checks == Success)
  {
    hide Balanced, Held, MasterInv, UniqueInv, OpenIo, OpenExplicit, UndocumentedTrigger, FaultlessUpTo, FindTriad;
    TriadFound(w, cfg, q.params.triad);
    FaultOrder(w, q, 0);
    FaultOrder(w, q, 1);
    FaultOrder(w, q, 2);
    FaultOrder(w, q, 3);
    FaultOrder(w, q, 4);
    FaultOrder(w, q, 5);
  }

  lemma TriadFound(w: World, cfg: Config, t: Triad)
    requires Inv(w, cfg)
    ensures FindTriad(w.conns, w.active, t).Some? <==> exists k :: k in w.active && w.conns[k].params.triad == t
  {
    hide Balanced, Held, MasterInv, UniqueInv;
    if k :| k in w.active && w.conns[k].params.triad == t {
      assert SlotOk(w, k);
    }
  }

  /** Being free of the first faults, one by one. */
  lemma FaultOrder(w: World, q: Request, n: nat)
    requires Ready(w) && n < |FAULTS|
    ensures FaultlessUpTo(w, q, 0)
    ensures FaultlessUpTo(w, q, n + 1) <==> FaultlessUpTo(w, q, n) && !Faulty(w, q, FAULTS[n])
  {
    hide Faulty;
  }

  /** A close is refused exactly when no such connection is open, or it is another peer's. */
  lemma CloseRefusals(w: World, cfg: Config, t: Triad, peer: nat)
    requires Inv(w, cfg)
    ensures var (r, e) := ForwardClose(w, t, peer);
            && (e == NotFound <==> forall k :: k in w.active ==> w.conns[k].params.triad != t)
            && (e == Success <==> exists k :: k in w.active && w.conns[k].params.triad == t && w.conns[k].opener == peer)
            && (e != Success ==> r == w)
  {
    hide Balanced, Held, MasterInv, Close;
    forall k | k in w.active ensures w.conns[k].state == Established {
      assert SlotOk(w, k);
    }
    match FindTriad(w.conns, w.active, t)
    case None =>
    case Some(i) =>
      forall k | k in w.active && k != i ensures w.conns[k].params.triad != t {
        assert Distinct(w.conns[k], w.conns[i]);
      }
  }

  predicate OutputFits(e: Expectation, q: Params) { e.output == q.outputPt }
  predicate InputFits(e: Expectation, q: Params) { e.output == q.outputPt && e.input == q.inputPt }
  predicate AllFit(e: Expectation, q: Params) { InputFits(e, q) && e.config == q.configPt }

  /** The answer of an expectation set by how far the best match goes: the error names the
      first path nothing registered agrees with. */
  lemma {:induction false} PickIsBestMatch(w: World, es: seq<Expectation>, q: Params, kind: Kind, o: bool, n: bool)
    requires Ready(w) && SlotsInRange(es, |w.conns|) && (n ==> o)
    ensures var r := PickFromSets(w, es, q, kind, o, n);
            var all := exists k :: 0 <= k < |es| && AllFit(es[k], q);
            var input := exists k :: 0 <= k < |es| && InputFits(es[k], q);
            var output := exists k :: 0 <= k < |es| && OutputFits(es[k], q);
            && (all ==> r.Found? || r == Refused(OutOfConnections) || (kind == ListenOnly && r == Refused(NonListenOnlyNotOpened)))
            && (!all && (input || n) ==> r == Refused(InconsistentPathCombo))
            && (!all && !input && !n && (output || o) ==> r == Refused(InvalidProducingPath))
            && (!all && !output && !o ==> r == NoMatch)
  {
    hide FirstCandidate, FirstFree;
    if es != [] {
      var e := es[0];
      var o1, n1 := o || OutputFits(e, q), n || InputFits(e, q);
      PickIsBestMatch(w, es[1..], q, kind, o1, n1);
      assert es == [e] + es[1..];
      AnyFits(es, q);
    }
  }

  /** Something among the expectations fits when the first one or something after it does. */
  lemma AnyFits(es: seq<Expectation>, q: Params)
    requires es != []
    ensures (exists k :: 0 <= k < |es| && AllFit(es[k], q)) <==> AllFit(es[0], q) || exists k :: 0 <= k < |es[1..]| && AllFit(es[1..][k], q)
    ensures (exists k :: 0 <= k < |es| && InputFits(es[k], q)) <==> InputFits(es[0], q) || exists k :: 0 <= k < |es[1..]| && InputFits(es[1..][k], q)
    ensures (exists k :: 0 <= k < |es| && OutputFits(es[k], q)) <==> OutputFits(es[0], q) || exists k :: 0 <= k < |es[1..]| && OutputFits(es[1..][k], q)
  {
    forall k | 1 <= k < |es| ensures es[k] == es[1..][k - 1] {}
    forall k | 0 <= k < |es[1..]| ensures es[1..][k] == es[k + 1] {}
  }

  // ----- Intervals, timers, ids

  /** An interval is granted in whole ticks, the next faster ones; only an interval shorter than
      a tick cannot be. */
  lemma GrantedInterval(rpi: nat)
    ensures Faster(rpi).None? <==> 0 < rpi < TICK_USECS
    ensures var g := Faster(rpi); g.Some? ==> g.value % TICK_USECS == 0 && g.value <= rpi < g.value + TICK_USECS
  {
  }

  /** The interval the watchdog is measured in is the least number of whole ticks that covers the
      one asked for. */
  lemma RateCovers(rpi: nat)
    requires rpi <= TWO32 - TICK_USECS
    ensures RoundUpToTick(rpi) % TICK_USECS == 0 && rpi <= RoundUpToTick(rpi) < rpi + TICK_USECS
  {
  }

  /** How long a new connection may be silent, and which ones are watched at all. */
  lemma FirstDeadline(b: Conn, q: Params, kind: Kind, start: nat, t: nat)
    requires q.consumingRpi > 0 && q.consumingRpi % TICK_USECS == 0 && start <= t
    requires q.consumingRpi * Pow2(2 + q.multiplier) < TWO31
    ensures var c := Arm(b, q, kind, U32(start)).(state := Established);
            var product := q.consumingRpi * Pow2(2 + q.multiplier);
            var deadline := start + if product < 10000000 then 10000000 else product;
            if q.hasConsumer || IsServer(q.transport) then t < deadline + TWO31 ==> (Expired(c, U32(t)) <==> t >= deadline)
            else !Expired(c, U32(t))
  {
    hide Diff32, Pow2, U32;
    var c := Arm(b, q, kind, U32(start));
    var product := q.consumingRpi * Pow2(2 + q.multiplier);
    var long := if product < 10000000 then 10000000 else product;
    ArmedRate(b, q, kind, U32(start));
    RateOnly(c, c.(watchdog := b.watchdog));
    assert product > 0;
    WrapPlus(start, long);
    if t < start + long + TWO31 { Diff32IsTrueDifference(start + long, t); }
  }

  /** Right after a request was configured: data are due at once on a client connection, and the
      watchdog has the greater of ten seconds and the timeout asked for left to run. */
  lemma ConfiguredTimers(w: World, cfg: Config, i: nat, q: Params, kind: Kind)
    requires i < |w.conns| && w.now < TWO32
    ensures var c := Configure(w, cfg, i, q, kind).conns[i];
            var t := Timeout(c);
            && (q.consumingRpi % TICK_USECS == 0 ==> t == q.consumingRpi * Pow2(2 + q.multiplier))
            && (!IsServer(q.transport) ==> Diff32(c.trigger, w.now) == 0)
            && (IsServer(q.transport) ==> c.trigger == w.conns[i].trigger)
            && (0 < t < TWO31 ==> Diff32(c.watchdog, w.now) == if t < 10000000 then 10000000 else t)
            && c.eipFirst && c.eipProducing == 0 && c.seqProducing == 0 && c.seqConsuming == 0
  {
    hide Arm, SelectIds, Diff32, Timeout;
    var c := Configure(w, cfg, i, q, kind).conns[i];
    KeepsTimers(cfg, w.lastId, q);
    ArmedTimers(w.conns[i], SelectIds(cfg, w.lastId, q).0, kind, w.now);
    assert c == Arm(w.conns[i], SelectIds(cfg, w.lastId, q).0, kind, w.now);
  }

  lemma ArmedTimers(b: Conn, q: Params, kind: Kind, now: nat)
    requires now < TWO32
    ensures var c := Arm(b, q, kind, now);
            var t := Timeout(c);
            && (q.consumingRpi % TICK_USECS == 0 ==> t == q.consumingRpi * Pow2(2 + q.multiplier))
            && (!IsServer(q.transport) ==> Diff32(c.trigger, now) == 0)
            && (IsServer(q.transport) ==> c.trigger == b.trigger)
            && (0 < t < TWO31 ==> Diff32(c.watchdog, now) == if t < 10000000 then 10000000 else t)
            && c.eipFirst && c.eipProducing == 0 && c.seqProducing == 0 && c.seqConsuming == 0
  {
    hide Diff32, Timeout, RxTimeout, U32;
    var c := Arm(b, q, kind, now);
    var t := Timeout(c);
    ArmedRate(b, q, kind, now);
    RateOnly(c, c.(watchdog := b.watchdog));
    FitsWord(now);
    if t < TWO31 { Diff32IsTrueDifference(now + (if t < 10000000 then 10000000 else t), now); }
    Diff32IsTrueDifference(now, now);
  }

  lemma FitsWord(x: nat)
    requires x < TWO32
    ensures U32(x) == x
  {
  }

  lemma ArmedRate(b: Conn, q: Params, kind: Kind, now: nat)
    ensures q.consumingRpi % TICK_USECS == 0 ==> Timeout(Arm(b, q, kind, now)) == q.consumingRpi * Pow2(2 + q.multiplier)
  {
    hide Pow2, RxTimeout, U32;
  }

  lemma KeepsTimers(cfg: Config, lastId: nat, q: Params)
    ensures var p := SelectIds(cfg, lastId, q).0;
            p.transport == q.transport && p.consumingRpi == q.consumingRpi && p.multiplier == q.multiplier
  {
  }

  /** The timeout depends on rate and multiplier alone, and is not cut when it fits 32 bits. */
  lemma RateOnly(c: Conn, d: Conn)
    requires c.rate == d.rate && c.params.multiplier == d.params.multiplier
    ensures Timeout(c) == Timeout(d) && RxTimeout(c) == RxTimeout(d)
    ensures Timeout(c) < TWO32 ==> RxTimeout(c) == Timeout(c)
  {
    hide Pow2;
  }

  /** This end chooses the consuming id of a point to point connection and the producing id of a
      multicast one, two different ids if both, and leaves the originator's choice alone
      otherwise. */
  lemma ChosenIds(cfg: Config, lastId: nat, q: Params)
    requires lastId < TWO16
    ensures var (p, id) := SelectIds(cfg, lastId, q);
            && p == q.(consumingCid := p.consumingCid, producingCid := p.producingCid)
            && (q.consuming != PointToPoint ==> p.consumingCid == q.consumingCid)
            && (q.producing != Multicast ==> p.producingCid == q.producingCid)
            && (q.consuming == PointToPoint ==> p.consumingCid / TWO16 == cfg.incarnation && p.consumingCid % TWO16 == (lastId + 1) % TWO16)
            && (q.producing == Multicast ==> p.producingCid / TWO16 == cfg.incarnation && p.producingCid % TWO16 == id)
            && (q.consuming == PointToPoint && q.producing == Multicast ==> p.consumingCid != p.producingCid)
            && id < TWO16
  {
  }

  // ----- Received frames

  /** A frame counts once: receiving it again at the same time changes nothing. */
  lemma FrameCountsOnce(w: World, cid: nat, from: nat, seqNum: nat, count: nat)
    requires Ready(w) && seqNum < TWO32
    ensures var r := Receive(w, cid, from, seqNum, count);
            Receive(r, cid, from, seqNum, count) == r
  {
    hide FindConsumer, RxTimeout;
    var r := Receive(w, cid, from, seqNum, count);
    match FindConsumer(w.conns, w.active, cid)
    case None =>
    case Some(i) =>
      SameConsumer(w.conns, w.active, cid, i, r.conns[i]);
      assert w.conns[i := w.conns[i]] == w.conns;
      Diff32IsTrueDifference(seqNum, seqNum);
      assert r.conns[i := r.conns[i]] == r.conns;
  }

  /** The lookup by consuming id does not see what a frame changes. */
  lemma {:induction false} SameConsumer(cs: seq<Conn>, s: seq<nat>, cid: nat, i: nat, c: Conn)
    requires InRange(s, |cs|) && i < |cs| && c.state == cs[i].state && c.params == cs[i].params
    ensures FindConsumer(cs[i := c], s, cid) == FindConsumer(cs, s, cid)
  {
    if s != [] {
      SameConsumer(cs, s[1..], cid, i, c);
    }
  }

  /** A frame from anyone but the peer, or for no open connection, changes nothing; a newer one
      from the peer leaves the connection with its whole timeout to run. */
  lemma FrameFeedsWatchdog(w: World, cid: nat, from: nat, seqNum: nat, count: nat)
    requires Ready(w) && w.now < TWO32 && seqNum < TWO32
    ensures var f := FindConsumer(w.conns, w.active, cid);
            var r := Receive(w, cid, from, seqNum, count);
            && (f.None? || from != w.conns[f.value].recvAddr.addr ==> r == w)
            && (f.Some? && from == w.conns[f.value].recvAddr.addr ==>
                  var c, d := w.conns[f.value], r.conns[f.value];
                  && r == Put(w, f.value, d)
                  && if c.eipFirst || Diff32(seqNum, c.eipConsuming) > 0 then
                    var newer := TransportClass(c.params.transport) == 1 && Diff16(count, c.seqConsuming) > 0;
                    && d == c.(eipConsuming := seqNum, eipFirst := false, watchdog := d.watchdog,
                               seqConsuming := if newer then count else c.seqConsuming)
                    && (0 < Timeout(c) < TWO31 ==> Diff32(d.watchdog, w.now) == Timeout(c) && !Expired(d, w.now))
                  else d == c)
  {
    hide FindConsumer, RxTimeout, Timeout, Filter, Diff32, HasWatchdog;
    match FindConsumer(w.conns, w.active, cid)
    case None =>
    case Some(i) =>
      var c := w.conns[i];
      var t := Timeout(c);
      FilterMeaning(c, seqNum);
      RateOnly(c, Filter(c, seqNum).0);
      if 0 < t < TWO31 { Diff32IsTrueDifference(w.now + t, w.now); }
      assert w.conns[i := c] == w.conns;
  }

  /** A connected explicit message from any peer leaves its connection with the whole timeout to
      run, and nothing else changes. */
  lemma MessageFeedsWatchdog(w: World, cid: nat)
    requires Ready(w) && w.now < TWO32
    ensures var f := FindConsumer(w.conns, w.active, cid);
            var r := ReceiveExplicit(w, cid);
            && (f.None? ==> r == w)
            && (f.Some? ==>
                  var c, d := w.conns[f.value], r.conns[f.value];
                  && r == Put(w, f.value, d) && d == c.(watchdog := d.watchdog)
                  && (0 < Timeout(c) < TWO31 ==> Diff32(d.watchdog, w.now) == Timeout(c) && !Expired(d, w.now)))
  {
    hide FindConsumer, RxTimeout, Timeout, Diff32, HasWatchdog;
    match FindConsumer(w.conns, w.active, cid)
    case None =>
    case Some(i) =>
      var c := w.conns[i];
      RateOnly(c, c);
      if Timeout(c) < TWO31 { Diff32IsTrueDifference(w.now + Timeout(c), w.now); }
      FitsWord(w.now);
  }

  /** The filter takes the first frame and any newer one, and then counts from there. */
  lemma FilterMeaning(c: Conn, seqNum: nat)
    requires seqNum < TWO32
    ensures Filter(c, seqNum) == if c.eipFirst || Diff32(seqNum, c.eipConsuming) > 0
                                 then (c.(eipConsuming := seqNum, eipFirst := false), true)
                                 else (c, false)
  {
    Diff32IsTrueDifference(seqNum, seqNum - 1);
  }
}
