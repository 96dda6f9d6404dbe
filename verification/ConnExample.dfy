/** A run, step by step, in which a timeout costs an up to date receiver data: two input-only
    connections of one input point, the older of which sends once and then times out. */
module ConnExample {
  import opened Words
  import opened SocketSpec
  import opened SocketInv
  import opened ConnSpec
  import opened ConnInv
  import opened ConnOpen
  import opened ConnRuns
  import opened ConnTheorems
  import opened ConnStreams

  const CFG := Config([], [Expectation(1, 2, 3, [0, 1])], [], [], IO_UDP_PORT, 0xefc0_0120, 7)

  /** Input-only, class 1, cyclic every second; heartbeats are consumed point to point. */
  function Asked(serial: nat): Params {
    Params(Triad(serial, 1, 1), 1, 0, PointToPoint, 1000000, 0, Multicast, 1000000, 0, 1, 2, 3, false, false, true)
  }

  function Asking(serial: nat): Request {
    Request(Asked(serial), false, Success, Success, 5, 0, None, Os(Some(9), true), Os(Some(9), true))
  }

  const STEPS := [Open(Asking(1)), Elapse(20000), Open(Asking(2)), Manage({}), Elapse(9980000)]

  /** One of the two connections, opened at that time and shown its next trigger. */
  function Producer(serial: nat, cid: nat, pid: nat, holding: bool, since: nat, trigger: nat, count: nat): Conn {
    Armed(serial, cid, pid, since).(
      state := Established, consumingUdp := Some(0), producingUdp := if holding then Some(0) else None,
      sendAddr := SockAddr(CFG.multicastAddr, IO_UDP_PORT), recvAddr := SockAddr(5, IO_UDP_PORT), opener := 5,
      trigger := trigger, eipProducing := count)
  }

  /** A slot configured for it, before its ends are opened. */
  function Armed(serial: nat, cid: nat, pid: nat, since: nat): Conn {
    Conn(Asked(serial).(consumingCid := 7 * TWO16 + cid, producingCid := 7 * TWO16 + pid), Configuring, InputOnly,
         None, None, SockAddr(0, 0), SockAddr(0, 0), 0, 0, 1000000, since + 10000000, since, 0, 0, true, 0, 0)
  }

  /** A slot as it is at start-up. */
  function Unused(): Conn { Boot(1, 0).conns[0] }

  /** The one UDP socket everything goes through. */
  function Socket(refs: int): Udp {
    Udp([UdpRec(BASE, 9, refs, None)], [0], [], [])
  }

  function OneOpen(now: nat): World {
    World([Producer(1, 19, 20, true, 0, 0, 0), Unused()], [0], Socket(2), 20, {}, now)
  }

  function BothOpen(trigger: nat, count: nat, now: nat): World {
    World([Producer(1, 19, 20, true, 0, trigger, count), Producer(2, 21, 20, false, 20000, 20000, 0)], [1, 0], Socket(3), 22, {}, now)
  }

  lemma Arming(serial: nat, last: nat, now: nat)
    requires last + 2 < TWO16 && now + 10000000 < TWO32
    ensures SelectIds(CFG, last, Asked(serial)) == (Armed(serial, last + 1, last + 2, now).params, last + 2)
    ensures Arm(Unused().(state := Configuring), Armed(serial, last + 1, last + 2, now).params, InputOnly, now)
         == Armed(serial, last + 1, last + 2, now)
  {
    assert Pow2(2) == 4;
  }

  lemma Configured(w: World, i: nat, serial: nat)
    requires i < |w.conns| && w.conns[i] == Unused() && w.lastId + 2 < TWO16 && w.now + 10000000 < TWO32
    ensures Configure(Put(w, i, w.conns[i].(state := Configuring)), CFG, i, Asked(serial), InputOnly)
         == Put(w, i, Armed(serial, w.lastId + 1, w.lastId + 2, w.now)).(lastId := w.lastId + 2)
  {
    hide Arm, SelectIds, Armed, Asked, Unused;
    var c := Armed(serial, w.lastId + 1, w.lastId + 2, w.now);
    Arming(serial, w.lastId, w.now);
    var w1 := Put(w, i, w.conns[i].(state := Configuring));
    assert w1.conns[i] == Unused().(state := Configuring) && w1.lastId == w.lastId && w1.now == w.now;
    PutAgain(w, i, w.conns[i].(state := Configuring), c);
    assert Configure(w1, CFG, i, Asked(serial), InputOnly) == Put(w1, i, c).(lastId := w.lastId + 2);
  }

  lemma PutAgain(w: World, i: nat, c: Conn, d: Conn)
    requires i < |w.conns|
    ensures Put(Put(w, i, c), i, d) == Put(w, i, d)
  {
    assert w.conns[i := c][i := d] == w.conns[i := d];
  }

  /** The only socket is found, or made if there is none. */
  lemma Grabbed(u: Udp, refs: nat)
    requires Ranged(u) && u == if refs == 0 then Udp([], [], [], []) else Socket(refs)
    ensures Grab(u, BASE, None, Os(Some(9), true)) == (Socket(refs + 1), Some(0))
  {
    if refs != 0 {
      assert FindAddr(u.recs, u.sockets, BASE) == Some(0);
      assert AddRef(u, 0, 1).recs == Socket(refs + 1).recs;
    } else {
      assert FindAddr(u.recs, u.sockets, BASE) == None;
      assert u.recs + [UdpRec(BASE, 9, 1, None)] == Socket(1).recs && u.sockets + [0] == Socket(1).sockets;
    }
  }

  lemma Admitted(w: World, q: Request)
    requires Ready(w) && ConfigFits(CFG, |w.conns|) && q.checks == Success && !q.toMessageRouter
    requires q.params.multiplier == 0 && q.params.consuming == PointToPoint && q.params.producing == Multicast && q.params.transport == 1
    requires q.params.consumingRpi == q.params.producingRpi == 1000000
    requires forall k :: k in w.active ==> w.conns[k].params.triad != q.params.triad
    ensures ForwardOpen(w, CFG, q) == OpenIo(w, CFG, q)
  {
    hide OpenIo;
    assert q.(params := q.params.(consumingRpi := 1000000, producingRpi := 1000000)) == q;
  }

  lemma First()
    ensures ForwardOpen(Boot(2, 0), CFG, Asking(1)) == (OneOpen(0), Success)
  {
    hide Configure, Armed, Grab;
    var w := Boot(2, 0);
    var q := Asking(1);
    Admitted(w, q);
    assert PickIo(w, CFG, q.params) == Found(0, InputOnly) by { FirstPick(); }
    Configured(w, 0, 1);
    var v := Put(w, 0, Armed(1, 19, 20, 0)).(lastId := 20);
    FirstActivated();
  }

  lemma FirstPick()
    ensures PickIo(Boot(2, 0), CFG, Asked(1)) == Found(0, InputOnly)
  {
    assert CFG.inputOnlys[1..] == [];
  }

  lemma SocketRanged(refs: int)
    ensures Ranged(Socket(refs))
  {
  }

  /** The consuming end of slot i is opened. */
  lemma Consuming(w: World, i: nat, serial: nat, refs: nat)
    requires Ready(w) && i < |w.conns| && w.conns[i].params.consuming == PointToPoint
    requires w.udp == if refs == 0 then Udp([], [], [], []) else Socket(refs)
    ensures OpenConsuming(w, CFG, i, Asking(serial))
         == (Put(w, i, w.conns[i].(consumingUdp := Some(0), recvAddr := SockAddr(5, IO_UDP_PORT))).(udp := Socket(refs + 1)), Success)
  {
    hide Grab;
    Grabbed(w.udp, refs);
  }

  function Half(serial: nat, cid: nat, pid: nat, since: nat): Conn {
    Armed(serial, cid, pid, since).(consumingUdp := Some(0), recvAddr := SockAddr(5, IO_UDP_PORT))
  }

  lemma FirstProducing(w: World)
    requires w == World([Half(1, 19, 20, 0), Unused()], [], Socket(1), 20, {}, 0)
    ensures Ready(w)
         && OpenProducing(w, CFG, 0, Asking(1))
         == (Put(w, 0, w.conns[0].(producingUdp := Some(0), sendAddr := SockAddr(CFG.multicastAddr, IO_UDP_PORT))).(udp := Socket(2)), Success)
  {
    hide Grab;
    Grabbed(Socket(1), 1);
  }

  lemma FirstActivated()
    ensures var v := Put(Boot(2, 0), 0, Armed(1, 19, 20, 0)).(lastId := 20);
            var (x, e) := Activate(v, CFG, 0, Asking(1));
            e == Success && Put(x, 0, x.conns[0].(opener := 5)) == OneOpen(0)
  {
    hide OpenConsuming, OpenProducing, Socket;
    var v := Put(Boot(2, 0), 0, Armed(1, 19, 20, 0)).(lastId := 20);
    assert v.conns == [Armed(1, 19, 20, 0), Unused()];
    assert Put(v, 0, v.conns[0].(session := 0)) == v;
    Consuming(v, 0, 1, 0);
    var h := World([Half(1, 19, 20, 0), Unused()], [], Socket(1), 20, {}, 0);
    FirstProducing(h);
    assert OpenConsuming(v, CFG, 0, Asking(1)).0 == h;
    var (x, e) := Activate(v, CFG, 0, Asking(1));
    assert |x.conns| == 2 && x.conns[1] == Unused();
    assert Put(x, 0, x.conns[0].(opener := 5)).conns == OneOpen(0).conns;
  }

  // ----- The second connection joins

  lemma Second()
    ensures ForwardOpen(OneOpen(20000), CFG, Asking(2)) == (BothOpen(0, 0, 20000), Success)
  {
    hide Configure, Armed, Grab;
    var w := OneOpen(20000);
    var q := Asking(2);
    OtherTriad();
    Admitted(w, q);
    assert PickIo(w, CFG, q.params) == Found(1, InputOnly) by { SecondPick(); }
    Configured(w, 1, 2);
    SecondActivated();
  }

  lemma OtherTriad()
    ensures OneOpen(20000).conns[0].params.triad != Asked(2).triad
  {
  }

  lemma SecondPick()
    ensures PickIo(OneOpen(20000), CFG, Asked(2)) == Found(1, InputOnly)
  {
    assert [0, 1][1..] == [1];
    assert OneOpen(20000).conns[0].state == Established;
  }

  lemma SecondProducing(w: World)
    requires w == World([Producer(1, 19, 20, true, 0, 0, 0), Half(2, 21, 22, 20000)], [0], Socket(3), 22, {}, 20000)
    ensures Ready(w)
         && OpenProducing(w, CFG, 1, Asking(2))
         == (Put(w, 1, w.conns[1].(params := w.conns[1].params.(producingCid := 7 * TWO16 + 20),
                                   sendAddr := SockAddr(CFG.multicastAddr, IO_UDP_PORT))), Success)
  {
    assert FirstCandidate(w.conns, w.active, 2, true) == Some(0);
  }

  lemma SecondActivated()
    ensures var v := Put(OneOpen(20000), 1, Armed(2, 21, 22, 20000)).(lastId := 22);
            var (x, e) := Activate(v, CFG, 1, Asking(2));
            e == Success && Put(x, 1, x.conns[1].(opener := 5)) == BothOpen(0, 0, 20000)
  {
    hide OpenConsuming, OpenProducing, Socket;
    var v := Put(OneOpen(20000), 1, Armed(2, 21, 22, 20000)).(lastId := 22);
    assert v.conns == [Producer(1, 19, 20, true, 0, 0, 0), Armed(2, 21, 22, 20000)];
    assert Put(v, 1, v.conns[1].(session := 0)) == v;
    SocketRanged(2);
    Consuming(v, 1, 2, 2);
    var h := World([Producer(1, 19, 20, true, 0, 0, 0), Half(2, 21, 22, 20000)], [0], Socket(3), 22, {}, 20000);
    SecondProducing(h);
    assert OpenConsuming(v, CFG, 1, Asking(2)).0 == h;
    var (x, e) := Activate(v, CFG, 1, Asking(2));
    assert |x.conns| == 2 && x.conns[0] == Producer(1, 19, 20, true, 0, 0, 0);
    assert Put(x, 1, x.conns[1].(opener := 5)).conns == BothOpen(0, 0, 20000).conns;
  }

  // ----- The first one sends, and times out

  lemma Sends()
    ensures ManageWalk(BothOpen(0, 0, 20000), [1, 0], {}) == BothOpen(1000000, 1, 20000)
  {
    var w := BothOpen(0, 0, 20000);
    assert [1, 0][1..] == [0];
    assert !Expired(w.conns[0], w.now) && !Expired(w.conns[1], w.now);
    assert !Due(w.conns[1], w.now) && Due(w.conns[0], w.now);
    assert w.conns[0 := Produce(w.conns[0], false)] == BothOpen(1000000, 1, 20000).conns;
  }

  lemma Onward(w: World, s: Step, rest: seq<Step>)
    requires Ready(w) && ConfigFits(CFG, |w.conns|)
    ensures Run(w, CFG, [s] + rest) == Run(Do(w, CFG, s), CFG, rest)
  {
    assert ([s] + rest)[1..] == rest;
  }

  function FromSecond(): seq<Step> { [Open(Asking(2)), Manage({}), Elapse(9980000)] }

  lemma FirstHalf()
    ensures ConfigFits(CFG, 2) && Run(Boot(2, 0), CFG, STEPS) == Run(OneOpen(20000), CFG, FromSecond())
  {
    hide ForwardOpen, Run, Producer;
    First();
    assert STEPS == [Open(Asking(1))] + ([Elapse(20000)] + FromSecond());
    Onward(Boot(2, 0), Open(Asking(1)), [Elapse(20000)] + FromSecond());
    Onward(OneOpen(0), Elapse(20000), FromSecond());
  }

  lemma SecondHalf()
    ensures ConfigFits(CFG, 2) && Run(OneOpen(20000), CFG, FromSecond()) == BothOpen(1000000, 1, 10000000)
  {
    hide ForwardOpen, ManageWalk, Run, Producer;
    Second();
    Sends();
    var last := [Elapse(9980000)];
    assert FromSecond() == [Open(Asking(2))] + ([Manage({})] + (last + []));
    Onward(OneOpen(20000), Open(Asking(2)), [Manage({})] + (last + []));
    Onward(BothOpen(0, 0, 20000), Manage({}), last + []);
    Onward(BothOpen(1000000, 1, 20000), Elapse(9980000), []);
    Nothing(BothOpen(1000000, 1, 10000000));
  }

  lemma TheRun()
    ensures Possible(CFG, 2, STEPS)
    ensures Reached(CFG, 2, 0, STEPS) == BothOpen(1000000, 1, 10000000)
  {
    hide Run, BothOpen;
    FirstHalf();
    SecondHalf();
  }

  lemma Nothing(w: World)
    requires Ready(w) && ConfigFits(CFG, |w.conns|)
    ensures Run(w, CFG, []) == w
  {
  }

  /** The next pass times out the first connection, which has sent frame 1. The second gets its
      socket, and the frame it sends next is number 1 again: a receiver that is up to date drops
      it. */
  lemma TimeoutLosesData(changed: bool)
    ensures var w := Reached(CFG, 2, 0, STEPS);
            var r := Do(w, CFG, Manage({}));
            var next := Produce(r.conns[1], changed);
            && w.active == [1, 0] && r.active == [1]
            && next.producingUdp == w.conns[0].producingUdp == Some(0)
            && next.params.producingCid == w.conns[0].params.producingCid
            && w.conns[0].eipProducing == next.eipProducing == 1
            && Diff32(next.eipProducing, w.conns[0].eipProducing) <= 0
  {
    hide Run, TimeOut;
    TheRun();
    var w := Reached(CFG, 2, 0, STEPS);
    assert !Expired(w.conns[1], w.now) && !Due(w.conns[1], w.now) && Expired(w.conns[0], w.now);
    assert [1, 0][1..] == [0];
    assert Do(w, CFG, Manage({})) == TimeOut(w, 0);
    Passed();
  }

  lemma Passed()
    ensures var w := BothOpen(1000000, 1, 10000000);
            var r := TimeOut(w, 0);
            && r.active == [1] && r.conns[1] == w.conns[1].(producingUdp := Some(0), trigger := 1000000)
  {
    hide CloseEach, ReleaseEnd;
    var w := BothOpen(1000000, 1, 10000000);
    assert [1, 0][1..] == [0];
    assert FirstCandidate(w.conns, w.active, 2, false) == Some(1);
    var v := HandOverSocket(w, 0, 1);
    assert TimeOutCascade(w, 0) == v;
    assert Without([0], 0) == [] && Without([1, 0], 0) == [1];
  }
}
