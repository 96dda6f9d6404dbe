/** The invariants of the connection life cycle, and that closing keeps them. */
module ConnInv {
  import opened Words
  import opened SocketSpec
  import opened SocketInv
  import opened ConnSpec

  // ----- The ends that hold sockets

  function One(id: Option<nat>): multiset<nat> {
    if id.Some? then multiset{id.value} else multiset{}
  }

  function HeldBy(c: Conn): multiset<nat> {
    One(c.consumingUdp) + One(c.producingUdp)
  }

  /** Every connection end that holds a socket, over all pool slots. */
  function Held(cs: seq<Conn>): multiset<nat> {
    if cs == [] then multiset{} else HeldBy(cs[0]) + Held(cs[1..])
  }

  /** How often one record is held after one connection changes. */
  lemma {:induction false} HeldUpdate(cs: seq<Conn>, i: nat, c: Conn, id: nat)
    requires i < |cs|
    ensures Held(cs[i := c])[id] + HeldBy(cs[i])[id] == Held(cs)[id] + HeldBy(c)[id]
  {
    if i > 0 {
      assert cs[i := c][1..] == cs[1..][i - 1 := c];
      HeldUpdate(cs[1..], i - 1, c, id);
    } else {
      assert cs[i := c][1..] == cs[1..];
    }
  }

  /** A connection changes without touching its sockets. */
  lemma HeldSame(cs: seq<Conn>, i: nat, c: Conn)
    requires i < |cs| && c.consumingUdp == cs[i].consumingUdp && c.producingUdp == cs[i].producingUdp
    ensures Held(cs[i := c]) == Held(cs)
  {
    forall id: nat ensures Held(cs[i := c])[id] == Held(cs)[id] {
      HeldUpdate(cs, i, c, id);
    }
  }

  // ----- The invariants

  /** A listed slot is open; any other one is free and holds no socket. */
  predicate SlotOk(w: World, i: nat)
    requires i < |w.conns|
  {
    var c := w.conns[i];
    if i in w.active then c.state == Established
    else c.state == NonExistent && c.consumingUdp.None? && c.producingUdp.None?
  }

  /** Pools, list and sockets agree, slot x (if there is one) being opened right now. */
  ghost predicate Sound(w: World, x: nat) {
    && Ready(w) && NoDup(w.active) && x !in w.active
    && (forall i :: 0 <= i < |w.conns| && i != x ==> SlotOk(w, i))
    && Balanced(w.udp, Held(w.conns))
  }

  /** A multicast producer of I/O data. */
  predicate Multi(c: Conn) {
    c.kind != Explicit && c.params.producing == Multicast
  }

  predicate Peers(c: Conn, d: Conn) {
    Multi(c) && Multi(d) && c.params.inputPt == d.params.inputPt
  }

  /** Producers of one input point: at most one holds the socket, all share its id. */
  predicate PairOk(c: Conn, d: Conn) {
    Peers(c, d) ==>
      !(c.producingUdp.Some? && d.producingUdp.Some?) && c.params.producingCid == d.params.producingCid
  }

  predicate MemberOk(c: Conn) {
    c.kind == ListenOnly ==> c.params.producing == Multicast && c.producingUdp.None?
  }

  ghost predicate HasMaster(w: World, p: int)
    requires Ready(w)
  {
    exists m :: m in w.active && Candidate(w.conns[m], p, true)
  }

  /** Whenever any multicast producer of an input point is listed, exactly one exclusive
      owner or input-only connection holds the socket, and all share its connection id. */
  ghost predicate MasterInv(w: World)
    requires Ready(w)
  {
    && (forall i :: i in w.active ==> MemberOk(w.conns[i]))
    && (forall i :: i in w.active && Multi(w.conns[i]) ==> HasMaster(w, w.conns[i].params.inputPt))
    && (forall i, j :: i in w.active && j in w.active && i != j ==> PairOk(w.conns[i], w.conns[j]))
  }

  /** No connection triad twice, no output assembly with two exclusive owners. */
  predicate Distinct(c: Conn, d: Conn) {
    && c.params.triad != d.params.triad
    && !(c.kind == ExclusiveOwner && d.kind == ExclusiveOwner && c.params.outputPt == d.params.outputPt)
  }

  /** The slots of an owner's expectation carry that expectation's output point. */
  ghost predicate UniqueInv(w: World, cfg: Config)
    requires Ready(w)
  {
    && (forall i, j :: i in w.active && j in w.active && i != j ==> Distinct(w.conns[i], w.conns[j]))
    && (forall i, k :: 0 <= k < |cfg.owners| && i in w.active && i in cfg.owners[k].slots ==>
          w.conns[i].params.outputPt == cfg.owners[k].output)
    && (forall i :: i in w.active && TransportClass(w.conns[i].params.transport) == 3 ==> w.conns[i].kind == Explicit)
  }

  ghost predicate Inv(w: World, cfg: Config) {
    Sound(w, |w.conns|) && MasterInv(w) && UniqueInv(w, cfg)
  }

  // ----- Steps that only take connections off the list

  /** Everything of a connection that closing some other connection leaves alone. */
  predicate SameLife(c: Conn, d: Conn) {
    d == c.(producingUdp := d.producingUdp, sendAddr := d.sendAddr, eipProducing := d.eipProducing,
            seqProducing := d.seqProducing, trigger := d.trigger)
  }

  ghost predicate Shrinks(w: World, r: World) {
    && |r.conns| == |w.conns| && Ready(w) && Ready(r) && r.now == w.now
    && (forall k :: k in r.active ==> k in w.active && SameLife(w.conns[k], r.conns[k]))
  }

  lemma {:induction false} CloseShrinks(w: World, i: nat)
    requires Ready(w) && i < |w.conns|
    ensures Shrinks(w, Close(w, i))
    decreases Rank(w.conns[i].kind), 0, 0
  {
    var c := w.conns[i];
    if c.state != NonExistent && MasterKind(c.kind) && c.params.producing == Multicast && c.producingUdp.Some? {
      if FirstCandidate(w.conns, w.active, c.params.inputPt, false).None? {
        CloseEachShrinks(w, w.active, c.params.inputPt, ListenOnly);
      }
    }
  }

  lemma {:induction false} CloseEachShrinks(w: World, s: seq<nat>, p: int, t: Kind)
    requires Ready(w) && InRange(s, |w.conns|)
    ensures Shrinks(w, CloseEach(w, s, p, t))
    decreases Rank(t), 1, |s|
  {
    if s != [] {
      if Matches(w.conns[s[0]], p, t) {
        CloseShrinks(w, s[0]);
        CloseEachShrinks(Close(w, s[0]), s[1..], p, t);
      } else {
        CloseEachShrinks(w, s[1..], p, t);
      }
    }
  }

  lemma ShrinkKeepsUnique(w: World, r: World, cfg: Config)
    requires Shrinks(w, r) && UniqueInv(w, cfg)
    ensures UniqueInv(r, cfg)
  {
  }

  // ----- Closing keeps the invariants

  lemma ReleaseEndKeeps(u: Udp, held: multiset<nat>, id: Option<nat>)
    requires Balanced(u, held + One(id))
    ensures Balanced(ReleaseEnd(u, id), held)
  {
    if id.Some? {
      assert id.value in held + One(id);
      ReleaseKeeps(u, held + One(id), id.value);
      assert held + One(id) - multiset{id.value} == held;
    } else {
      assert held + One(id) == held;
    }
  }

  /** Both ends of slot i are given back and cleared. */
  lemma ReleaseBothKeeps(u: Udp, cs: seq<Conn>, i: nat, c: Conn)
    requires i < |cs| && Balanced(u, Held(cs))
    requires c.consumingUdp.None? && c.producingUdp.None?
    ensures Balanced(ReleaseEnd(ReleaseEnd(u, cs[i].consumingUdp), cs[i].producingUdp), Held(cs[i := c]))
  {
    var h := Held(cs[i := c]);
    forall id: nat ensures Held(cs)[id] == ((h + One(cs[i].producingUdp)) + One(cs[i].consumingUdp))[id] {
      HeldUpdate(cs, i, c, id);
    }
    assert Held(cs) == (h + One(cs[i].producingUdp)) + One(cs[i].consumingUdp);
    ReleaseEndKeeps(u, h + One(cs[i].producingUdp), cs[i].consumingUdp);
    ReleaseEndKeeps(ReleaseEnd(u, cs[i].consumingUdp), h, cs[i].producingUdp);
  }

  lemma ShutSound(w: World, i: nat, x: nat)
    requires Sound(w, x) && i in w.active
    ensures Sound(Shut(w, i), x)
  {
    hide Balanced, Held;
    var r := Shut(w, i);
    ReleaseBothKeeps(w.udp, w.conns, i, r.conns[i]);
    WithoutNoDup(w.active, i);
    forall k | 0 <= k < |r.conns| && k != x ensures SlotOk(r, k) {
      assert k != i ==> SlotOk(w, k);
    }
  }

  /** Nobody needs i: it holds no multicast socket, or it is the only producer of its point. */
  ghost predicate Dispensable(w: World, i: nat)
    requires Ready(w) && i < |w.conns|
  {
    w.conns[i].producingUdp.None? || forall j :: j in w.active && j != i ==> !Peers(w.conns[i], w.conns[j])
  }

  lemma ShutMaster(w: World, i: nat)
    requires Ready(w) && MasterInv(w) && i in w.active && Dispensable(w, i)
    ensures MasterInv(Shut(w, i))
  {
    var r := Shut(w, i);
    forall j | j in r.active && Multi(r.conns[j]) ensures HasMaster(r, r.conns[j].params.inputPt) {
      var p := w.conns[j].params.inputPt;
      assert HasMaster(w, p);
      var m :| m in w.active && Candidate(w.conns[m], p, true);
      assert m != i;
      assert m in r.active && Candidate(r.conns[m], p, true);
    }
  }

  /** Moving the socket of i to n, whatever else of n changes with it. */
  ghost predicate Moved(w: World, r: World, i: nat, n: nat)
    requires i < |w.conns| && n < |w.conns|
  {
    && i != n && |r.conns| == |w.conns|
    && r == w.(conns := w.conns[n := r.conns[n]][i := r.conns[i]])
    && SameLife(w.conns[n], r.conns[n]) && r.conns[n].producingUdp == w.conns[i].producingUdp
    && r.conns[i] == w.conns[i].(producingUdp := None)
  }

  lemma MoveHeld(cs: seq<Conn>, i: nat, n: nat, ci: Conn, cn: Conn)
    requires i < |cs| && n < |cs| && i != n && cs[n].producingUdp.None?
    requires ci == cs[i].(producingUdp := None)
    requires cn.producingUdp == cs[i].producingUdp && cn.consumingUdp == cs[n].consumingUdp
    ensures Held(cs[n := cn][i := ci]) == Held(cs)
  {
    forall id: nat ensures Held(cs[n := cn][i := ci])[id] == Held(cs)[id] {
      HeldUpdate(cs, n, cn, id);
      HeldUpdate(cs[n := cn], i, ci, id);
    }
  }

  lemma MoveSound(w: World, r: World, i: nat, n: nat, x: nat)
    requires Sound(w, x) && i < |w.conns| && n < |w.conns| && Moved(w, r, i, n)
    requires (i in w.active || i == x) && (n in w.active || n == x) && w.conns[n].producingUdp.None?
    ensures Sound(r, x)
  {
    hide Balanced, Held;
    MoveHeld(w.conns, i, n, r.conns[i], r.conns[n]);
    forall k | 0 <= k < |r.conns| && k != x ensures SlotOk(r, k) {
      assert SlotOk(w, k);
    }
  }

  /** Handing the socket to another producer of the same point keeps one master. */
  lemma MoveMaster(w: World, r: World, i: nat, n: nat)
    requires Ready(w) && Ready(r) && MasterInv(w) && i in w.active && n in w.active && Moved(w, r, i, n)
    requires Candidate(w.conns[i], w.conns[i].params.inputPt, true)
    requires Candidate(w.conns[n], w.conns[i].params.inputPt, false)
    ensures MasterInv(r)
  {
    forall j | j in r.active && Multi(r.conns[j]) ensures HasMaster(r, r.conns[j].params.inputPt) {
      var p := w.conns[j].params.inputPt;
      assert HasMaster(w, p);
      var m :| m in w.active && Candidate(w.conns[m], p, true);
      if p == w.conns[i].params.inputPt {
        assert n in r.active && Candidate(r.conns[n], p, true);
      } else {
        assert m in r.active && Candidate(r.conns[m], p, true);
      }
    }
    forall j, k | j in r.active && k in r.active && j != k ensures PairOk(r.conns[j], r.conns[k]) {
      assert PairOk(w.conns[j], w.conns[k]);
      assert j != i ==> PairOk(w.conns[i], w.conns[j]);
      assert k != i ==> PairOk(w.conns[i], w.conns[k]);
    }
  }

  /** The walk that closes listen-only connections touches nothing else. */
  lemma {:induction false} ListenersOnly(w: World, s: seq<nat>, p: int)
    requires Ready(w) && InRange(s, |w.conns|)
    ensures var r := CloseEach(w, s, p, ListenOnly);
            && (forall k :: 0 <= k < |w.conns| && !Matches(w.conns[k], p, ListenOnly) ==>
                  r.conns[k] == w.conns[k] && (k in w.active ==> k in r.active))
            && (forall k :: k in s && Matches(w.conns[k], p, ListenOnly) && w.conns[k].state != NonExistent ==> k !in r.active)
    decreases |s|
  {
    if s != [] {
      if Matches(w.conns[s[0]], p, ListenOnly) {
        ListenersOnly(Close(w, s[0]), s[1..], p);
        CloseEachShrinks(Close(w, s[0]), s[1..], p, ListenOnly);
      } else {
        ListenersOnly(w, s[1..], p);
      }
    }
  }

  /** Once its listeners are gone, the last master of a point is dispensable. */
  lemma LastMasterDispensable(w: World, i: nat, x: nat)
    requires Sound(w, x) && MasterInv(w) && i in w.active
    requires Candidate(w.conns[i], w.conns[i].params.inputPt, true)
    requires FirstCandidate(w.conns, w.active, w.conns[i].params.inputPt, false).None?
    ensures var v := CloseEach(w, w.active, w.conns[i].params.inputPt, ListenOnly);
            i in v.active && v.conns[i] == w.conns[i] && Dispensable(v, i)
  {
    var p := w.conns[i].params.inputPt;
    var v := CloseEach(w, w.active, p, ListenOnly);
    ListenersOnly(w, w.active, p);
    CloseEachShrinks(w, w.active, p, ListenOnly);
    forall j | j in v.active && j != i ensures !Peers(v.conns[i], v.conns[j]) {
      assert PairOk(w.conns[i], w.conns[j]);
      assert SlotOk(w, j);
    }
  }

  lemma {:induction false} CloseKeeps(w: World, i: nat, x: nat)
    requires Sound(w, x) && MasterInv(w) && i < |w.conns| && i != x
    ensures Sound(Close(w, i), x) && MasterInv(Close(w, i))
    decreases Rank(w.conns[i].kind), 0, 0
  {
    var c := w.conns[i];
    var p := c.params.inputPt;
    assert SlotOk(w, i);
    if c.state != NonExistent {
      if MasterKind(c.kind) && c.params.producing == Multicast && c.producingUdp.Some? {
        match FirstCandidate(w.conns, w.active, p, false)
        case Some(n) =>
          var h := HandOver(w, i, n);
          MoveSound(w, h, i, n, x);
          MoveMaster(w, h, i, n);
          ShutSound(h, i, x);
          ShutMaster(h, i);
        case None =>
          var v := CloseEach(w, w.active, p, ListenOnly);
          CloseEachKeeps(w, w.active, p, ListenOnly, x);
          LastMasterDispensable(w, i, x);
          ShutSound(v, i, x);
          ShutMaster(v, i);
      } else {
        NonMasterDispensable(w, i);
        ShutSound(w, i, x);
        ShutMaster(w, i);
      }
    }
  }

  lemma NonMasterDispensable(w: World, i: nat)
    requires Ready(w) && MasterInv(w) && i in w.active
    requires !Candidate(w.conns[i], w.conns[i].params.inputPt, true)
    ensures Dispensable(w, i)
  {
    assert MemberOk(w.conns[i]);
  }

  lemma {:induction false} CloseEachKeeps(w: World, s: seq<nat>, p: int, t: Kind, x: nat)
    requires Sound(w, x) && MasterInv(w) && InRange(s, |w.conns|) && x !in s
    ensures Sound(CloseEach(w, s, p, t), x) && MasterInv(CloseEach(w, s, p, t))
    decreases Rank(t), 1, |s|
  {
    if s != [] {
      if Matches(w.conns[s[0]], p, t) {
        CloseKeeps(w, s[0], x);
        CloseEachKeeps(Close(w, s[0]), s[1..], p, t, x);
      } else {
        CloseEachKeeps(w, s[1..], p, t, x);
      }
    }
  }
}
