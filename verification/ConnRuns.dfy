/** Runs of the stack: every reachable state satisfies the invariants, walks that close
    connections are safe, shutdown empties everything, the watchdog makes progress. */
module ConnRuns {
  import opened Words
  import opened SocketSpec
  import opened SocketInv
  import opened ConnSpec
  import opened ConnInv
  import opened ConnOpen

  // ----- Closing and timing out

  lemma CloseKeepsInv(w: World, cfg: Config, i: nat)
    requires Inv(w, cfg) && i < |w.conns|
    ensures Inv(Close(w, i), cfg)
  {
    hide Balanced, Held, MasterInv, Close;
    CloseKeeps(w, i, |w.conns|);
    CloseShrinks(w, i);
    ShrinkKeepsUnique(w, Close(w, i), cfg);
  }

  lemma CloseEachKeepsInv(w: World, cfg: Config, s: seq<nat>, p: int, t: Kind)
    requires Inv(w, cfg) && InRange(s, |w.conns|)
    ensures Inv(CloseEach(w, s, p, t), cfg)
  {
    hide Balanced, Held, MasterInv, CloseEach;
    CloseEachKeeps(w, s, p, t, |w.conns|);
    CloseEachShrinks(w, s, p, t);
    ShrinkKeepsUnique(w, CloseEach(w, s, p, t), cfg);
  }

  lemma HandOverSocketKeeps(w: World, cfg: Config, i: nat, n: nat)
    requires Inv(w, cfg) && i in w.active && n in w.active
    requires Candidate(w.conns[i], w.conns[i].params.inputPt, true)
    requires Candidate(w.conns[n], w.conns[i].params.inputPt, false)
    ensures Inv(HandOverSocket(w, i, n), cfg) && Shrinks(w, HandOverSocket(w, i, n))
  {
    hide Balanced, Held, MasterInv;
    var r := HandOverSocket(w, i, n);
    MoveSound(w, r, i, n, |w.conns|);
    MoveMaster(w, r, i, n);
    ShrinkKeepsUnique(w, r, cfg);
  }

  lemma ShrinksTransitive(a: World, b: World, c: World)
    requires Shrinks(a, b) && Shrinks(b, c)
    ensures Shrinks(a, c)
  {
  }

  lemma CascadeKeeps(w: World, cfg: Config, i: nat)
    requires Inv(w, cfg) && i in w.active
    ensures Inv(TimeOutCascade(w, i), cfg) && Shrinks(w, TimeOutCascade(w, i))
  {
    hide Balanced, Held, MasterInv, UniqueInv, CloseEach;
    var c := w.conns[i];
    var p := c.params.inputPt;
    if c.params.producing == Multicast {
      if c.kind == ExclusiveOwner {
        var v := CloseEach(w, w.active, p, InputOnly);
        CloseEachKeepsInv(w, cfg, w.active, p, InputOnly);
        CloseEachShrinks(w, w.active, p, InputOnly);
        CloseEachKeepsInv(v, cfg, v.active, p, ListenOnly);
        CloseEachShrinks(v, v.active, p, ListenOnly);
      } else if c.kind == InputOnly && c.producingUdp.Some? {
        match FirstCandidate(w.conns, w.active, p, false)
        case Some(n) => HandOverSocketKeeps(w, cfg, i, n);
        case None =>
          CloseEachKeepsInv(w, cfg, w.active, p, ListenOnly);
          CloseEachShrinks(w, w.active, p, ListenOnly);
      }
    }
  }

  /** A timeout keeps the invariants and only takes connections off the list, i among them. */
  lemma TimeOutKeeps(w: World, cfg: Config, i: nat)
    requires Inv(w, cfg) && i in w.active
    ensures Inv(TimeOut(w, i), cfg) && Shrinks(w, TimeOut(w, i)) && i !in TimeOut(w, i).active
  {
    hide Balanced, Held, MasterInv, UniqueInv, Close, TimeOutCascade;
    CascadeKeeps(w, cfg, i);
    var v := TimeOutCascade(w, i);
    CloseKeepsInv(v, cfg, i);
    CloseShrinks(v, i);
    assert SlotOk(v, i);
    assert i !in Close(v, i).active;
    SessionsOnly(Close(v, i), cfg, CheckSession(Close(v, i), v.conns[i].session).sessions);
  }

  lemma SessionsOnly(w: World, cfg: Config, sessions: set<nat>)
    requires Inv(w, cfg)
    ensures Inv(w.(sessions := sessions), cfg)
  {
    hide Balanced, Held;
    var r := w.(sessions := sessions);
    SameListMaster(w, r);
    forall k | 0 <= k < |r.conns| ensures SlotOk(r, k) {
      assert SlotOk(w, k);
    }
  }

  lemma SameListMaster(w: World, r: World)
    requires Ready(w) && Ready(r) && MasterInv(w) && r.conns == w.conns && r.active == w.active
    ensures MasterInv(r)
  {
    forall j | j in r.active && Multi(r.conns[j]) ensures HasMaster(r, r.conns[j].params.inputPt) {
      assert HasMaster(w, w.conns[j].params.inputPt);
    }
  }

  // ----- The walks that close connections by type

  /** Closing a listen-only or explicit connection closes nothing else. */
  lemma PlainCloseIsExact(w: World, i: nat)
    requires Ready(w) && i < |w.conns| && !MasterKind(w.conns[i].kind) && w.conns[i].state != NonExistent
    ensures Close(w, i) == Shut(w, i)
  {
  }

  /** While an exclusive owner of the point is listed, closing an input-only connection
      closes nothing else: there is always a producer left to take the socket. */
  lemma InputOnlyCloseIsExact(w: World, i: nat, e: nat, x: nat)
    requires Sound(w, x) && MasterInv(w) && i in w.active && e in w.active
    requires w.conns[i].kind == InputOnly && w.conns[e].kind == ExclusiveOwner
    requires w.conns[e].params.producing == Multicast && w.conns[e].params.inputPt == w.conns[i].params.inputPt
    ensures Close(w, i).active == Without(w.active, i)
  {
    hide Balanced, Held;
    assert SlotOk(w, i);
    var p := w.conns[i].params.inputPt;
    if Candidate(w.conns[i], p, true) {
      assert PairOk(w.conns[i], w.conns[e]);
      assert Candidate(w.conns[e], p, false);
      assert FirstCandidate(w.conns, w.active, p, false).Some?;
    }
  }

  /** When the walk is at s[0], every node it has still to visit is on the list, and stays
      there when s[0] is closed. */
  ghost predicate WalkSafe(w: World, s: seq<nat>, p: int, t: Kind)
    requires Ready(w) && InRange(s, |w.conns|)
    decreases |s|
  {
    && (forall k :: k in s ==> k in w.active)
    && (s != [] ==>
          WalkSafe(if Matches(w.conns[s[0]], p, t) then Close(w, s[0]) else w, s[1..], p, t))
  }

  lemma {:induction false} ListenerWalkSafe(w: World, s: seq<nat>, p: int, x: nat)
    requires Sound(w, x) && MasterInv(w) && InRange(s, |w.conns|) && x !in s
    requires NoDup(s) && forall k :: k in s ==> k in w.active
    ensures WalkSafe(w, s, p, ListenOnly)
    decreases |s|
  {
    hide Balanced, Held, MasterInv, Close;
    if s != [] {
      var v := if Matches(w.conns[s[0]], p, ListenOnly) then Close(w, s[0]) else w;
      if Matches(w.conns[s[0]], p, ListenOnly) {
        assert SlotOk(w, s[0]);
        PlainCloseIsExact(w, s[0]);
        CloseKeeps(w, s[0], x);
      }
      StillListed(w, v, s);
      ListenerWalkSafe(v, s[1..], p, x);
    }
  }

  lemma StillListed(w: World, v: World, s: seq<nat>)
    requires s != [] && NoDup(s) && forall k :: k in s ==> k in w.active
    requires v.active == w.active || v.active == Without(w.active, s[0])
    ensures forall k :: k in s[1..] ==> k in v.active
  {
    forall k | k in s[1..] ensures k in v.active {
      var j :| 0 <= j < |s[1..]| && s[1..][j] == k;
      assert s[0] != s[j + 1];
    }
  }

  /** The walk an owner's timeout makes over the input-only connections. */
  lemma {:induction false} InputOnlyWalkSafe(w: World, s: seq<nat>, p: int, e: nat, x: nat)
    requires Sound(w, x) && MasterInv(w) && InRange(s, |w.conns|) && x !in s
    requires NoDup(s) && (forall k :: k in s ==> k in w.active)
    requires e in w.active && w.conns[e].kind == ExclusiveOwner
    requires w.conns[e].params.producing == Multicast && w.conns[e].params.inputPt == p
    ensures WalkSafe(w, s, p, InputOnly)
    decreases |s|
  {
    hide Balanced, Held, MasterInv, Close;
    if s != [] {
      var v := if Matches(w.conns[s[0]], p, InputOnly) then Close(w, s[0]) else w;
      if Matches(w.conns[s[0]], p, InputOnly) {
        InputOnlyCloseIsExact(w, s[0], e, x);
        CloseKeeps(w, s[0], x);
        CloseShrinks(w, s[0]);
      }
      StillListed(w, v, s);
      InputOnlyWalkSafe(v, s[1..], p, e, x);
    }
  }

  /** After the walk nothing that matched is listed any more. */
  lemma {:induction false} CloseEachClears(w: World, s: seq<nat>, p: int, t: Kind, k: nat)
    requires Ready(w) && InRange(s, |w.conns|) && k in s && Matches(w.conns[k], p, t)
    requires k in w.active ==> w.conns[k].state != NonExistent
    ensures k !in CloseEach(w, s, p, t).active
    decreases |s|
  {
    var v := if Matches(w.conns[s[0]], p, t) then Close(w, s[0]) else w;
    if Matches(w.conns[s[0]], p, t) { CloseShrinks(w, s[0]); }
    CloseEachShrinks(v, s[1..], p, t);
    if k in v.active {
      CloseEachClears(v, s[1..], p, t, k);
    }
  }

  /** Every close of the two cascades is safe, and all that matched are gone afterwards:
      the listeners of any point, and the input-only connections of an owner's point. */
  lemma CascadesAreSafe(w: World, cfg: Config, p: int, e: nat)
    requires Inv(w, cfg)
    ensures WalkSafe(w, w.active, p, ListenOnly)
    ensures forall k :: k in CloseEach(w, w.active, p, ListenOnly).active ==>
              !Matches(w.conns[k], p, ListenOnly)
    ensures e in w.active && w.conns[e].kind == ExclusiveOwner && w.conns[e].params.producing == Multicast
            && w.conns[e].params.inputPt == p ==>
              && WalkSafe(w, w.active, p, InputOnly)
              && (forall k :: k in CloseEach(w, w.active, p, InputOnly).active ==> !Matches(w.conns[k], p, InputOnly))
  {
    hide Balanced, Held, MasterInv, CloseEach, WalkSafe;
    ListenerWalkSafe(w, w.active, p, |w.conns|);
    if e in w.active && w.conns[e].kind == ExclusiveOwner && w.conns[e].params.producing == Multicast && w.conns[e].params.inputPt == p {
      InputOnlyWalkSafe(w, w.active, p, e, |w.conns|);
    }
    CloseEachShrinks(w, w.active, p, ListenOnly);
    CloseEachShrinks(w, w.active, p, InputOnly);
    forall k, t | k in w.active && Matches(w.conns[k], p, t) ensures k !in CloseEach(w, w.active, p, t).active {
      assert SlotOk(w, k);
      CloseEachClears(w, w.active, p, t, k);
    }
  }

  // ----- Class 3 connections of a session, shutdown

  lemma {:induction false} CloseClass3Keeps(w: World, cfg: Config, s: seq<nat>, h: nat)
    requires Inv(w, cfg) && InRange(s, |w.conns|)
    ensures Inv(CloseClass3(w, s, h), cfg)
    decreases |s|
  {
    hide Balanced, Held, MasterInv, UniqueInv, Close;
    if s != [] {
      CloseKeepsInv(w, cfg, s[0]);
      var c := w.conns[s[0]];
      var v := if TransportClass(c.params.transport) == 3 && c.session == h then Close(w, s[0]) else w;
      CloseClass3Keeps(v, cfg, s[1..], h);
    }
  }

  lemma {:induction false} CloseAllKeeps(w: World, cfg: Config)
    requires Inv(w, cfg)
    ensures Inv(CloseAll(w), cfg) && CloseAll(w).active == []
    decreases Elements(w.active)
  {
    hide Balanced, Held, MasterInv, UniqueInv, Close;
    if w.active != [] {
      var i := w.active[0];
      assert SlotOk(w, i);
      var v := Close(w, i);
      CloseKeepsInv(w, cfg, i);
      assert i in Elements(w.active) && i !in Elements(v.active);
      CloseAllKeeps(v, cfg);
    }
  }

  lemma {:induction false} NothingHeld(cs: seq<Conn>)
    requires forall i :: 0 <= i < |cs| ==> cs[i].consumingUdp.None? && cs[i].producingUdp.None?
    ensures Held(cs) == multiset{}
  {
    if cs != [] {
      NothingHeld(cs[1..]);
      assert HeldBy(cs[0]) == multiset{};
    }
  }

  /** Shutdown ends, with an empty list, every slot free, no group joined any more and no
      reference left on any socket. */
  lemma ShutdownEmpties(w: World, cfg: Config)
    requires Inv(w, cfg)
    ensures var r := CloseAll(w);
            && r.active == []
            && (forall i :: 0 <= i < |r.conns| ==> r.conns[i].state == NonExistent)
            && r.udp.groups == []
            && (forall k :: k in r.udp.sockets ==> r.udp.recs[k].refs == 0)
  {
    hide CloseAll, Balanced, Held, MasterInv, UniqueInv;
    var r := CloseAll(w);
    CloseAllKeeps(w, cfg);
    forall i | 0 <= i < |r.conns| ensures r.conns[i].state == NonExistent && r.conns[i].consumingUdp.None? && r.conns[i].producingUdp.None? {
      assert SlotOk(r, i);
    }
    NothingHeld(r.conns);
    NoGroupsNoRefs(r.udp);
  }

  lemma FirstIsListed(s: seq<nat>)
    ensures s == [] || exists k :: k in s
  {
    if s != [] { assert s[0] in s; }
  }

  lemma NoGroupsNoRefs(u: Udp)
    requires Balanced(u, multiset{})
    ensures u.groups == [] && forall k :: k in u.sockets ==> u.recs[k].refs == 0
  {
    FirstIsListed(u.groups);
    forall g | 0 <= g < |u.recs| ensures g !in u.groups {
      assert Accounted(u, multiset{}, g);
    }
    forall k | k in u.sockets ensures u.recs[k].refs == 0 {
      assert Accounted(u, multiset{}, k);
    }
  }

  // ----- One pass of ManageConnections

  lemma DueKeeps(w: World, cfg: Config, i: nat, changed: bool)
    requires Inv(w, cfg) && i < |w.conns|
    ensures Inv(Put(w, i, Produce(w.conns[i], changed)), cfg)
  {
    HarmlessKeeps(w, cfg, i, Produce(w.conns[i], changed));
  }

  lemma {:induction false} ManageKeeps(w: World, cfg: Config, s: seq<nat>, changed: set<nat>)
    requires Inv(w, cfg) && InRange(s, |w.conns|)
    ensures Inv(ManageWalk(w, s, changed), cfg)
    decreases |s|
  {
    hide Balanced, Held, MasterInv, UniqueInv, TimeOut;
    if s != [] {
      var c := w.conns[s[0]];
      if Expired(c, w.now) {
        assert SlotOk(w, s[0]);
        TimeOutKeeps(w, cfg, s[0]);
      } else {
        DueKeeps(w, cfg, s[0], s[0] in changed);
        var v := if Due(c, w.now) then Put(w, s[0], Produce(c, s[0] in changed)) else w;
        ManageKeeps(v, cfg, s[1..], changed);
      }
    }
  }

  // ----- Every step, every run

  predicate Legal(s: Step) {
    s.Open? ==> Resolved(s.q)
  }

  lemma ElapseKeeps(w: World, cfg: Config, now: nat)
    requires Inv(w, cfg)
    ensures Inv(w.(now := now), cfg)
  {
    hide Balanced, Held;
    var r := w.(now := now);
    SameListMaster(w, r);
    forall k | 0 <= k < |r.conns| ensures SlotOk(r, k) {
      assert SlotOk(w, k);
    }
  }

  lemma ReceiveKeeps(w: World, cfg: Config, cid: nat, from: nat, seqNum: nat, count: nat)
    requires Inv(w, cfg)
    ensures Inv(Receive(w, cid, from, seqNum, count), cfg) && Inv(ReceiveExplicit(w, cid), cfg)
  {
    hide Balanced, Held, MasterInv, UniqueInv;
    match FindConsumer(w.conns, w.active, cid)
    case None =>
    case Some(i) =>
      HarmlessKeeps(w, cfg, i, Receive(w, cid, from, seqNum, count).conns[i]);
      HarmlessKeeps(w, cfg, i, ReceiveExplicit(w, cid).conns[i]);
      assert w == Put(w, i, w.conns[i]);
  }

  /** Every step of the stack keeps every invariant. */
  lemma StepKeeps(w: World, cfg: Config, s: Step)
    requires Inv(w, cfg) && ConfigWf(cfg, |w.conns|) && Legal(s)
    ensures Inv(Do(w, cfg, s), cfg)
  {
    hide Balanced, Held, MasterInv, UniqueInv, SlotOk, ForwardOpen, Close, ManageWalk, CloseClass3, CloseAll, Receive, ReceiveExplicit;
    match s
    case Open(q) => ForwardOpenKeeps(w, cfg, q);
    case CloseRequest(t, peer) =>
      match FindTriad(w.conns, w.active, t) {
        case None =>
        case Some(i) => CloseKeepsInv(w, cfg, i);
      }
    case Manage(changed) => ManageKeeps(w, cfg, w.active, changed);
    case Frame(cid, from, seqNum, count) => ReceiveKeeps(w, cfg, cid, from, seqNum, count);
    case Message(cid) => ReceiveKeeps(w, cfg, cid, 0, 0, 0);
    case SessionOpened(h) => SessionsOnly(w, cfg, w.sessions + {h});
    case SessionAged(h) =>
      CloseClass3Keeps(w, cfg, w.active, h);
      SessionsOnly(CloseClass3(w, w.active, h), cfg, CloseClass3(w, w.active, h).sessions - {h});
    case Elapse(usecs) => ElapseKeeps(w, cfg, U32(w.now + usecs));
    case Shutdown => CloseAllKeeps(w, cfg);
  }

  lemma BootInv(n: nat, cfg: Config, now: nat)
    ensures Inv(Boot(n, now), cfg)
  {
    var w := Boot(n, now);
    NothingHeld(w.conns);
  }

  lemma {:induction false} RunKeeps(w: World, cfg: Config, steps: seq<Step>)
    requires Inv(w, cfg) && ConfigWf(cfg, |w.conns|)
    requires forall k :: 0 <= k < |steps| ==> Legal(steps[k])
    ensures Inv(Run(w, cfg, steps), cfg)
    decreases |steps|
  {
    hide Balanced, Held, MasterInv, UniqueInv, SlotOk, Do;
    if steps != [] {
      StepKeeps(w, cfg, steps[0]);
      RunKeeps(Do(w, cfg, steps[0]), cfg, steps[1..]);
    }
  }
}
