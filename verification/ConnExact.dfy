/** Which connections are listed after a close, a timeout, a timer pass, and the end of a
    session: exactly which go, and that no other does. */
module ConnExact {
  import opened Words
  import opened SocketSpec
  import opened SocketInv
  import opened ConnSpec
  import opened ConnInv
  import opened ConnOpen
  import opened ConnRuns
  import opened ConnTheorems

  // ----- Closing

  /** i is the last producer of its input point that could hold the socket. */
  predicate LastMaster(w: World, i: nat)
    requires Ready(w) && i < |w.conns|
  {
    var p := w.conns[i].params.inputPt;
    Candidate(w.conns[i], p, true) && forall k :: k in w.active ==> !Candidate(w.conns[k], p, false)
  }

  /** Closing i takes i and, if it is the last master of its point, the listeners of it. */
  lemma CloseExact(w: World, cfg: Config, i: nat, j: nat)
    requires Inv(w, cfg) && i in w.active && j in w.active
    ensures j in Close(w, i).active <==>
              j != i && !(LastMaster(w, i) && Matches(w.conns[j], w.conns[i].params.inputPt, ListenOnly))
  {
    hide Balanced, Held, MasterInv, UniqueInv, CloseEach, FirstCandidate;
    var c := w.conns[i];
    var p := c.params.inputPt;
    assert SlotOk(w, i) && SlotOk(w, j);
    if MasterKind(c.kind) && c.params.producing == Multicast && c.producingUdp.Some? {
      if FirstCandidate(w.conns, w.active, p, false).None? {
        ListenersOnly(w, w.active, p);
      }
    }
  }

  /** What is left of a closed connection: no socket, no session, a free slot. */
  lemma ClosedSlot(w: World, cfg: Config, i: nat)
    requires Inv(w, cfg) && i in w.active
    ensures var d := Close(w, i).conns[i];
            && d.state == NonExistent && d.session == 0 && d.consumingUdp == None && d.producingUdp == None
            && d.params == w.conns[i].params && d.kind == w.conns[i].kind
  {
    hide Balanced, Held, MasterInv, UniqueInv, CloseEach, FirstCandidate;
    assert SlotOk(w, i);
    var p := w.conns[i].params.inputPt;
    ListenersOnly(w, w.active, p);
  }

  lemma ListenersGone(w: World, cfg: Config, p: int, j: nat)
    requires Inv(w, cfg) && j in w.active
    ensures j in CloseEach(w, w.active, p, ListenOnly).active <==> !Matches(w.conns[j], p, ListenOnly)
  {
    hide Balanced, Held, MasterInv, UniqueInv, CloseEach;
    assert SlotOk(w, j);
    ListenersOnly(w, w.active, p);
  }

  // ----- Timing out

  /** What goes with i when it times out: an exclusive owner that produces multicast takes every
      input-only and listen-only connection of its point, the last master every listener. */
  predicate GoesWith(w: World, i: nat, j: nat)
    requires Ready(w) && i < |w.conns| && j < |w.conns|
  {
    var c := w.conns[i];
    var d := w.conns[j];
    c.params.producing == Multicast && d.params.inputPt == c.params.inputPt
    && ((c.kind == ExclusiveOwner && (d.kind == InputOnly || d.kind == ListenOnly))
        || (c.kind == InputOnly && LastMaster(w, i) && d.kind == ListenOnly))
  }

  /** The owner's part of the cascade leaves no input-only connection and no listener. */
  lemma OwnerSweeps(w: World, cfg: Config, i: nat, j: nat)
    requires Inv(w, cfg) && i in w.active && j in w.active
    requires w.conns[i].kind == ExclusiveOwner && w.conns[i].params.producing == Multicast
    ensures j in TimeOutCascade(w, i).active <==> !Swept(w.conns[j], w.conns[i].params.inputPt, true)
  {
    hide Balanced, Held, MasterInv, UniqueInv, CloseEach, SlotOk;
    var p := w.conns[i].params.inputPt;
    var v := CloseEach(w, w.active, p, InputOnly);
    CloseEachKeepsInv(w, cfg, w.active, p, InputOnly);
    CloseEachShrinks(w, w.active, p, InputOnly);
    CloseEachSpread(w, w.active, p, InputOnly);
    InputOnlyGone(w, cfg, p, j);
    if j in v.active {
      assert SameLife(w.conns[j], v.conns[j]);
      ListenersGone(v, cfg, p, j);
    }
  }

  lemma InputOnlyGone(w: World, cfg: Config, p: int, j: nat)
    requires Inv(w, cfg) && j in w.active
    ensures Matches(w.conns[j], p, InputOnly) ==> j !in CloseEach(w, w.active, p, InputOnly).active
  {
    hide Balanced, Held, MasterInv, UniqueInv, CloseEach;
    assert SlotOk(w, j);
    if Matches(w.conns[j], p, InputOnly) { CloseEachClears(w, w.active, p, InputOnly, j); }
  }

  /** The input-only part: with an heir nobody goes, without one every listener does. */
  lemma MasterSweeps(w: World, cfg: Config, i: nat, j: nat)
    requires Inv(w, cfg) && i in w.active && j in w.active
    requires w.conns[i].kind == InputOnly && Candidate(w.conns[i], w.conns[i].params.inputPt, true)
    ensures var v := TimeOutCascade(w, i);
            && (j in v.active <==> !(LastMaster(w, i) && Matches(w.conns[j], w.conns[i].params.inputPt, ListenOnly)))
            && (!LastMaster(w, i) ==> v.conns[i].producingUdp.None?)
  {
    hide Balanced, Held, MasterInv, UniqueInv, CloseEach, FirstCandidate, SlotOk;
    ListenersGone(w, cfg, w.conns[i].params.inputPt, j);
  }

  /** A timeout takes the connection and what goes with it, and no other: an owner takes all the
      connections that depend on its data, an input-only connection the listeners if nobody is
      left to produce for them. */
  lemma TimeOutExact(w: World, cfg: Config, i: nat, j: nat)
    requires Inv(w, cfg) && i in w.active && j in w.active
    ensures j in TimeOut(w, i).active <==> j != i && !GoesWith(w, i, j)
  {
    hide Balanced, Held, MasterInv, UniqueInv, SlotOk, Close, TimeOutCascade, LastMaster;
    var v := TimeOutCascade(w, i);
    CascadeKeeps(w, cfg, i);
    CascadeSpread(w, i);
    assert i in v.active && SameLife(w.conns[i], v.conns[i]);
    if j in v.active {
      CloseExact(v, cfg, i, j);
      assert SameLife(w.conns[j], v.conns[j]);
    } else {
      CloseShrinks(v, i);
    }
    Sweeps(w, cfg, i, j);
  }

  /** The cascade of any connection, and whether the close after it still takes listeners. */
  lemma Sweeps(w: World, cfg: Config, i: nat, j: nat)
    requires Inv(w, cfg) && i in w.active && j in w.active
    ensures var v := TimeOutCascade(w, i);
            && i in v.active && Ready(v)
            && (j in v.active <==> !GoesWith(w, i, j))
            && (j in v.active && LastMaster(v, i) ==> !Matches(w.conns[j], w.conns[i].params.inputPt, ListenOnly))
  {
    hide Balanced, Held, MasterInv, UniqueInv, SlotOk, CloseEach, FirstCandidate;
    var c := w.conns[i];
    var v := TimeOutCascade(w, i);
    CascadeKeeps(w, cfg, i);
    CascadeSpread(w, i);
    assert i in v.active && SameLife(w.conns[i], v.conns[i]);
    if c.kind == ExclusiveOwner && c.params.producing == Multicast {
      OwnerSweeps(w, cfg, i, j);
    } else if c.kind == InputOnly && Candidate(c, c.params.inputPt, true) {
      MasterSweeps(w, cfg, i, j);
    } else {
      assert v == w;
    }
  }

  // ----- A pass of the timers

  /** A whole pass at a state with an expired connection is the timeout of the first one on its
      way, and takes exactly what that takes; a pass without one takes nothing. */
  lemma {:induction false} ManageExact(w: World, cfg: Config, s: seq<nat>, changed: set<nat>, j: nat)
    requires Inv(w, cfg) && InRange(s, |w.conns|) && j in w.active
    ensures j in ManageWalk(w, s, changed).active <==>
              match FirstExpired(w, s)
              case None => true
              case Some(e) => j != e && !GoesWith(w, e, j)
    decreases |s|
  {
    hide Balanced, Held, MasterInv, UniqueInv, TimeOut, Expired, Due, GoesWith;
    if s != [] {
      var i := s[0];
      var c := w.conns[i];
      if Expired(c, w.now) {
        ExpiredIsListed(w, cfg, i);
        TimeOutExact(w, cfg, i, j);
      } else {
        DueKeeps(w, cfg, i, i in changed);
        var v := if Due(c, w.now) then Put(w, i, Produce(c, i in changed)) else w;
        ManageExact(v, cfg, s[1..], changed, j);
        SameFirstExpired(w, v, s[1..], i);
        if FirstExpired(w, s[1..]).Some? {
          SameGoesWith(w, v, i, FirstExpired(w, s[1..]).value, j);
        }
      }
    }
  }

  lemma SameGoesWith(w: World, v: World, i: nat, e: nat, j: nat)
    requires Ready(w) && i < |w.conns| && e < |w.conns| && j < |w.conns|
    requires v == w || exists changed :: v == Put(w, i, Produce(w.conns[i], changed))
    ensures Ready(v) && |v.conns| == |w.conns| && (GoesWith(v, e, j) <==> GoesWith(w, e, j))
  {
    assert forall k, p, h :: 0 <= k < |w.conns| ==> (Candidate(v.conns[k], p, h) <==> Candidate(w.conns[k], p, h));
  }

  // ----- The end of a session

  /** The class 3 connections of a session are closed, and no other. */
  lemma {:induction false} Class3Exact(w: World, cfg: Config, s: seq<nat>, h: nat, j: nat)
    requires Inv(w, cfg) && InRange(s, |w.conns|) && (forall k :: k in s ==> k in w.active) && j in w.active && NoDup(s)
    ensures var c := w.conns[j];
            j in CloseClass3(w, s, h).active <==> !(j in s && TransportClass(c.params.transport) == 3 && c.session == h)
    decreases |s|
  {
    hide Balanced, Held, MasterInv, SlotOk, Shut;
    if s != [] {
      var i := s[0];
      var c := w.conns[i];
      if TransportClass(c.params.transport) == 3 && c.session == h {
        ExplicitShut(w, cfg, i);
        CloseKeepsInv(w, cfg, i);
        var v := Close(w, i);
        StillListed(w, v, s);
        assert i !in s[1..] by { NotAgain(s); }
        if j != i {
          Class3Exact(v, cfg, s[1..], h, j);
        } else {
          Class3Shrinks(v, s[1..], h);
        }
      } else {
        StillListed(w, w, s);
        Class3Exact(w, cfg, s[1..], h, j);
      }
    }
  }

  lemma NotAgain(s: seq<nat>)
    requires s != [] && NoDup(s)
    ensures s[0] !in s[1..] && NoDup(s[1..])
  {
  }

  lemma ExplicitShut(w: World, cfg: Config, i: nat)
    requires Inv(w, cfg) && i in w.active && TransportClass(w.conns[i].params.transport) == 3
    ensures Close(w, i).active == Without(w.active, i)
    ensures forall k :: 0 <= k < |w.conns| && k != i ==> Close(w, i).conns[k] == w.conns[k]
  {
    hide Balanced, Held, MasterInv;
    assert SlotOk(w, i);
    PlainCloseIsExact(w, i);
    ShutOthers(w, i);
  }

  lemma {:induction false} Class3Shrinks(w: World, s: seq<nat>, h: nat)
    requires Ready(w) && InRange(s, |w.conns|)
    ensures forall k :: k in CloseClass3(w, s, h).active ==> k in w.active
    decreases |s|
  {
    hide Close;
    if s != [] {
      var c := w.conns[s[0]];
      Class3Shrinks(if TransportClass(c.params.transport) == 3 && c.session == h then Close(w, s[0]) else w, s[1..], h);
    }
  }

  /** Once a TCP session is aged its class 3 connections are gone, every other connection is
      listed as before, and the session is over. */
  lemma SessionAgedExact(w: World, cfg: Config, h: nat, j: nat)
    requires Inv(w, cfg) && ConfigWf(cfg, |w.conns|) && j in w.active
    ensures var r := Do(w, cfg, SessionAged(h));
            && h !in r.sessions
            && (j in r.active <==> !(TransportClass(w.conns[j].params.transport) == 3 && w.conns[j].session == h))
  {
    hide Balanced, Held, MasterInv, UniqueInv, SlotOk, CloseClass3;
    Class3Exact(w, cfg, w.active, h, j);
  }

  /** A session that is opened is there until it is aged, or a timeout closes it. */
  lemma SessionOpenedExact(w: World, cfg: Config, h: nat, g: nat)
    requires Ready(w) && ConfigFits(cfg, |w.conns|)
    ensures var r := Do(w, cfg, SessionOpened(h));
            r == w.(sessions := r.sessions) && (g in r.sessions <==> g == h || g in w.sessions)
  {
  }

  // ----- The first on the list

  /** The heir, and the master to join, is the first candidate along the list. */
  lemma {:induction false} CandidateIsFirst(cs: seq<Conn>, s: seq<nat>, p: int, holding: bool, k: nat)
    requires InRange(s, |cs|) && k < |s| && Candidate(cs[s[k]], p, holding)
    requires forall j :: 0 <= j < k ==> !Candidate(cs[s[j]], p, holding)
    ensures FirstCandidate(cs, s, p, holding) == Some(s[k])
  {
    if k > 0 {
      assert !Candidate(cs[s[0]], p, holding);
      CandidateIsFirst(cs, s[1..], p, holding, k - 1);
    }
  }

  /** A frame goes to the first established connection along the list with its id. */
  lemma {:induction false} ConsumerIsFirst(cs: seq<Conn>, s: seq<nat>, cid: nat, k: nat)
    requires InRange(s, |cs|) && k < |s| && cs[s[k]].state == Established && cs[s[k]].params.consumingCid == cid
    requires forall j :: 0 <= j < k && cs[s[j]].state == Established ==> cs[s[j]].params.consumingCid != cid
    ensures FindConsumer(cs, s, cid) == Some(s[k])
  {
    if k > 0 {
      assert cs[s[0]].state == Established ==> cs[s[0]].params.consumingCid != cid;
      ConsumerIsFirst(cs, s[1..], cid, k - 1);
    }
  }
}
