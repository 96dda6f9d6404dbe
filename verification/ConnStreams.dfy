/** What a run remembers: the encapsulation counts of the producers, so what a receiver makes of
    a change of master, and the connection ids handed out, so where a frame ends up. */
module ConnStreams {
  import opened Words
  import opened SocketSpec
  import opened SocketInv
  import opened ConnSpec
  import opened ConnInv
  import opened ConnOpen
  import opened ConnRuns
  import opened ConnTheorems

  // ----- What closing does to the connections that stay

  ghost predicate Bounded(w: World) {
    forall k :: 0 <= k < |w.conns| ==> w.conns[k].eipProducing < TWO32
  }

  /** A connection that stays keeps its parameters; it does not lose its socket, and if it gets
      none it keeps its count. */
  predicate Stays(c: Conn, d: Conn) {
    d.params == c.params && (d.producingUdp.None? ==> c.producingUdp.None? && d.eipProducing == c.eipProducing)
  }

  /** Connections may go, x may lose its socket, and nothing else of interest happens. */
  ghost predicate CalmBut(w: World, r: World, x: nat) {
    && |r.conns| == |w.conns| && Ready(w) && Ready(r) && r.lastId == w.lastId
    && (forall k :: k in r.active ==> k in w.active && r.conns[k].params == w.conns[k].params)
    && (forall k :: k in r.active && k != x ==> Stays(w.conns[k], r.conns[k]))
    && (Bounded(w) ==> Bounded(r))
  }

  ghost predicate Calm(w: World, r: World) {
    CalmBut(w, r, |w.conns|)
  }

  /** Once x is gone it does not matter that it lost its socket. */
  lemma CalmWithout(a: World, b: World, c: World, x: nat)
    requires CalmBut(a, b, x) && Calm(b, c) && x !in c.active
    ensures Calm(a, c)
  {
    hide Bounded, Ready;
  }

  lemma ShutCalm(w: World, i: nat)
    requires Ready(w) && i < |w.conns|
    ensures Calm(w, Shut(w, i))
  {
    hide ReleaseEnd;
  }

  lemma HandOverCalm(w: World, i: nat, n: nat)
    requires Ready(w) && i < |w.conns| && n < |w.conns|
    requires w.conns[i].producingUdp.Some? && w.conns[n].producingUdp.None?
    ensures CalmBut(w, HandOver(w, i, n), i) && CalmBut(w, HandOverSocket(w, i, n), i)
  {
  }

  lemma {:induction false} CloseCalm(w: World, i: nat)
    requires Ready(w) && i < |w.conns|
    ensures Calm(w, Close(w, i))
    decreases Rank(w.conns[i].kind), 0, 0
  {
    hide CloseEach, Shut, HandOver, Bounded, CalmBut, Calm;
    var c := w.conns[i];
    if c.state == NonExistent {
      CalmSelf(w);
    } else if MasterKind(c.kind) && c.params.producing == Multicast && c.producingUdp.Some? {
      match FirstCandidate(w.conns, w.active, c.params.inputPt, false)
      case Some(n) =>
        HandOverCalm(w, i, n);
        ShutCalm(HandOver(w, i, n), i);
        CalmWithout(w, HandOver(w, i, n), Close(w, i), i);
      case None =>
        var v := CloseEach(w, w.active, c.params.inputPt, ListenOnly);
        CloseEachCalm(w, w.active, c.params.inputPt, ListenOnly);
        ShutCalm(v, i);
        CalmAfter(w, v, Close(w, i));
    } else {
      ShutCalm(w, i);
    }
  }

  lemma {:induction false} CloseEachCalm(w: World, s: seq<nat>, p: int, t: Kind)
    requires Ready(w) && InRange(s, |w.conns|)
    ensures Calm(w, CloseEach(w, s, p, t))
    decreases Rank(t), 1, |s|
  {
    hide Close, Calm;
    if s != [] {
      if Matches(w.conns[s[0]], p, t) {
        CloseCalm(w, s[0]);
        CloseEachCalm(Close(w, s[0]), s[1..], p, t);
        CalmAfter(w, Close(w, s[0]), CloseEach(Close(w, s[0]), s[1..], p, t));
      } else {
        CloseEachCalm(w, s[1..], p, t);
      }
    } else {
      CalmSelf(w);
    }
  }

  lemma CalmSelf(w: World)
    requires Ready(w)
    ensures Calm(w, w)
  {
  }

  lemma CalmAfter(a: World, b: World, c: World)
    requires Calm(a, b) && Calm(b, c)
    ensures Calm(a, c)
  {
  }

  lemma CalmIsCalmBut(w: World, r: World, x: nat)
    ensures Calm(w, r) ==> CalmBut(w, r, x)
  {
  }

  lemma CascadeCalm(w: World, i: nat)
    requires Ready(w) && i < |w.conns|
    ensures CalmBut(w, TimeOutCascade(w, i), i)
  {
    hide CloseEach, HandOverSocket, Bounded, Calm, CalmBut, FirstCandidate;
    var c := w.conns[i];
    var p := c.params.inputPt;
    var v := CloseEach(w, w.active, p, InputOnly);
    CloseEachCalm(w, w.active, p, InputOnly);
    CloseEachCalm(v, v.active, p, ListenOnly);
    CloseEachCalm(w, w.active, p, ListenOnly);
    CalmSelf(w);
    CalmAfter(w, v, CloseEach(v, v.active, p, ListenOnly));
    CalmIsCalmBut(w, TimeOutCascade(w, i), i);
    if c.producingUdp.Some? && FirstCandidate(w.conns, w.active, p, false).Some? {
      HandOverCalm(w, i, FirstCandidate(w.conns, w.active, p, false).value);
    }
  }

  lemma SessionsCalm(w: World, h: nat)
    requires Ready(w)
    ensures Calm(w, CheckSession(w, h))
  {
  }

  lemma TimeOutCalm(w: World, cfg: Config, i: nat)
    requires Inv(w, cfg) && i in w.active
    ensures Calm(w, TimeOut(w, i))
  {
    hide Balanced, Held, MasterInv, UniqueInv, SlotOk, Close, TimeOutCascade, Bounded, CalmBut, Calm, CheckSession;
    var v := TimeOutCascade(w, i);
    CascadeCalm(w, i);
    CloseCalm(v, i);
    SessionsCalm(Close(v, i), v.conns[i].session);
    CalmSelf(Close(v, i));
    CalmAfter(v, Close(v, i), TimeOut(w, i));
    TimeOutKeeps(w, cfg, i);
    CalmWithout(w, v, TimeOut(w, i), i);
  }

  lemma {:induction false} ManageCalm(w: World, cfg: Config, s: seq<nat>, changed: set<nat>)
    requires Inv(w, cfg) && InRange(s, |w.conns|)
    ensures Calm(w, ManageWalk(w, s, changed))
    decreases |s|
  {
    hide Balanced, Held, MasterInv, UniqueInv, TimeOut, Calm, Expired;
    if s != [] {
      var i := s[0];
      var c := w.conns[i];
      if Expired(c, w.now) {
        ExpiredIsListed(w, cfg, i);
        TimeOutCalm(w, cfg, i);
      } else {
        DueKeeps(w, cfg, i, i in changed);
        var v := if Due(c, w.now) then Put(w, i, Produce(c, i in changed)) else w;
        CalmSelf(w);
        ProduceCalm(w, i, i in changed);
        ManageCalm(v, cfg, s[1..], changed);
        CalmAfter(w, v, ManageWalk(v, s[1..], changed));
      }
    } else {
      CalmSelf(w);
    }
  }

  lemma ProduceCalm(w: World, i: nat, changed: bool)
    requires Ready(w) && i < |w.conns|
    ensures Due(w.conns[i], w.now) ==> Calm(w, Put(w, i, Produce(w.conns[i], changed)))
  {
  }

  lemma {:induction false} CloseClass3Calm(w: World, s: seq<nat>, h: nat)
    requires Ready(w) && InRange(s, |w.conns|)
    ensures Calm(w, CloseClass3(w, s, h))
    decreases |s|
  {
    hide Close, Calm;
    CalmSelf(w);
    if s != [] {
      var c := w.conns[s[0]];
      var v := if TransportClass(c.params.transport) == 3 && c.session == h then Close(w, s[0]) else w;
      CloseCalm(w, s[0]);
      CloseClass3Calm(v, s[1..], h);
      CalmAfter(w, v, CloseClass3(v, s[1..], h));
    }
  }

  lemma {:induction false} CloseAllCalm(w: World)
    requires Ready(w)
    ensures Calm(w, CloseAll(w))
    decreases Elements(w.active)
  {
    hide Close, Calm;
    CalmSelf(w);
    if w.active != [] && w.conns[w.active[0]].state != NonExistent {
      var v := Close(w, w.active[0]);
      CloseCalm(w, w.active[0]);
      assert w.active[0] in Elements(w.active) && w.active[0] !in Elements(v.active);
      CloseAllCalm(v);
      CalmAfter(w, v, CloseAll(v));
    }
  }

  // ----- What opening does to the connections that stay, and to the new one

  /** What opening the ends of some connection leaves alone of every connection. */
  predicate KeepsAllBut(c: Conn, d: Conn) {
    && d.eipProducing == c.eipProducing && d.kind == c.kind && d.session == c.session
    && d.params == c.params.(producingCid := d.params.producingCid)
  }

  /** Of the connections but i only sockets change hands; i keeps its count. */
  ghost predicate OpensCalm(w: World, r: World, i: nat) {
    && |r.conns| == |w.conns| && r.lastId == w.lastId && i < |w.conns|
    && (forall k :: 0 <= k < |w.conns| ==> KeepsAllBut(w.conns[k], r.conns[k]))
    && (forall k :: 0 <= k < |w.conns| && k != i ==> r.conns[k].params == w.conns[k].params)
  }

  lemma OneOpens(w: World, r: World, i: nat)
    requires i < |w.conns| && |r.conns| == |w.conns| && r.lastId == w.lastId
    requires r.conns == w.conns[i := r.conns[i]] && KeepsAllBut(w.conns[i], r.conns[i])
    ensures OpensCalm(w, r, i)
  {
  }

  lemma ConsumingCalm(w: World, cfg: Config, i: nat, q: Request)
    requires Ready(w) && i < |w.conns|
    ensures OpensCalm(w, OpenConsuming(w, cfg, i, q).0, i)
  {
    hide Grab, OpensCalm;
    assert w.conns[i := w.conns[i]] == w.conns;
    OneOpens(w, OpenConsuming(w, cfg, i, q).0, i);
  }

  lemma JoinCalm(w: World, cfg: Config, i: nat, m: nat)
    requires i < |w.conns| && m < |w.conns|
    ensures OpensCalm(w, JoinMaster(w, cfg, i, m), i)
  {
  }

  lemma ProducingCalm(w: World, cfg: Config, i: nat, q: Request)
    requires Ready(w) && i < |w.conns|
    ensures OpensCalm(w, OpenProducing(w, cfg, i, q).0, i)
  {
    hide Grab, FirstCandidate, JoinMaster, OpensCalm;
    var r := OpenProducing(w, cfg, i, q).0;
    var first := FirstCandidate(w.conns, w.active, w.conns[i].params.inputPt, true);
    if w.conns[i].params.producing == Multicast && first.Some? {
      JoinCalm(w, cfg, i, first.value);
    } else {
      assert w.conns[i := w.conns[i]] == w.conns;
      OneOpens(w, r, i);
    }
  }

  lemma ChannelsCalm(w: World, cfg: Config, i: nat, q: Request)
    requires Ready(w) && i < |w.conns|
    ensures OpensCalm(w, OpenChannels(w, cfg, i, q).0, i)
  {
    hide OpenConsuming, OpenProducing;
    ConsumingCalm(w, cfg, i, q);
    ProducingCalm(OpenConsuming(w, cfg, i, q).0, cfg, i, q);
  }

  lemma ActivateCalm(w: World, cfg: Config, i: nat, q: Request)
    requires Ready(w) && i < |w.conns| && w.conns[i].eipProducing == 0
    ensures var (r, e) := Activate(w, cfg, i, q);
            && |r.conns| == |w.conns| && r.lastId == w.lastId
            && r.active == (if e == Success then [i] + w.active else w.active)
            && (forall k :: 0 <= k < |w.conns| ==> r.conns[k].eipProducing == w.conns[k].eipProducing)
            && (forall k :: 0 <= k < |w.conns| && k != i ==> r.conns[k].params == w.conns[k].params)
            && (e == Success ==> r.conns[i].kind == w.conns[i].kind
                                 && r.conns[i].params.consuming == w.conns[i].params.consuming
                                 && r.conns[i].params.consumingCid == w.conns[i].params.consumingCid)
  {
    hide OpenChannels, ReleaseEnd;
    ChannelsCalm(Put(w, i, w.conns[i].(session := q.session)), cfg, i, q);
  }

  /** How many connection ids a request takes. */
  function IdsFor(q: Params): nat {
    (if q.consuming == PointToPoint then 1 else 0) + (if q.producing == Multicast then 1 else 0)
  }

  /** What a step does to the counts and the ids, n being the number of ids it takes: a
      connection that stays may get a socket, lose it, or keep its count; the one that is new, if
      any, starts to count at 0 with the first of the ids taken. */
  ghost predicate Counts(w: World, r: World, cfg: Config, n: nat) {
    && |r.conns| == |w.conns| && Ready(w) && Ready(r) && (w.lastId < TWO16 ==> r.lastId == U16(w.lastId + n))
    && (forall k :: k in r.active && k in w.active ==>
          && r.conns[k].params == w.conns[k].params
          && (r.conns[k].producingUdp.None? ==> w.conns[k].producingUdp.Some? || r.conns[k].eipProducing == w.conns[k].eipProducing))
    && (forall k :: k in r.active && k !in w.active ==> r.active[0] == k && Fresh(r.conns[k], cfg, w.lastId, n))
    && (Bounded(w) ==> Bounded(r))
  }

  predicate Fresh(c: Conn, cfg: Config, lastId: nat, n: nat) {
    && c.eipProducing == 0
    && (c.params.consuming == PointToPoint ==> n >= 1 && c.params.consumingCid == NewId(cfg, lastId))
  }

  lemma CalmCounts(w: World, r: World, cfg: Config)
    requires Calm(w, r)
    ensures Counts(w, r, cfg, 0)
  {
    hide Bounded;
  }

  lemma Selected(cfg: Config, lastId: nat, q: Params)
    requires lastId < TWO16
    ensures SelectIds(cfg, lastId, q).1 == U16(lastId + IdsFor(q))
  {
  }

  lemma ConfigureCalm(w: World, cfg: Config, i: nat, q: Params, kind: Kind)
    requires i < |w.conns|
    ensures var r := Configure(w, cfg, i, q, kind);
            && r.conns == w.conns[i := r.conns[i]] && Fresh(r.conns[i], cfg, w.lastId, IdsFor(q))
            && (w.lastId < TWO16 ==> r.lastId == U16(w.lastId + IdsFor(q)))
            && r.conns[i].params.consuming == q.consuming
  {
    hide RxTimeout, RoundUpToTick;
    if w.lastId < TWO16 { Selected(cfg, w.lastId, q); }
  }

  lemma OpenExplicitCounts(w: World, cfg: Config, q: Request)
    requires Inv(w, cfg) && ConfigWf(cfg, |w.conns|)
    ensures var r := OpenExplicit(w, cfg, q).0; Counts(w, r, cfg, if r == w then 0 else IdsFor(q.params))
  {
    hide Balanced, Held, MasterInv, UniqueInv, Configure, IdsFor, NewId;
    match FirstFree(w.conns, cfg.explicits)
    case None =>
    case Some(i) =>
      assert SlotOk(w, i);
      ConfigureCalm(w, cfg, i, q.params, Explicit);
  }

  /** Activating a slot just configured. */
  lemma ActivateCounts(w: World, v: World, cfg: Config, i: nat, q: Request, n: nat)
    requires Ready(w) && Ready(v) && i < |w.conns| && i !in w.active && v.active == w.active
    requires |v.conns| == |w.conns| && v.conns == w.conns[i := v.conns[i]] && Fresh(v.conns[i], cfg, w.lastId, n)
    requires w.lastId < TWO16 ==> v.lastId == U16(w.lastId + n)
    ensures Counts(w, Activate(v, cfg, i, q).0, cfg, n)
  {
    hide Activate, NewId, U16;
    ActivateCalm(v, cfg, i, q);
  }

  lemma OpenerCounts(w: World, x: World, cfg: Config, i: nat, peer: nat, n: nat)
    requires Counts(w, x, cfg, n) && i < |x.conns|
    ensures Counts(w, Put(x, i, x.conns[i].(opener := peer)), cfg, n)
  {
    hide NewId, U16;
  }

  lemma OpenIoCounts(w: World, cfg: Config, q: Request)
    requires Inv(w, cfg) && ConfigWf(cfg, |w.conns|)
    ensures Counts(w, OpenIo(w, cfg, q).0, cfg, if PickIo(w, cfg, q.params).Found? then IdsFor(q.params) else 0)
  {
    hide Balanced, Held, MasterInv, UniqueInv, SlotOk, Configure, Activate, PickIo, IdsFor, Fresh, Counts, Calm;
    CalmSelf(w);
    CalmCounts(w, w, cfg);
    match PickIo(w, cfg, q.params)
    case Refused(e) =>
    case Found(i, kind) =>
      PickIsFree(w, cfg, q.params);
      var w1 := Put(w, i, if kind == ExclusiveOwner then w.conns[i] else w.conns[i].(state := Configuring));
      ConfigureCalm(w1, cfg, i, q.params, kind);
      var v := Configure(w1, cfg, i, q.params, kind);
      ActivateCounts(w, v, cfg, i, q, IdsFor(q.params));
      OpenerCounts(w, Activate(v, cfg, i, q).0, cfg, i, q.peer, IdsFor(q.params));
  }

  /** The connection ids a step takes: the count of ids moves by at most two. */
  function Taken(w: World, cfg: Config, s: Step): nat
    requires Ready(w) && ConfigFits(cfg, |w.conns|)
  {
    U16(Do(w, cfg, s).lastId - w.lastId)
  }

  lemma TakenIs(w: World, r: World, cfg: Config, n: nat)
    requires Counts(w, r, cfg, n) && w.lastId < TWO16 && n <= 2
    ensures U16(r.lastId - w.lastId) == n && r.lastId < TWO16
  {
  }

  lemma ForwardOpenCounts(w: World, cfg: Config, q: Request)
    requires Inv(w, cfg) && ConfigWf(cfg, |w.conns|) && Resolved(q)
    ensures exists n :: 0 <= n <= 2 && Counts(w, ForwardOpen(w, cfg, q).0, cfg, n)
  {
    hide SlotOk, MasterInv, UniqueInv, Balanced, Held, ForwardOpen, OpenIo, OpenExplicit, Adjusted, TransportClass, PickIo, Counts, IdsFor;
    var r := ForwardOpen(w, cfg, q).0;
    var q1 := q.(params := Adjusted(q.params));
    ForwardOpenTaken(w, cfg, q);
    AtMostTwo(q1.params);
    CalmSelf(w);
    CalmCounts(w, w, cfg);
    OpenIoCounts(w, cfg, q1);
    OpenExplicitCounts(w, cfg, q1);
  }

  lemma AtMostTwo(q: Params)
    ensures IdsFor(q) <= 2
  {
  }

  /** Every step of the stack. */
  lemma StepCounts(w: World, cfg: Config, s: Step)
    requires Inv(w, cfg) && ConfigWf(cfg, |w.conns|) && Legal(s) && w.lastId < TWO16
    ensures var r := Do(w, cfg, s); Counts(w, r, cfg, Taken(w, cfg, s)) && Taken(w, cfg, s) <= 2 && r.lastId < TWO16
  {
    hide SlotOk, MasterInv, UniqueInv, Balanced, Held, ForwardOpen, Close, ManageWalk, CloseClass3, CloseAll, Receive, ReceiveExplicit, Counts, Calm, FindTriad;
    var r := Do(w, cfg, s);
    CalmSelf(w);
    match s {
      case Open(q) => ForwardOpenCounts(w, cfg, q);
      case CloseRequest(t, peer) => if FindTriad(w.conns, w.active, t).Some? { CloseCalm(w, FindTriad(w.conns, w.active, t).value); }
      case Manage(changed) => ManageCalm(w, cfg, w.active, changed);
      case Frame(cid, from, seqNum, count) => FrameCalm(w, cid, from, seqNum, count);
      case Message(cid) => FrameCalm(w, cid, 0, 0, 0);
      case SessionOpened(h) => ListCalm(w, w, r);
      case SessionAged(h) =>
        CloseClass3Calm(w, w.active, h);
        ListCalm(w, CloseClass3(w, w.active, h), r);
      case Elapse(usecs) => ListCalm(w, w, r);
      case Shutdown => CloseAllCalm(w);
    }
    if Calm(w, r) { CalmCounts(w, r, cfg); }
    var n :| 0 <= n <= 2 && Counts(w, r, cfg, n);
    TakenIs(w, r, cfg, n);
  }

  lemma FrameCalm(w: World, cid: nat, from: nat, seqNum: nat, count: nat)
    requires Ready(w)
    ensures Calm(w, Receive(w, cid, from, seqNum, count)) && Calm(w, ReceiveExplicit(w, cid))
  {
    hide FindConsumer, RxTimeout, Diff32, Diff16, U32, TransportClass, Calm;
    CalmSelf(w);
    match FindConsumer(w.conns, w.active, cid)
    case None =>
    case Some(i) =>
      PutCalm(w, i, Receive(w, cid, from, seqNum, count).conns[i]);
      PutCalm(w, i, ReceiveExplicit(w, cid).conns[i]);
      assert w == Put(w, i, w.conns[i]);
  }

  lemma PutCalm(w: World, i: nat, c: Conn)
    requires Ready(w) && i < |w.conns| && c.eipProducing == w.conns[i].eipProducing
    requires c.params == w.conns[i].params && c.producingUdp == w.conns[i].producingUdp
    ensures Calm(w, Put(w, i, c))
  {
  }

  /** Sessions and time do not matter. */
  lemma ListCalm(w: World, v: World, r: World)
    requires Calm(w, v) && Ready(r) && r.conns == v.conns && r.active == v.active && r.lastId == v.lastId
    ensures Calm(w, r)
  {
  }

  // ----- Counts over all runs

  /** The listed connections that hold a producing socket, or held one before (`had`). */
  function Remembered(r: World, had: set<nat>): set<nat>
    requires Ready(r)
  {
    set k | k in r.active && (k in had || r.conns[k].producingUdp.Some?)
  }

  /** The listed connections that have held a producing socket after some step of the run since
      they were opened. */
  function Senders(w: World, cfg: Config, had: set<nat>, steps: seq<Step>): set<nat>
    requires Ready(w) && ConfigFits(cfg, |w.conns|)
    decreases |steps|
  {
    if steps == [] then had
    else
      var r := Do(w, cfg, steps[0]);
      Senders(r, cfg, Remembered(r, had), steps[1..])
  }

  /** The others have not counted yet. */
  ghost predicate Quiet(w: World, had: set<nat>) {
    && Ready(w) && Bounded(w) && w.lastId < TWO16
    && (forall k :: k in w.active && k !in had ==> w.conns[k].producingUdp.None? && w.conns[k].eipProducing == 0)
  }

  lemma StepQuiet(w: World, cfg: Config, had: set<nat>, s: Step)
    requires Inv(w, cfg) && ConfigWf(cfg, |w.conns|) && Legal(s) && Quiet(w, had)
    ensures Quiet(Do(w, cfg, s), Remembered(Do(w, cfg, s), had))
  {
    hide SlotOk, MasterInv, UniqueInv, Balanced, Held, Do, Taken, Bounded;
    StepCounts(w, cfg, s);
  }

  lemma {:induction false} RunQuiet(w: World, cfg: Config, had: set<nat>, steps: seq<Step>)
    requires Inv(w, cfg) && ConfigWf(cfg, |w.conns|) && Quiet(w, had)
    requires forall k :: 0 <= k < |steps| ==> Legal(steps[k])
    ensures Quiet(Run(w, cfg, steps), Senders(w, cfg, had, steps))
    decreases |steps|
  {
    hide SlotOk, MasterInv, UniqueInv, Balanced, Held, Do, Quiet, Remembered;
    if steps != [] {
      StepKeeps(w, cfg, steps[0]);
      StepQuiet(w, cfg, had, steps[0]);
      var r := Do(w, cfg, steps[0]);
      RunQuiet(r, cfg, Remembered(r, had), steps[1..]);
    }
  }

  /** After any run a connection that never held a producing socket has sent nothing: its count
      is 0. */
  lemma NeverHeldIsZero(cfg: Config, n: nat, now: nat, steps: seq<Step>)
    requires Possible(cfg, n, steps)
    ensures var w := Reached(cfg, n, now, steps);
            && Quiet(w, Senders(Boot(n, now), cfg, {}, steps))
            && forall k :: 0 <= k < n ==> w.conns[k].eipProducing < TWO32
  {
    hide SlotOk, MasterInv, UniqueInv, Balanced, Held, Senders, Run;
    BootInv(n, cfg, now);
    RunQuiet(Boot(n, now), cfg, {}, steps);
  }

  /** The first frame of a stream that starts over, to a receiver that is at e: it passes only if
      the old one had not counted yet, or was more than half way round. */
  lemma StartsOver(e: nat)
    requires e < TWO32
    ensures Diff32(1, e) > 0 <==> e == 0 || e > TWO31 + 1
  {
  }

  /** And of such a stream the receiver drops exactly as many frames as the old one had sent. */
  lemma DropsAsMany(e: nat, k: nat)
    requires e < TWO31 && 1 <= k < TWO31
    ensures Diff32(k, e) > 0 <==> k > e
  {
  }

  /** A master that times out, over all runs: if its heir never held the socket, the stream
      starts over at 1, and whether the next frame passes depends on the old master's count
      alone. */
  lemma HeirStartsOver(cfg: Config, n: nat, now: nat, steps: seq<Step>, i: nat, h: nat, changed: bool)
    requires Possible(cfg, n, steps)
    ensures var w := Reached(cfg, n, now, steps);
            && i in w.active && i < n && w.conns[i].kind == InputOnly && Candidate(w.conns[i], w.conns[i].params.inputPt, true)
            && FirstCandidate(w.conns, w.active, w.conns[i].params.inputPt, false) == Some(h)
            && h !in Senders(Boot(n, now), cfg, {}, steps) ==>
              var next := Produce(TimeOut(w, i).conns[h], changed);
              && next.producingUdp == w.conns[i].producingUdp && next.eipProducing == 1
              && (Diff32(next.eipProducing, w.conns[i].eipProducing) > 0
                  <==> w.conns[i].eipProducing == 0 || w.conns[i].eipProducing > TWO31 + 1)
  {
    hide SlotOk, MasterInv, UniqueInv, Balanced, Held, Senders, Reached, TimeOut, FirstCandidate, Diff32;
    var w := Reached(cfg, n, now, steps);
    ReachedInv(cfg, n, now, steps);
    NeverHeldIsZero(cfg, n, now, steps);
    if i in w.active && w.conns[i].kind == InputOnly && Candidate(w.conns[i], w.conns[i].params.inputPt, true)
       && FirstCandidate(w.conns, w.active, w.conns[i].params.inputPt, false) == Some(h) {
      TimeOutStream(w, cfg, i, h, changed);
      StartsOver(w.conns[i].eipProducing);
    }
  }

  // ----- A new owner takes over

  /** The exclusive owner i has taken the socket and the connection id of m, and the counts are
      as they were. */
  ghost predicate TookOver(w: World, r: World, i: nat, m: nat) {
    && i < |w.conns| && m < |w.conns| && i != m && |r.conns| == |w.conns|
    && r.conns[i].producingUdp == w.conns[m].producingUdp
    && r.conns[i].params.producingCid == w.conns[m].params.producingCid
    && r.conns[i].eipProducing == w.conns[i].eipProducing
    && r.conns[m] == w.conns[m].(producingUdp := None)
  }

  lemma OneMaster(w: World, p: int, m: nat)
    requires Ready(w) && MasterInv(w) && m in w.active && Candidate(w.conns[m], p, true)
    ensures FirstCandidate(w.conns, w.active, p, true) == Some(m)
  {
    forall k | k in w.active && k != m ensures !Candidate(w.conns[k], p, true) {
      assert PairOk(w.conns[k], w.conns[m]);
    }
  }

  /** An owner in the middle of being opened, with a master there to take over from. */
  ghost predicate MayTakeOver(w: World, i: nat, m: nat) {
    && Ready(w) && MasterInv(w) && i < |w.conns| && i !in w.active && m in w.active
    && w.conns[i].kind == ExclusiveOwner && w.conns[i].params.producing == Multicast
    && Candidate(w.conns[m], w.conns[i].params.inputPt, true)
  }

  lemma ProducingTakesOver(w: World, cfg: Config, i: nat, q: Request, m: nat)
    requires MayTakeOver(w, i, m)
    ensures TookOver(w, OpenProducing(w, cfg, i, q).0, i, m)
  {
    hide MasterInv, FirstCandidate, Grab;
    OneMaster(w, w.conns[i].params.inputPt, m);
  }

  /** The slot that is opened does not matter to the invariant. */
  lemma ConsumingKeepsMasters(w: World, cfg: Config, i: nat, q: Request, m: nat)
    requires MayTakeOver(w, i, m)
    ensures var v := OpenConsuming(w, cfg, i, q).0;
            MayTakeOver(v, i, m) && v.conns[m] == w.conns[m] && v.conns[i].eipProducing == w.conns[i].eipProducing
  {
    hide MasterInv, Grab, U32;
    var v := OpenConsuming(w, cfg, i, q).0;
    assert v.now == w.now;
    MasterOffList(w, v, i);
  }

  lemma ActivateTakesOver(w: World, cfg: Config, i: nat, q: Request, m: nat)
    requires MayTakeOver(w, i, m)
    ensures var (r, e) := Activate(w, cfg, i, q); e == Success ==> TookOver(w, r, i, m)
  {
    hide MasterInv, OpenConsuming, OpenProducing, Abandon, Candidate;
    var w1 := Put(w, i, w.conns[i].(session := q.session));
    MasterOffList(w, w1, i);
    assert MayTakeOver(w1, i, m);
    ConsumingKeepsMasters(w1, cfg, i, q, m);
    ProducingTakesOver(OpenConsuming(w1, cfg, i, q).0, cfg, i, q, m);
  }

  /** Up to the slot being chosen and configured: who takes over counts from 0. */
  lemma OpenIoTakesOver(w: World, cfg: Config, q: Request, m: nat)
    requires Inv(w, cfg) && ConfigWf(cfg, |w.conns|) && m in w.active && Candidate(w.conns[m], q.params.inputPt, true)
    ensures var (r, e) := OpenIo(w, cfg, q);
            e == Success && r.active != [] && r.conns[r.active[0]].kind == ExclusiveOwner && q.params.producing == Multicast ==>
              && r.conns[r.active[0]].producingUdp == w.conns[m].producingUdp
              && r.conns[r.active[0]].params.producingCid == w.conns[m].params.producingCid
              && r.conns[r.active[0]].eipProducing == 0
              && r.conns[m] == w.conns[m].(producingUdp := None)
  {
    hide Balanced, Held, MasterInv, UniqueInv, SlotOk, Configure, Activate, PickIo, Candidate;
    match PickIo(w, cfg, q.params)
    case Refused(e) =>
    case Found(i, kind) =>
      PickIsFree(w, cfg, q.params);
      var w1 := Put(w, i, if kind == ExclusiveOwner then w.conns[i] else w.conns[i].(state := Configuring));
      var v := Configure(w1, cfg, i, q.params, kind);
      ConfiguredOwner(w1, cfg, i, q.params, kind);
      MasterOffList(w, v, i);
      ActivateCalm(v, cfg, i, q);
      if kind == ExclusiveOwner && q.params.producing == Multicast {
        ActivateTakesOver(v, cfg, i, q, m);
      }
  }

  lemma ConfiguredOwner(w: World, cfg: Config, i: nat, q: Params, kind: Kind)
    requires i < |w.conns|
    ensures var r := Configure(w, cfg, i, q, kind);
            && r == w.(conns := w.conns[i := r.conns[i]], lastId := r.lastId)
            && r.conns[i].kind == kind && r.conns[i].eipProducing == 0
            && r.conns[i].params.producing == q.producing && r.conns[i].params.inputPt == q.inputPt
  {
    hide RxTimeout, RoundUpToTick;
  }

  /** A new exclusive owner of a point that has a master gets the master's socket and connection
      id, but counts from the start. A receiver that is up to date with the master takes the
      owner's first frame only if the master had not counted yet, or more than half way round. */
  lemma OwnerStartsOver(w: World, cfg: Config, q: Request, m: nat, changed: bool)
    requires Inv(w, cfg) && ConfigWf(cfg, |w.conns|) && Resolved(q) && Bounded(w)
    requires q.params.producing == Multicast && m in w.active && Candidate(w.conns[m], q.params.inputPt, true)
    ensures var (r, e) := ForwardOpen(w, cfg, q);
            e == Success && r.active != [] && r.conns[r.active[0]].kind == ExclusiveOwner ==>
              var next := Produce(r.conns[r.active[0]], changed);
              && next.producingUdp == w.conns[m].producingUdp && r.conns[m].producingUdp == None
              && next.params.producingCid == w.conns[m].params.producingCid && next.eipProducing == 1
              && (Diff32(next.eipProducing, w.conns[m].eipProducing) > 0
                  <==> w.conns[m].eipProducing == 0 || w.conns[m].eipProducing > TWO31 + 1)
  {
    hide SlotOk, MasterInv, UniqueInv, Balanced, Held, ForwardOpen, OpenIo, OpenExplicit, Candidate, Diff32, ConfigWf;
    ForwardOpenKeeps(w, cfg, q);
    ConfigWfFits(cfg, |w.conns|);
    ForwardOpenTaken(w, cfg, q);
    var q1 := q.(params := Adjusted(q.params));
    ExplicitKind(w, cfg, q1);
    OpenIoTakesOver(w, cfg, q1, m);
    StartsOver(w.conns[m].eipProducing);
  }

  lemma ExplicitKind(w: World, cfg: Config, q: Request)
    requires Ready(w) && ConfigFits(cfg, |w.conns|)
    ensures var (r, e) := OpenExplicit(w, cfg, q); e == Success ==> r.conns[r.active[0]].kind == Explicit
  {
    hide RxTimeout, RoundUpToTick, SelectIds;
  }

  // ----- Connection ids over all runs

  /** For each listed point to point consumer, how many ids were taken since its own. */
  function Aged(w: World, r: World, n: nat, ages: map<nat, nat>): map<nat, nat>
    requires Ready(r)
  {
    map k | k in r.active :: if k in w.active && k in ages then ages[k] + n else if n > 0 then n - 1 else 0
  }

  function Ages(w: World, cfg: Config, ages: map<nat, nat>, steps: seq<Step>): map<nat, nat>
    requires Ready(w) && ConfigFits(cfg, |w.conns|)
    decreases |steps|
  {
    if steps == [] then ages
    else
      var r := Do(w, cfg, steps[0]);
      Ages(r, cfg, Aged(w, r, Taken(w, cfg, steps[0]), ages), steps[1..])
  }

  /** All ids taken in a run. */
  function AllTaken(w: World, cfg: Config, steps: seq<Step>): nat
    requires Ready(w) && ConfigFits(cfg, |w.conns|)
    decreases |steps|
  {
    if steps == [] then 0 else Taken(w, cfg, steps[0]) + AllTaken(Do(w, cfg, steps[0]), cfg, steps[1..])
  }

  predicate P2P(c: Conn) { c.params.consuming == PointToPoint }

  /** The consuming ids of point to point connections are the count of ids, less their age; no
      two have the same age. */
  ghost predicate AgesOk(w: World, cfg: Config, ages: map<nat, nat>, total: nat) {
    && Ready(w) && w.lastId < TWO16
    && (forall k :: k in w.active && P2P(w.conns[k]) ==>
          k in ages && ages[k] < total && w.conns[k].params.consumingCid == cfg.incarnation * TWO16 + U16(w.lastId - ages[k]))
    && (forall j, k :: j in w.active && k in w.active && j != k && P2P(w.conns[j]) && P2P(w.conns[k]) ==> ages[j] != ages[k])
  }

  lemma WrapLater(last: nat, n: nat, age: int)
    ensures U16(U16(last + n) - (age + n)) == U16(last - age)
  {
    var q := (last + n) / TWO16;
    assert U16(last + n) - (age + n) == (last - age) - q * TWO16;
  }

  /** One connection's id and age after a step. */
  lemma AgeAfter(w: World, r: World, cfg: Config, ages: map<nat, nat>, total: nat, n: nat, k: nat)
    requires Counts(w, r, cfg, n) && AgesOk(w, cfg, ages, total) && k in r.active && P2P(r.conns[k])
    ensures var aged := Aged(w, r, n, ages);
            && k in aged && aged[k] < total + n && (k in w.active ==> aged[k] >= n) && (k !in w.active ==> aged[k] < n)
            && r.conns[k].params.consumingCid == cfg.incarnation * TWO16 + U16(r.lastId - aged[k])
  {
    hide U16, Bounded;
    if k in w.active {
      WrapLater(w.lastId, n, ages[k]);
    } else {
      WrapLater(w.lastId, n, -1);
    }
  }

  lemma CountsAges(w: World, r: World, cfg: Config, ages: map<nat, nat>, total: nat, n: nat)
    requires Counts(w, r, cfg, n) && AgesOk(w, cfg, ages, total)
    ensures AgesOk(r, cfg, Aged(w, r, n, ages), total + n)
  {
    hide U16, Bounded, Fresh;
    var aged := Aged(w, r, n, ages);
    assert r.lastId < TWO16 by { assert U16(w.lastId + n) < TWO16; }
    forall k | k in r.active && P2P(r.conns[k])
      ensures k in aged && aged[k] < total + n
      ensures r.conns[k].params.consumingCid == cfg.incarnation * TWO16 + U16(r.lastId - aged[k])
    {
      AgeAfter(w, r, cfg, ages, total, n, k);
    }
    forall j, k | j in r.active && k in r.active && j != k && P2P(r.conns[j]) && P2P(r.conns[k]) ensures aged[j] != aged[k] {
      AgeAfter(w, r, cfg, ages, total, n, j);
      AgeAfter(w, r, cfg, ages, total, n, k);
    }
  }

  lemma {:induction false} RunAges(w: World, cfg: Config, ages: map<nat, nat>, total: nat, steps: seq<Step>)
    requires Inv(w, cfg) && ConfigWf(cfg, |w.conns|) && AgesOk(w, cfg, ages, total)
    requires forall k :: 0 <= k < |steps| ==> Legal(steps[k])
    ensures AgesOk(Run(w, cfg, steps), cfg, Ages(w, cfg, ages, steps), total + AllTaken(w, cfg, steps))
    decreases |steps|
  {
    hide SlotOk, MasterInv, UniqueInv, Balanced, Held, Do, Taken, Counts, Aged;
    if steps != [] {
      var s := steps[0];
      StepKeeps(w, cfg, s);
      StepCounts(w, cfg, s);
      var r := Do(w, cfg, s);
      CountsAges(w, r, cfg, ages, total, Taken(w, cfg, s));
      RunAges(r, cfg, Aged(w, r, Taken(w, cfg, s), ages), total + Taken(w, cfg, s), steps[1..]);
    }
  }

  lemma SameWord(a: int, b: int)
    ensures U16(a) == U16(b) <==> (a - b) % TWO16 == 0
  {
    var qa, qb := a / TWO16, b / TWO16;
    assert a - b == U16(a) - U16(b) + (qa - qb) * TWO16;
  }

  /** After any run two listed point to point consumers have the same consuming id exactly when
      the numbers of ids taken since theirs differ by a multiple of 2^16; so never while a run
      takes no more than 2^16 ids. */
  lemma ConsumingIds(cfg: Config, n: nat, now: nat, steps: seq<Step>, i: nat, j: nat)
    requires Possible(cfg, n, steps)
    ensures var w := Reached(cfg, n, now, steps);
            var ages := Ages(Boot(n, now), cfg, map[], steps);
            i in w.active && j in w.active && i != j && P2P(w.conns[i]) && P2P(w.conns[j]) ==>
              && i in ages && j in ages && ages[i] != ages[j]
              && (w.conns[i].params.consumingCid == w.conns[j].params.consumingCid <==> (ages[i] - ages[j]) % TWO16 == 0)
              && (AllTaken(Boot(n, now), cfg, steps) <= TWO16 ==> w.conns[i].params.consumingCid != w.conns[j].params.consumingCid)
  {
    hide SlotOk, MasterInv, UniqueInv, Balanced, Held, Ages, AllTaken, Run, U16;
    BootInv(n, cfg, now);
    RunAges(Boot(n, now), cfg, map[], 0, steps);
    var w := Reached(cfg, n, now, steps);
    var ages := Ages(Boot(n, now), cfg, map[], steps);
    if i in w.active && j in w.active && i != j && P2P(w.conns[i]) && P2P(w.conns[j]) {
      SameWord(w.lastId - ages[i], w.lastId - ages[j]);
      if AllTaken(Boot(n, now), cfg, steps) <= TWO16 {
        NotAMultiple(ages[i], ages[j]);
      }
      assert (0 - (ages[i] - ages[j])) % TWO16 == 0 <==> (ages[i] - ages[j]) % TWO16 == 0;
    }
  }

  lemma NotAMultiple(a: nat, b: nat)
    requires a != b && a < TWO16 && b < TWO16
    ensures (b - a) % TWO16 != 0
  {
  }

  /** The next id taken is the one connection i still has exactly when, counting it, a multiple
      of 2^16 ids has been taken since. */
  lemma NextIdClash(cfg: Config, n: nat, now: nat, steps: seq<Step>, i: nat)
    requires Possible(cfg, n, steps)
    ensures var w := Reached(cfg, n, now, steps);
            var ages := Ages(Boot(n, now), cfg, map[], steps);
            i in w.active && P2P(w.conns[i]) ==>
              i in ages && (NewId(cfg, w.lastId) == w.conns[i].params.consumingCid <==> (ages[i] + 1) % TWO16 == 0)
  {
    hide SlotOk, MasterInv, UniqueInv, Balanced, Held, Ages, AllTaken, Run, U16;
    BootInv(n, cfg, now);
    RunAges(Boot(n, now), cfg, map[], 0, steps);
    var w := Reached(cfg, n, now, steps);
    var ages := Ages(Boot(n, now), cfg, map[], steps);
    if i in w.active && P2P(w.conns[i]) {
      SameWord(w.lastId + 1, w.lastId - ages[i]);
    }
  }

  lemma {:induction false} FindsIt(cs: seq<Conn>, s: seq<nat>, cid: nat, i: nat)
    requires InRange(s, |cs|) && i in s && cs[i].state == Established && cs[i].params.consumingCid == cid
    requires forall k :: k in s && k != i ==> cs[k].params.consumingCid != cid
    ensures FindConsumer(cs, s, cid) == Some(i)
  {
    if s[0] != i {
      FindsIt(cs, s[1..], cid, i);
    }
  }

  /** A frame reaches the point to point connection it is sent on, in any run that takes no more
      than 2^16 ids, unless an originator chose the same id for a connection of another kind. */
  lemma FrameArrives(cfg: Config, n: nat, now: nat, steps: seq<Step>, i: nat)
    requires Possible(cfg, n, steps)
    ensures var w := Reached(cfg, n, now, steps);
            && AllTaken(Boot(n, now), cfg, steps) <= TWO16 && i in w.active && P2P(w.conns[i])
            && (forall k :: k in w.active && !P2P(w.conns[k]) ==> w.conns[k].params.consumingCid != w.conns[i].params.consumingCid) ==>
              FindConsumer(w.conns, w.active, w.conns[i].params.consumingCid) == Some(i)
  {
    hide MasterInv, UniqueInv, Balanced, Held, Ages, AllTaken, Reached, FindConsumer;
    ReachedInv(cfg, n, now, steps);
    var w := Reached(cfg, n, now, steps);
    if AllTaken(Boot(n, now), cfg, steps) <= TWO16 && i in w.active && P2P(w.conns[i])
       && forall k :: k in w.active && !P2P(w.conns[k]) ==> w.conns[k].params.consumingCid != w.conns[i].params.consumingCid {
      assert SlotOk(w, i);
      forall k | k in w.active && k != i ensures w.conns[k].params.consumingCid != w.conns[i].params.consumingCid {
        ConsumingIds(cfg, n, now, steps, k, i);
      }
      FindsIt(w.conns, w.active, w.conns[i].params.consumingCid, i);
    }
  }
}
