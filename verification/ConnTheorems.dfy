/** What the invariants mean for a user of the stack, over all runs from start-up. */
module ConnTheorems {
  import opened Words
  import opened SocketSpec
  import opened SocketInv
  import opened ConnSpec
  import opened ConnInv
  import opened ConnOpen
  import opened ConnRuns

  // ----- Reachable states

  /** A run the stack can make: its pools are laid out properly, its requests resolvable. */
  ghost predicate Possible(cfg: Config, n: nat, steps: seq<Step>) {
    ConfigWf(cfg, n) && forall k :: 0 <= k < |steps| ==> Legal(steps[k])
  }

  /** The state after a run from start-up with n slots. */
  function Reached(cfg: Config, n: nat, now: nat, steps: seq<Step>): (w: World)
    requires ConfigFits(cfg, n)
    ensures Ready(w) && |w.conns| == n
  {
    Run(Boot(n, now), cfg, steps)
  }

  lemma ReachedInv(cfg: Config, n: nat, now: nat, steps: seq<Step>)
    requires Possible(cfg, n, steps)
    ensures Inv(Reached(cfg, n, now, steps), cfg)
  {
    hide Balanced, Held, MasterInv, UniqueInv, SlotOk, Run;
    BootInv(n, cfg, now);
    RunKeeps(Boot(n, now), cfg, steps);
  }

  /** m alone holds the producing socket of its point, and everyone shares its id. */
  ghost predicate SoleMaster(w: World, p: int, m: nat)
    requires Ready(w)
  {
    && m in w.active && Candidate(w.conns[m], p, true)
    && (forall k :: k in w.active && k != m && Multi(w.conns[k]) && w.conns[k].params.inputPt == p ==>
          w.conns[k].producingUdp.None? && w.conns[k].params.producingCid == w.conns[m].params.producingCid)
  }

  /** Master invariant: after any run, any listed multicast producer of an input point, a
      listen-only one included, has exactly one master, which is not listen-only. */
  lemma MasterTheorem(cfg: Config, n: nat, now: nat, steps: seq<Step>, k: nat)
    requires Possible(cfg, n, steps)
    ensures var w := Reached(cfg, n, now, steps);
            k in w.active && Multi(w.conns[k]) ==>
              && (exists m :: SoleMaster(w, w.conns[k].params.inputPt, m))
              && (forall m, l :: SoleMaster(w, w.conns[k].params.inputPt, m) && SoleMaster(w, w.conns[k].params.inputPt, l) ==> m == l)
  {
    hide Balanced, Held, UniqueInv, Reached;
    ReachedInv(cfg, n, now, steps);
    var w := Reached(cfg, n, now, steps);
    if k in w.active && Multi(w.conns[k]) {
      HasSoleMaster(w, k);
    }
  }

  lemma HasSoleMaster(w: World, k: nat)
    requires Ready(w) && MasterInv(w) && k in w.active && Multi(w.conns[k])
    ensures exists m :: SoleMaster(w, w.conns[k].params.inputPt, m)
    ensures forall m, l :: SoleMaster(w, w.conns[k].params.inputPt, m) && SoleMaster(w, w.conns[k].params.inputPt, l) ==> m == l
  {
    var p := w.conns[k].params.inputPt;
    assert HasMaster(w, p);
    var m :| m in w.active && Candidate(w.conns[m], p, true);
    forall j | j in w.active && j != m && Multi(w.conns[j]) && w.conns[j].params.inputPt == p
      ensures w.conns[j].producingUdp.None? && w.conns[j].params.producingCid == w.conns[m].params.producingCid
    {
      assert PairOk(w.conns[m], w.conns[j]);
    }
    assert SoleMaster(w, p, m);
  }

  /** What conservation means for the record id. */
  ghost predicate Conserved(w: World, id: nat)
    requires Ready(w) && id < |w.udp.recs|
  {
    && (id in w.udp.sockets ==>
          w.udp.recs[id].refs == Held(w.conns)[id] + GroupRefs(w.udp.recs, w.udp.groups, id))
    && (id in w.udp.groups ==> w.udp.recs[id].refs == Held(w.conns)[id] && w.udp.recs[id].refs >= 1)
    && (id in w.udp.free ==> Held(w.conns)[id] == 0)
  }

  /** Socket conservation: after any run the references of a socket are the ends of listed
      connections that hold it plus those of the groups joined on it, those of a group are the
      ends that hold it, and no end holds a recycled record. */
  lemma ConservationTheorem(cfg: Config, n: nat, now: nat, steps: seq<Step>)
    requires Possible(cfg, n, steps)
    ensures var w := Reached(cfg, n, now, steps);
            && (forall id :: 0 <= id < |w.udp.recs| ==> Conserved(w, id))
            && (forall i :: 0 <= i < n && i !in w.active ==> HeldBy(w.conns[i]) == multiset{})
  {
    hide Reached, Held, HeldBy, MasterInv, UniqueInv;
    ReachedInv(cfg, n, now, steps);
    var w := Reached(cfg, n, now, steps);
    forall id | 0 <= id < |w.udp.recs| ensures Conserved(w, id) {
      assert Accounted(w.udp, Held(w.conns), id);
      assert id in w.udp.groups ==> GroupWf(w.udp, id);
    }
    forall i | 0 <= i < n && i !in w.active ensures HeldBy(w.conns[i]) == multiset{} {
      assert SlotOk(w, i);
      HoldsNothing(w.conns[i]);
    }
  }

  lemma HoldsNothing(c: Conn)
    requires c.consumingUdp.None? && c.producingUdp.None?
    ensures HeldBy(c) == multiset{}
  {
  }

  /** Pools and list agree after any run: the list has no duplicates, and a slot is Established
      exactly when listed and NonExistent otherwise. */
  lemma PoolTheorem(cfg: Config, n: nat, now: nat, steps: seq<Step>)
    requires Possible(cfg, n, steps)
    ensures var w := Reached(cfg, n, now, steps);
            && NoDup(w.active)
            && (forall i :: 0 <= i < n ==> w.conns[i].state == (if i in w.active then Established else NonExistent))
  {
    hide Balanced, Held, MasterInv, UniqueInv, Reached;
    ReachedInv(cfg, n, now, steps);
    var w := Reached(cfg, n, now, steps);
    forall i | 0 <= i < n ensures w.conns[i].state == (if i in w.active then Established else NonExistent) {
      assert SlotOk(w, i);
    }
  }

  /** After any run no two listed connections have the same triad, and no two listed exclusive
      owners consume the same output assembly. */
  lemma UniqueTheorem(cfg: Config, n: nat, now: nat, steps: seq<Step>)
    requires Possible(cfg, n, steps)
    ensures var w := Reached(cfg, n, now, steps);
            forall i, j :: i in w.active && j in w.active && i != j ==>
              && w.conns[i].params.triad != w.conns[j].params.triad
              && !(w.conns[i].kind == ExclusiveOwner && w.conns[j].kind == ExclusiveOwner
                   && w.conns[i].params.outputPt == w.conns[j].params.outputPt)
  {
    hide Balanced, Held, MasterInv, Reached;
    ReachedInv(cfg, n, now, steps);
    var w := Reached(cfg, n, now, steps);
    forall i, j | i in w.active && j in w.active && i != j
      ensures w.conns[i].params.triad != w.conns[j].params.triad
              && !(w.conns[i].kind == ExclusiveOwner && w.conns[j].kind == ExclusiveOwner
                   && w.conns[i].params.outputPt == w.conns[j].params.outputPt)
    {
      assert Distinct(w.conns[i], w.conns[j]);
    }
  }

  lemma {:induction false} HeldPointwise(a: seq<Conn>, b: seq<Conn>)
    requires |a| == |b| && forall i :: 0 <= i < |a| ==> HeldBy(a[i]) == HeldBy(b[i])
    ensures Held(a) == Held(b)
  {
    if a != [] {
      HeldPointwise(a[1..], b[1..]);
    }
  }

  /** A refused or failed open restores everything: the list, every slot's state (so the
      number of free slots), and what every socket is held by. */
  lemma FailedOpenRestores(w: World, cfg: Config, q: Request)
    requires Inv(w, cfg) && ConfigWf(cfg, |w.conns|) && Resolved(q)
    ensures var (r, e) := ForwardOpen(w, cfg, q);
            e != Success ==>
              && r.active == w.active
              && (forall k :: 0 <= k < |w.conns| ==> r.conns[k].state == w.conns[k].state)
              && (forall k :: k in w.active ==> r.conns[k] == w.conns[k])
              && Held(r.conns) == Held(w.conns)
              && Balanced(r.udp, Held(w.conns))
  {
    hide Balanced, Held, MasterInv, UniqueInv, ForwardOpen;
    ForwardOpenKeeps(w, cfg, q);
    var (r, e) := ForwardOpen(w, cfg, q);
    if e != Success {
      SameHolders(w, r, cfg);
    }
  }

  /** With list and listed connections the same, so are all states and all holders. */
  lemma SameHolders(w: World, r: World, cfg: Config)
    requires Inv(w, cfg) && Inv(r, cfg) && |r.conns| == |w.conns|
    requires r.active == w.active && forall k :: k in w.active ==> r.conns[k] == w.conns[k]
    ensures forall k :: 0 <= k < |w.conns| ==> r.conns[k].state == w.conns[k].state
    ensures Held(r.conns) == Held(w.conns) && Balanced(r.udp, Held(w.conns))
  {
    hide Balanced, Held, MasterInv, UniqueInv;
    forall k | 0 <= k < |w.conns| ensures r.conns[k].state == w.conns[k].state && HeldBy(r.conns[k]) == HeldBy(w.conns[k]) {
      assert SlotOk(w, k) && SlotOk(r, k);
    }
    HeldPointwise(r.conns, w.conns);
  }

  // ----- The watchdog

  function ExpiredIn(w: World): (r: set<nat>)
    requires Ready(w)
  {
    set k | k in w.active && Expired(w.conns[k], w.now)
  }

  lemma ProduceShrinks(w: World, i: nat, changed: bool)
    requires Ready(w) && i < |w.conns|
    ensures Shrinks(w, Put(w, i, Produce(w.conns[i], changed)))
  {
  }

  /** A pass only takes connections off the list, the first expired one among them. */
  lemma {:induction false} ManageShrinks(w: World, cfg: Config, s: seq<nat>, changed: set<nat>)
    requires Inv(w, cfg) && InRange(s, |w.conns|)
    ensures var r := ManageWalk(w, s, changed);
            && Shrinks(w, r)
            && ((exists e :: e in s && Expired(w.conns[e], w.now)) ==>
                  exists e :: e in s && e < |w.conns| && Expired(w.conns[e], w.now) && e !in r.active)
            && ((forall e :: e in s ==> !Expired(w.conns[e], w.now)) ==> r.active == w.active)
    decreases |s|
  {
    hide Balanced, Held, MasterInv, UniqueInv, TimeOut;
    if s != [] {
      var i := s[0];
      var c := w.conns[i];
      if Expired(c, w.now) {
        assert SlotOk(w, i);
        TimeOutKeeps(w, cfg, i);
        assert i in s && Expired(w.conns[i], w.now);
      } else {
        DueKeeps(w, cfg, i, i in changed);
        ProduceShrinks(w, i, i in changed);
        var v := if Due(c, w.now) then Put(w, i, Produce(c, i in changed)) else w;
        ManageShrinks(v, cfg, s[1..], changed);
        ShrinksTransitive(w, v, ManageWalk(v, s[1..], changed));
        if e :| e in s && Expired(w.conns[e], w.now) {
          assert e in s[1..] && Expired(v.conns[e], v.now);
          var f :| f in s[1..] && f < |v.conns| && Expired(v.conns[f], v.now) && f !in ManageWalk(v, s[1..], changed).active;
          assert f in s && Expired(w.conns[f], w.now);
        }
      }
    }
  }

  /** Watchdog progress: at a fixed clock a pass that finds an expired connection leaves
      strictly fewer expired ones, and never makes another connection expire; a pass that
      finds none closes nothing. */
  lemma WatchdogProgress(w: World, cfg: Config, changed: set<nat>)
    requires Inv(w, cfg)
    ensures var r := ManageWalk(w, w.active, changed);
            && ExpiredIn(r) <= ExpiredIn(w)
            && (ExpiredIn(w) != {} ==> ExpiredIn(r) < ExpiredIn(w) && |ExpiredIn(r)| < |ExpiredIn(w)|)
            && (ExpiredIn(w) == {} ==> r.active == w.active)
  {
    hide Balanced, Held, MasterInv, UniqueInv, ManageWalk;
    var r := ManageWalk(w, w.active, changed);
    ManageShrinks(w, cfg, w.active, changed);
    assert ExpiredIn(r) <= ExpiredIn(w);
    if ExpiredIn(w) != {} {
      var e :| e in ExpiredIn(w);
      assert e in w.active && Expired(w.conns[e], w.now);
      var f :| f in w.active && f < |w.conns| && Expired(w.conns[f], w.now) && f !in r.active;
      assert f in ExpiredIn(w) && f !in ExpiredIn(r);
      ProperSubsetIsSmaller(ExpiredIn(r), ExpiredIn(w));
    } else {
      forall e | e in w.active ensures !Expired(w.conns[e], w.now) {
        assert e !in ExpiredIn(w);
      }
    }
  }

  lemma ProperSubsetIsSmaller(a: set<nat>, b: set<nat>)
    requires a < b
    ensures |a| < |b|
  {
    var x :| x in b && x !in a;
    assert b == (b - {x}) + {x};
    SubsetIsNotLarger(a, b - {x});
  }

  lemma {:induction false} SubsetIsNotLarger(a: set<nat>, b: set<nat>)
    requires a <= b
    ensures |a| <= |b|
    decreases a
  {
    if a != {} {
      var x :| x in a;
      SubsetIsNotLarger(a - {x}, b - {x});
    }
  }

  function Passes(w: World, ch: seq<set<nat>>): (r: World)
    requires Ready(w)
    ensures Ready(r) && |r.conns| == |w.conns|
    decreases |ch|
  {
    if ch == [] then w else Passes(ManageWalk(w, w.active, ch[0]), ch[1..])
  }

  /** k passes at a fixed clock clear at least k expired connections, or all of them. */
  lemma {:induction false} PassesClear(w: World, cfg: Config, ch: seq<set<nat>>)
    requires Inv(w, cfg)
    ensures |ExpiredIn(Passes(w, ch))| <= (if |ExpiredIn(w)| >= |ch| then |ExpiredIn(w)| - |ch| else 0)
    decreases |ch|
  {
    hide Balanced, Held, MasterInv, UniqueInv, ManageWalk;
    if ch != [] {
      WatchdogProgress(w, cfg, ch[0]);
      ManageKeeps(w, cfg, w.active, ch[0]);
      PassesClear(ManageWalk(w, w.active, ch[0]), cfg, ch[1..]);
    }
  }

  // ----- What a close or a timeout may close

  /** j is closed along with a producer of point p: a listener, or an input-only one. */
  predicate Swept(c: Conn, p: int, inputOnlysToo: bool) {
    c.params.inputPt == p && (c.kind == ListenOnly || (inputOnlysToo && c.kind == InputOnly))
  }

  lemma CloseSpread(w: World, i: nat)
    requires Ready(w) && i < |w.conns|
    ensures forall j :: j in w.active && j !in Close(w, i).active ==>
              j == i || (MasterKind(w.conns[i].kind) && Swept(w.conns[j], w.conns[i].params.inputPt, false))
  {
    hide CloseEach;
    var c := w.conns[i];
    if c.state != NonExistent && MasterKind(c.kind) && c.params.producing == Multicast && c.producingUdp.Some? {
      if FirstCandidate(w.conns, w.active, c.params.inputPt, false).None? {
        ListenersOnly(w, w.active, c.params.inputPt);
      }
    }
  }

  lemma {:induction false} CloseEachSpread(w: World, s: seq<nat>, p: int, t: Kind)
    requires Ready(w) && InRange(s, |w.conns|)
    ensures forall j :: j in w.active && j !in CloseEach(w, s, p, t).active ==>
              w.conns[j].params.inputPt == p && (w.conns[j].kind == t || (MasterKind(t) && w.conns[j].kind == ListenOnly))
    decreases |s|
  {
    hide Close;
    if s != [] {
      var v := if Matches(w.conns[s[0]], p, t) then Close(w, s[0]) else w;
      if Matches(w.conns[s[0]], p, t) {
        CloseShrinks(w, s[0]);
        CloseSpread(w, s[0]);
      }
      CloseEachSpread(v, s[1..], p, t);
      forall j | j in w.active && j !in CloseEach(w, s, p, t).active
        ensures w.conns[j].params.inputPt == p && (w.conns[j].kind == t || (MasterKind(t) && w.conns[j].kind == ListenOnly))
      {
        if j in v.active { assert SameLife(w.conns[j], v.conns[j]); }
      }
    }
  }

  lemma CascadeSpread(w: World, i: nat)
    requires Ready(w) && i < |w.conns|
    ensures forall j :: j in w.active && j !in TimeOutCascade(w, i).active ==>
              w.conns[i].params.producing == Multicast
              && Swept(w.conns[j], w.conns[i].params.inputPt, w.conns[i].kind == ExclusiveOwner)
              && MasterKind(w.conns[i].kind)
  {
    hide CloseEach, FirstCandidate;
    var p := w.conns[i].params.inputPt;
    CloseEachSpread(w, w.active, p, InputOnly);
    CloseEachSpread(w, w.active, p, ListenOnly);
    CloseEachShrinks(w, w.active, p, InputOnly);
    var v := CloseEach(w, w.active, p, InputOnly);
    CloseEachSpread(v, v.active, p, ListenOnly);
  }

  /** A timeout closes the expired connection and, with a master of a point, only
      listeners (with an exclusive owner also input-only connections) of that point. */
  lemma TimeOutSpread(w: World, cfg: Config, i: nat)
    requires Inv(w, cfg) && i in w.active
    ensures forall j :: j in w.active && j !in TimeOut(w, i).active ==>
              j == i || (MasterKind(w.conns[i].kind)
                         && Swept(w.conns[j], w.conns[i].params.inputPt, w.conns[i].kind == ExclusiveOwner))
  {
    hide Balanced, Held, MasterInv, UniqueInv, Close, TimeOutCascade;
    var v := TimeOutCascade(w, i);
    CascadeSpread(w, i);
    CascadeKeeps(w, cfg, i);
    CloseSpread(v, i);
  }

  /** The connection at which a pass stops. */
  function FirstExpired(w: World, s: seq<nat>): (r: Option<nat>)
    requires InRange(s, |w.conns|)
    ensures r.Some? ==> r.value in s && r.value < |w.conns| && Expired(w.conns[r.value], w.now)
    ensures r.None? ==> forall k :: k in s ==> !Expired(w.conns[k], w.now)
  {
    if s == [] then None
    else if Expired(w.conns[s[0]], w.now) then Some(s[0])
    else FirstExpired(w, s[1..])
  }

  /** e is gone, and with it at most the connections its timeout sweeps. */
  ghost predicate SweptWith(w: World, r: World, e: nat) {
    && e in w.active && e < |w.conns| && e !in r.active
    && forall j :: j in w.active && j < |w.conns| && j !in r.active ==>
         j == e || (MasterKind(w.conns[e].kind)
                    && Swept(w.conns[j], w.conns[e].params.inputPt, w.conns[e].kind == ExclusiveOwner))
  }

  /** A whole pass closes the first expired connection on its way and what goes with it, and
      nothing at all if there is none. */
  lemma {:induction false} ManageSpread(w: World, cfg: Config, s: seq<nat>, changed: set<nat>)
    requires Inv(w, cfg) && InRange(s, |w.conns|)
    ensures var r := ManageWalk(w, s, changed);
            match FirstExpired(w, s)
            case None => r.active == w.active
            case Some(e) => SweptWith(w, r, e)
    decreases |s|
  {
    hide Balanced, Held, MasterInv, UniqueInv, TimeOut, Expired, Due;
    if s != [] {
      var i := s[0];
      var c := w.conns[i];
      if Expired(c, w.now) {
        assert i in w.active by { ExpiredIsListed(w, cfg, i); }
        TimeOutKeeps(w, cfg, i);
        TimeOutSpread(w, cfg, i);
      } else {
        DueKeeps(w, cfg, i, i in changed);
        var v := if Due(c, w.now) then Put(w, i, Produce(c, i in changed)) else w;
        ManageSpread(v, cfg, s[1..], changed);
        SameFirstExpired(w, v, s[1..], i);
      }
    }
  }

  lemma ExpiredIsListed(w: World, cfg: Config, i: nat)
    requires Inv(w, cfg) && i < |w.conns| && Expired(w.conns[i], w.now)
    ensures i in w.active
  {
    hide Balanced, Held, MasterInv, UniqueInv;
    assert SlotOk(w, i);
  }

  /** Sending changes nothing the watchdog looks at. */
  lemma {:induction false} SameFirstExpired(w: World, v: World, s: seq<nat>, i: nat)
    requires InRange(s, |w.conns|) && i < |w.conns| && v.now == w.now
    requires v == w || exists changed :: v == Put(w, i, Produce(w.conns[i], changed))
    ensures FirstExpired(v, s) == FirstExpired(w, s)
  {
    if s != [] {
      SameFirstExpired(w, v, s[1..], i);
    }
  }

  /** The TCP session of a timed out connection is closed exactly when no listed connection
      carries its handle any more; no other session is touched. */
  lemma TimeOutSession(w: World, cfg: Config, i: nat)
    requires Inv(w, cfg) && i in w.active
    ensures var r := TimeOut(w, i);
            var h := w.conns[i].session;
            && (forall g :: g != h ==> (g in r.sessions <==> g in w.sessions))
            && (h == 0 ==> r.sessions == w.sessions)
            && (h != 0 ==> (h in r.sessions <==>
                  h in w.sessions && exists k :: k in r.active && r.conns[k].session == h))
  {
    hide Balanced, Held, MasterInv, UniqueInv, Close, TimeOutCascade;
    var v := TimeOutCascade(w, i);
    CascadeSpread(w, i);
    CascadeKeeps(w, cfg, i);
    assert i in v.active;
    assert SameLife(w.conns[i], v.conns[i]);
  }

  // ----- The stream of frames across a change of master

  lemma ShutOthers(w: World, i: nat)
    requires Ready(w) && i < |w.conns|
    ensures forall k :: 0 <= k < |w.conns| && k != i ==> Shut(w, i).conns[k] == w.conns[k]
  {
  }

  /** Closing a master hands the stream over whole: the next frame of the heir carries the
      next encapsulation sequence number, so a receiver that is up to date accepts it. */
  lemma CloseKeepsStream(w: World, i: nat, n: nat, changed: bool)
    requires Ready(w) && i in w.active && w.conns[i].state == Established
    requires Candidate(w.conns[i], w.conns[i].params.inputPt, true)
    requires FirstCandidate(w.conns, w.active, w.conns[i].params.inputPt, false) == Some(n)
    requires w.conns[i].eipProducing < TWO32
    ensures var r := Close(w, i);
            var next := Produce(r.conns[n], changed);
            && next.producingUdp == w.conns[i].producingUdp && next.sendAddr == w.conns[i].sendAddr
            && next.seqProducing == (if changed then U16(w.conns[i].seqProducing + 1) else w.conns[i].seqProducing)
            && next.trigger == U32(w.conns[i].trigger + w.conns[n].params.producingRpi)
            && Diff32(next.eipProducing, w.conns[i].eipProducing) == 1
  {
    hide Shut, FirstCandidate, CloseEach;
    ShutOthers(ConnSpec.HandOver(w, i, n), i);
    assert Close(w, i).conns[n] == ConnSpec.HandOver(w, i, n).conns[n];
    Diff32IsTrueDifference(w.conns[i].eipProducing + 1, w.conns[i].eipProducing);
  }

  /** A timed out input-only master hands over the socket but not the counters: its heir
      goes on from its own count, and an up to date receiver accepts the next frame exactly
      when that count is not behind. */
  lemma TimeOutStream(w: World, cfg: Config, i: nat, n: nat, changed: bool)
    requires Inv(w, cfg) && i in w.active && w.conns[i].kind == InputOnly
    requires Candidate(w.conns[i], w.conns[i].params.inputPt, true)
    requires FirstCandidate(w.conns, w.active, w.conns[i].params.inputPt, false) == Some(n)
    ensures var r := TimeOut(w, i);
            var next := Produce(r.conns[n], changed);
            && next.producingUdp == w.conns[i].producingUdp
            && next.trigger == U32(w.conns[i].trigger + w.conns[n].params.producingRpi)
            && next.sendAddr == w.conns[n].sendAddr
            && next.seqProducing == (if changed then U16(w.conns[n].seqProducing + 1) else w.conns[n].seqProducing)
            && next.eipProducing == U32(w.conns[n].eipProducing + 1)
            && (Diff32(next.eipProducing, w.conns[i].eipProducing) > 0
                <==> 0 <= Diff32(w.conns[n].eipProducing, w.conns[i].eipProducing) < TWO31 - 1)
  {
    hide Balanced, Held, MasterInv, UniqueInv, Shut, FirstCandidate, CloseEach;
    var v := TimeOutCascade(w, i);
    assert v == ConnSpec.HandOverSocket(w, i, n);
    assert SlotOk(w, i);
    assert Close(v, i) == Shut(v, i);
    ShutOthers(v, i);
    assert TimeOut(w, i).conns[n] == v.conns[n];
    SuccessorIsAhead(w.conns[n].eipProducing, w.conns[i].eipProducing);
  }

  /** Counting one on moves the signed distance by one, up to the wrap. */
  lemma SuccessorIsAhead(a: nat, b: nat)
    ensures Diff32(U32(a + 1), b) > 0 <==> 0 <= Diff32(a, b) < TWO31 - 1
  {
    var d: int := (a - b) % TWO32;
    assert (a + 1 - b) % TWO32 == (d + 1) % TWO32 by {
      WrapPlus(a - b, 1);
    }
    assert (U32(a + 1) - b) % TWO32 == (a + 1 - b) % TWO32 by {
      WrapPlus(a + 1, 0 - b);
    }
  }
}
