/** When data go out: what a timer pass sends, and how many frames over a run of passes. */
module ConnSchedule {
  import opened Words
  import opened SocketSpec
  import opened SocketInv
  import opened ConnSpec
  import opened ConnInv
  import opened ConnOpen
  import opened ConnRuns
  import opened ConnTheorems

  /** A connection that produces cyclically: an open client with an interval and the socket. */
  predicate Sender(c: Conn) {
    c.state == Established && !IsServer(c.params.transport) && c.rate != 0 && c.producingUdp.Some?
  }

  /** Its next frame is due at the true time `due`. */
  predicate DueAt(c: Conn, due: nat) {
    c.trigger == U32(due)
  }

  /** What one pass at true time t makes of connection c, whose frame is due at `due`: if that
      time has come one frame goes out, counted, and the next is due one producing interval
      after this one was. Otherwise nothing changes. */
  ghost predicate SentOnTime(c: Conn, d: Conn, due: nat, t: nat, changed: bool) {
    if Sender(c) && t >= due then
      && d == c.(eipProducing := U32(c.eipProducing + 1), seqProducing := d.seqProducing, trigger := d.trigger)
      && d.seqProducing == (if changed then U16(c.seqProducing + 1) else c.seqProducing)
      && DueAt(d, due + c.params.producingRpi)
    else d == c
  }

  lemma ProducedOnTime(c: Conn, due: nat, t: nat, changed: bool)
    requires DueAt(c, due) && -TWO31 <= due - t < TWO31
    ensures Due(c, U32(t)) <==> Sender(c) && t >= due
    ensures SentOnTime(c, if Due(c, U32(t)) then Produce(c, changed) else c, due, t, changed)
  {
    hide Diff32;
    Diff32IsTrueDifference(due, t);
    WrapPlus(due, c.params.producingRpi);
  }

  /** A pass of the timers in which nothing expires, connection by connection. */
  lemma {:induction false} PassSends(w: World, s: seq<nat>, changed: set<nat>, k: nat)
    requires Ready(w) && InRange(s, |w.conns|) && NoDup(s) && FirstExpired(w, s).None? && k < |w.conns|
    ensures var r := ManageWalk(w, s, changed);
            && r.active == w.active && r.now == w.now
            && r.conns[k] == if k in s && Due(w.conns[k], w.now) then Produce(w.conns[k], k in changed) else w.conns[k]
    decreases |s|
  {
    hide Due, Produce, Expired;
    if s != [] {
      var i := s[0];
      var v := if Due(w.conns[i], w.now) then Put(w, i, Produce(w.conns[i], i in changed)) else w;
      assert w.conns[i := w.conns[i]] == w.conns;
      SameFirstExpired(w, v, s[1..], i);
      Once(s);
      PassSends(v, s[1..], changed, k);
    }
  }

  lemma Once(s: seq<nat>)
    requires s != [] && NoDup(s)
    ensures s[0] !in s[1..] && NoDup(s[1..])
  {
  }

  // ----- Over a run of passes

  /** Some time passes, and then the timers. */
  datatype Beat = Beat(gap: nat, changed: set<nat>)

  function After(w: World, cfg: Config, b: Beat): (r: World)
    requires Ready(w) && ConfigFits(cfg, |w.conns|)
    ensures Ready(r) && |r.conns| == |w.conns|
  {
    Do(Do(w, cfg, Elapse(b.gap)), cfg, Manage(b.changed))
  }

  function Beats(w: World, cfg: Config, bs: seq<Beat>): (r: World)
    requires Ready(w) && ConfigFits(cfg, |w.conns|)
    ensures Ready(r) && |r.conns| == |w.conns|
    decreases |bs|
  {
    if bs == [] then w else Beats(After(w, cfg, bs[0]), cfg, bs[1..])
  }

  /** No connection expires on the way. */
  predicate Undisturbed(w: World, cfg: Config, bs: seq<Beat>)
    requires Ready(w) && ConfigFits(cfg, |w.conns|)
    decreases |bs|
  {
    bs == [] || (FirstExpired(Do(w, cfg, Elapse(bs[0].gap)), w.active).None? && Undisturbed(After(w, cfg, bs[0]), cfg, bs[1..]))
  }

  /** Every pass comes before a second frame is due. */
  predicate KeepsUp(due: nat, rpi: nat, t: nat, bs: seq<Beat>)
    decreases |bs|
  {
    bs == [] ||
    var t1 := t + bs[0].gap;
    t1 < due + rpi && KeepsUp(if t1 >= due then due + rpi else due, rpi, t1, bs[1..])
  }

  function TimeAfter(t: nat, bs: seq<Beat>): nat
    decreases |bs|
  {
    if bs == [] then t else TimeAfter(t + bs[0].gap, bs[1..])
  }

  /** How many of the times due, due + rpi, due + 2 * rpi, ... have come by time t. */
  function Frames(due: nat, rpi: nat, t: nat): nat
    requires rpi > 0
  {
    if t < due then 0 else (t - due) / rpi + 1
  }

  lemma AtLeast(a: int, n: nat)
    requires n > 0
    ensures a >= 1 ==> a * n >= n
    ensures a <= -1 ==> a * n <= 0 - n
  {
  }

  lemma QuotientIs(x: int, n: nat, q: int, r: nat)
    requires r < n && x == q * n + r
    ensures x / n == q
  {
    var p := x / n;
    assert x == p * n + x % n;
    assert (p - q) * n == r - x % n;
    AtLeast(p - q, n);
  }

  lemma OneLess(x: nat, n: nat)
    requires n > 0
    ensures (x - n) / n == x / n - 1
  {
    var q, r := x / n, x % n;
    assert x == q * n + r;
    assert x - n == (q - 1) * n + r;
    QuotientIs(x - n, n, q - 1, r);
  }

  lemma OneFrameLess(due: nat, rpi: nat, t: nat)
    requires rpi > 0 && t >= due
    ensures Frames(due, rpi, t) == 1 + Frames(due + rpi, rpi, t)
  {
    if t >= due + rpi {
      OneLess(t - due, rpi);
      assert t - due - rpi == t - (due + rpi);
    } else {
      QuotientIs(t - due, rpi, 0, t - due);
    }
  }

  lemma {:induction false} TimePasses(t: nat, bs: seq<Beat>)
    ensures TimeAfter(t, bs) >= t
    decreases |bs|
  {
    if bs != [] { TimePasses(t + bs[0].gap, bs[1..]); }
  }

  /** One beat, for the sender k. */
  lemma BeatSends(w: World, cfg: Config, b: Beat, k: nat, due: nat, t: nat)
    requires Ready(w) && ConfigFits(cfg, |w.conns|) && NoDup(w.active) && k in w.active && w.now == U32(t)
    requires FirstExpired(Do(w, cfg, Elapse(b.gap)), w.active).None?
    requires DueAt(w.conns[k], due) && -TWO31 <= due - (t + b.gap) < TWO31
    ensures var r := After(w, cfg, b);
            r.active == w.active && r.now == U32(t + b.gap) && SentOnTime(w.conns[k], r.conns[k], due, t + b.gap, k in b.changed)
  {
    hide Due, Produce, FirstExpired, ManageWalk, SentOnTime, U32;
    var v := Do(w, cfg, Elapse(b.gap));
    WrapPlus(t, b.gap);
    PassSends(v, w.active, b.changed, k);
    ProducedOnTime(w.conns[k], due, t + b.gap, k in b.changed);
  }

  lemma CountsOn(eip: nat, f: nat)
    ensures U32(U32(eip + 1) + f) == U32(eip + (1 + f))
  {
    WrapPlus(eip + 1, f);
  }

  /** Sender c, whose frame was due at `due`, has become r by time t and stayed on schedule: it
      has sent one frame for every time its producing interval came round. */
  ghost predicate OnSchedule(c: Conn, r: Conn, due: nat, t: nat)
    requires c.params.producingRpi > 0
  {
    var f := Frames(due, c.params.producingRpi, t);
    && Sender(r) && r.params == c.params
    && r.eipProducing == U32(c.eipProducing + f) && DueAt(r, due + f * c.params.producingRpi)
  }

  lemma ScheduleStep(c: Conn, v: Conn, r: Conn, due: nat, t1: nat, t: nat, changed: bool)
    requires Sender(c) && c.params.producingRpi > 0 && SentOnTime(c, v, due, t1, changed) && t1 <= t
    requires OnSchedule(v, r, if t1 >= due then due + c.params.producingRpi else due, t)
    ensures OnSchedule(c, r, due, t)
  {
    hide U32, Frames;
    var rpi := c.params.producingRpi;
    if t1 >= due {
      OneFrameLess(due, rpi, t);
      var f := Frames(due + rpi, rpi, t);
      CountsOn(c.eipProducing, f);
      assert due + rpi + f * rpi == due + (1 + f) * rpi;
    }
  }

  lemma ScheduleStarts(c: Conn, due: nat, t: nat)
    requires Sender(c) && c.params.producingRpi > 0 && c.eipProducing < TWO32 && DueAt(c, due) && t < due
    ensures OnSchedule(c, c, due, t)
  {
  }

  lemma StillSends(c: Conn, d: Conn, due: nat, t: nat, changed: bool)
    requires Sender(c) && SentOnTime(c, d, due, t, changed) && DueAt(c, due) && c.eipProducing < TWO32
    ensures Sender(d) && d.params == c.params && d.eipProducing < TWO32
    ensures DueAt(d, if t >= due then due + c.params.producingRpi else due)
  {
  }

  /** Over any run of passes that keeps up and in which nothing expires, a cyclic producer sends
      exactly one frame for every time its producing interval comes round, and stays on that
      schedule. */
  lemma {:induction false} SendsOnSchedule(w: World, cfg: Config, bs: seq<Beat>, k: nat, due: nat, t: nat)
    requires Ready(w) && ConfigFits(cfg, |w.conns|) && NoDup(w.active) && k in w.active && w.now == U32(t)
    requires Sender(w.conns[k]) && DueAt(w.conns[k], due) && due - t < TWO31 && w.conns[k].eipProducing < TWO32
    requires 0 < w.conns[k].params.producingRpi < TWO31 && KeepsUp(due, w.conns[k].params.producingRpi, t, bs)
    requires Undisturbed(w, cfg, bs) && (bs != [] || t < due)
    ensures Beats(w, cfg, bs).active == w.active
    ensures OnSchedule(w.conns[k], Beats(w, cfg, bs).conns[k], due, TimeAfter(t, bs))
    decreases |bs|
  {
    hide After, FirstExpired, U32, OnSchedule, Sender, SentOnTime, DueAt;
    if bs != [] {
      var t1 := t + bs[0].gap;
      var v := After(w, cfg, bs[0]);
      var changed := k in bs[0].changed;
      BeatSends(w, cfg, bs[0], k, due, t);
      StillSends(w.conns[k], v.conns[k], due, t1, changed);
      TimePasses(t1, bs[1..]);
      SendsOnSchedule(v, cfg, bs[1..], k, if t1 >= due then due + w.conns[k].params.producingRpi else due, t1);
      ScheduleStep(w.conns[k], v.conns[k], Beats(w, cfg, bs).conns[k], due, t1, TimeAfter(t, bs), changed);
    } else {
      ScheduleStarts(w.conns[k], due, t);
    }
  }

  /** Passes no further apart than the interval keep up. */
  lemma {:induction false} ShortGapsKeepUp(due: nat, rpi: nat, t: nat, bs: seq<Beat>)
    requires t < due && forall j :: 0 <= j < |bs| ==> bs[j].gap <= rpi
    ensures KeepsUp(due, rpi, t, bs)
    decreases |bs|
  {
    if bs != [] {
      var t1 := t + bs[0].gap;
      ShortGapsKeepUp(if t1 >= due then due + rpi else due, rpi, t1, bs[1..]);
    }
  }

  /** So the number of frames is the time passed divided by the interval, give or take the frame
      that was about to be due. */
  lemma FramesPerInterval(due: nat, rpi: nat, t: nat, elapsed: nat)
    requires rpi > 0 && t < due <= t + rpi
    ensures elapsed / rpi <= Frames(due, rpi, t + elapsed) <= elapsed / rpi + 1
  {
    var d := due - t;
    if elapsed >= d {
      DivisionIsMonotone(elapsed - d, elapsed, rpi);
      DivisionIsMonotone(elapsed, elapsed - d + rpi, rpi);
      OneLess(elapsed - d + rpi, rpi);
    } else {
      QuotientIs(elapsed, rpi, 0, elapsed);
    }
  }

  lemma DivisionIsMonotone(a: nat, b: nat, n: nat)
    requires n > 0 && a <= b
    ensures a / n <= b / n
  {
    var q, r := a / n, b / n;
    assert a == q * n + a % n && b == r * n + b % n;
    assert (q - r) * n == q * n - r * n;
    AtLeast(q - r, n);
  }
}
