/** Sequence numbers and timers that wrap around, against numbers and clocks that do not. */
module Sequence {
  import opened Words
  import C = ConnSpec
  import IoFrame
  import opened SocketSpec
  import opened ConnInv

  // ----- Encapsulation sequence numbers

  function Wrapped(nums: seq<nat>): (r: seq<nat>)
    ensures |r| == |nums|
  {
    if nums == [] then [] else [U32(nums[0])] + Wrapped(nums[1..])
  }

  /** What a filter over unbounded numbers does: the first frame is taken, a later one when
      its number exceeds the last one taken. */
  function Ordered(best: Option<int>, nums: seq<nat>): (r: seq<bool>)
    ensures |r| == |nums|
    decreases |nums|
  {
    if nums == [] then []
    else if best.None? || nums[0] > best.value then [true] + Ordered(Some(nums[0]), nums[1..])
    else [false] + Ordered(best, nums[1..])
  }

  /** Every number is within half the range of the last one taken before it. */
  predicate Near(best: Option<int>, nums: seq<nat>, half: int)
    decreases |nums|
  {
    nums == [] ||
    ((best.Some? ==> 0 - half <= nums[0] - best.value < half)
     && Near(if best.None? || nums[0] > best.value then Some(nums[0]) else best, nums[1..], half))
  }

  /** The wrapped comparison in closed form, for all numbers: the distance modulo 2^32 lies in
      the lower half. */
  lemma WrappedOrder(n: int, best: int)
    ensures Diff32(U32(n), U32(best)) > 0 <==> 0 < (n - best) % TWO32 < TWO31
  {
    WrapMinus(n, best);
  }

  /** The filter of a consumer refines the unbounded order over any run of near frames. */
  lemma {:induction false} FilterRefinesOrder(c: C.Conn, best: Option<int>, nums: seq<nat>)
    requires Near(best, nums, TWO31)
    requires if best.None? then c.eipFirst else !c.eipFirst && c.eipConsuming == U32(best.value)
    ensures IoFrame.FilterRun(c, Wrapped(nums)).1 == Ordered(best, nums)
    decreases |nums|
  {
    hide U32, Diff32;
    if nums != [] {
      var n := nums[0];
      var d := C.Filter(c, U32(n)).0;
      assert Wrapped(nums)[0] == U32(n) && Wrapped(nums)[1..] == Wrapped(nums[1..]);
      if best.None? {
        assert U32(U32(n) - 1) == U32(n - 1) by { WrapPlus(n, -1); }
        Diff32IsTrueDifference(n, n - 1);
        FilterRefinesOrder(d, Some(n), nums[1..]);
      } else {
        Diff32IsTrueDifference(n, best.value);
        FilterRefinesOrder(d, if n > best.value then Some(n) else best, nums[1..]);
      }
    }
  }

  /** What is taken strictly increases, so no frame is taken twice, and what is skipped was
      overtaken. */
  lemma {:induction false} OrderedIncreases(best: Option<int>, nums: seq<nat>, i: nat, j: nat)
    requires i < j < |nums| && Ordered(best, nums)[i]
    ensures Ordered(best, nums)[j] ==> nums[i] < nums[j]
    ensures best.Some? ==> best.value < nums[i]
    ensures !Ordered(best, nums)[j] ==> (best.Some? && nums[j] <= best.value) || exists k :: i <= k < j && nums[j] <= nums[k]
    decreases |nums|
  {
    if i == 0 {
      Above(Some(nums[0]), nums[1..], j - 1);
      if !Ordered(best, nums)[j] {
        if nums[1..][j - 1] > nums[0] {
          var k :| 0 <= k < j - 1 && nums[1..][j - 1] <= nums[1..][k];
          assert nums[k + 1] == nums[1..][k];
        }
      }
    } else {
      var next := if best.None? || nums[0] > best.value then Some(nums[0]) else best;
      OrderedIncreases(next, nums[1..], i - 1, j - 1);
      if !Ordered(best, nums)[j] && next.Some? && nums[j] > next.value {
        var k :| i - 1 <= k < j - 1 && nums[1..][j - 1] <= nums[1..][k];
        assert nums[k + 1] == nums[1..][k];
      } else if !Ordered(best, nums)[j] && next.Some? && nums[j] <= next.value {
        assert next.value < nums[1..][i - 1] == nums[i];
      }
    }
  }

  /** A frame is taken above everything taken before, and skipped only if overtaken. */
  lemma {:induction false} Above(best: Option<int>, nums: seq<nat>, j: nat)
    requires j < |nums| && best.Some?
    ensures Ordered(best, nums)[j] ==> nums[j] > best.value
    ensures !Ordered(best, nums)[j] ==> nums[j] <= best.value || exists k :: 0 <= k < j && nums[j] <= nums[k]
    decreases |nums|
  {
    if j > 0 {
      var next := if nums[0] > best.value then Some(nums[0]) else best;
      Above(next, nums[1..], j - 1);
      if !Ordered(best, nums)[j] {
        if nums[j] <= next.value {
          assert next == Some(nums[0]) || next == best;
        } else {
          var k :| 0 <= k < j - 1 && nums[1..][j - 1] <= nums[1..][k];
          assert nums[k + 1] == nums[1..][k];
        }
      }
    }
  }

  // ----- The 16 bit counts of class 1

  /** Which counts of a run are new data: the comparison of HandleReceivedIoConnectionData. */
  function CountRun(last: nat, counts: seq<nat>): (r: seq<bool>)
    ensures |r| == |counts|
    decreases |counts|
  {
    if counts == [] then []
    else if Diff16(U16(counts[0]), last) > 0 then [true] + CountRun(U16(counts[0]), counts[1..])
    else [false] + CountRun(last, counts[1..])
  }

  lemma Diff16IsTrueDifference(a: int, b: int)
    requires -TWO15 <= a - b < TWO15
    ensures Diff16(U16(a), U16(b)) == a - b
  {
    var qa, qb := a / TWO16, b / TWO16;
    assert U16(a) - U16(b) == (a - b) - (qa - qb) * TWO16;
    var d := (a - b) % TWO16;
    assert (U16(a) - U16(b)) % TWO16 == d;
  }

  /** The count filter refines the unbounded order too. Unlike the other one it starts from
      count 0, so a producer's data before its first change are not delivered. */
  lemma {:induction false} CountsRefineOrder(best: nat, counts: seq<nat>)
    requires Near(Some(best), counts, TWO15)
    ensures CountRun(U16(best), counts) == Ordered(Some(best), counts)
    decreases |counts|
  {
    hide U16, Diff16;
    if counts != [] {
      Diff16IsTrueDifference(counts[0], best);
      CountsRefineOrder(if counts[0] > best then counts[0] else best, counts[1..]);
    }
  }

  // ----- Timers

  /** The connection's watchdog was last fed at the true time `fed`. */
  predicate Fed(c: C.Conn, fed: nat) {
    c.state == C.Established && C.HasWatchdog(c) && c.watchdog == U32(U32(fed) + C.RxTimeout(c))
  }

  /** The true time at which it is read as expired. */
  function FirstExpiry(c: C.Conn, fed: nat): nat {
    fed + if C.RxTimeout(c) < TWO31 then C.RxTimeout(c) else 0
  }

  /** Not before that time, then, and on until 2^31 microseconds after the time it shows. */
  lemma ExpiresFirst(c: C.Conn, fed: nat, t: nat)
    requires Fed(c, fed) && fed <= t
    ensures t < FirstExpiry(c, fed) ==> !C.Expired(c, U32(t))
    ensures t == FirstExpiry(c, fed) ==> C.Expired(c, U32(t))
    ensures C.RxTimeout(c) < TWO31 && FirstExpiry(c, fed) <= t < FirstExpiry(c, fed) + TWO31 ==> C.Expired(c, U32(t))
  {
    hide C.RxTimeout, U32, Diff32;
    var r := C.RxTimeout(c);
    WrapPlus(fed, r);
    WrappedOrder(fed + r, t);
    if r < TWO31 && t < fed + r + TWO31 {
      Diff32IsTrueDifference(fed + r, t);
    }
    assert r < TWO32 by { RxTimeoutIsWord(c); }
  }

  /** The watchdog tells that the timeout asked for has passed since it was fed. */
  ghost predicate KeepsDeadline(c: C.Conn, fed: nat) {
    forall t: nat {:trigger C.Expired(c, U32(t))} :: fed <= t < fed + C.Timeout(c) + TWO31 ==>
      (C.Expired(c, U32(t)) <==> t >= fed + C.Timeout(c))
  }

  /** It does, until 2^31 microseconds after the deadline, exactly when the interval times the
      multiplier, in full, is less than 2^31 microseconds. */
  lemma WatchdogIsDeadline(c: C.Conn, fed: nat)
    requires Fed(c, fed)
    ensures KeepsDeadline(c, fed) <==> C.Timeout(c) < TWO31
  {
    hide C.RxTimeout, C.Timeout, C.Expired, U32;
    RxTimeoutIsWord(c);
    var first := FirstExpiry(c, fed);
    if C.Timeout(c) < TWO31 {
      forall t: nat | fed <= t < fed + C.Timeout(c) + TWO31
        ensures C.Expired(c, U32(t)) <==> t >= fed + C.Timeout(c)
      {
        ExpiresFirst(c, fed, t);
      }
    } else {
      ExpiresFirst(c, fed, first);
      assert fed <= first < fed + C.Timeout(c) && C.Expired(c, U32(first));
    }
  }

  /** A longer one is cut to 32 bits, and the connection times out early: at once when the rest
      is zero or 2^31 or more, as it is for every product below 2^32; otherwise after that
      rest. */
  lemma LongTimeoutIsEarly(c: C.Conn, fed: nat, t: nat)
    requires Fed(c, fed) && C.Timeout(c) >= TWO31 && t >= fed
    ensures var rest := C.Timeout(c) % TWO32;
            var first := fed + if rest < TWO31 then rest else 0;
            && first < fed + C.Timeout(c)
            && (t < first ==> !C.Expired(c, U32(t)))
            && (t == first ==> C.Expired(c, U32(t)))
            && (C.Timeout(c) < TWO32 ==> first == fed)
  {
    hide C.Timeout, C.Expired, Diff32;
    ExpiresFirst(c, fed, t);
  }

  lemma RxTimeoutIsWord(c: C.Conn)
    ensures C.RxTimeout(c) < TWO32 && C.RxTimeout(c) <= C.Timeout(c)
    ensures C.Timeout(c) < TWO32 ==> C.RxTimeout(c) == C.Timeout(c)
  {
    hide C.Timeout;
  }

  /** A request that is accepted for 8.4 seconds and multiplier 512 asks for more than an hour;
      the watchdog fires after less than six seconds. */
  lemma EarlyByTheWrap(c: C.Conn, q: C.Params)
    requires q.consumingRpi == 8400000 && q.multiplier == 7
    requires c.rate == C.RoundUpToTick(C.Faster(q.consumingRpi).value) && c.params.multiplier == q.multiplier
    ensures C.Faster(q.consumingRpi).Some? && q.multiplier <= 7
    ensures C.Timeout(c) == 4300800000 && C.RxTimeout(c) == 5832704
  {
    assert C.Pow2(9) == 512 by { assert C.Pow2(5) == 32; }
  }

  /** Time that passes in the steps of a run. */
  function Elapsed(steps: seq<C.Step>): nat {
    if steps == [] then 0
    else (if steps[0].Elapse? then steps[0].usecs else 0) + Elapsed(steps[1..])
  }

  lemma TimeOutKeepsNow(w: C.World, i: nat)
    requires C.Ready(w) && i < |w.conns|
    ensures C.TimeOut(w, i).now == w.now
  {
    hide C.Close, C.CloseEach, C.FirstCandidate;
    var c := w.conns[i];
    var v := C.CloseEach(w, w.active, c.params.inputPt, C.InputOnly);
    CloseEachShrinks(w, w.active, c.params.inputPt, C.InputOnly);
    CloseEachShrinks(v, v.active, c.params.inputPt, C.ListenOnly);
    CloseEachShrinks(w, w.active, c.params.inputPt, C.ListenOnly);
    CloseShrinks(C.TimeOutCascade(w, i), i);
  }

  lemma {:induction false} ManageKeepsNow(w: C.World, s: seq<nat>, changed: set<nat>)
    requires C.Ready(w) && InRange(s, |w.conns|)
    ensures C.ManageWalk(w, s, changed).now == w.now
    decreases |s|
  {
    hide C.TimeOut;
    if s != [] {
      var c := w.conns[s[0]];
      if C.Expired(c, w.now) {
        TimeOutKeepsNow(w, s[0]);
      } else {
        ManageKeepsNow(if C.Due(c, w.now) then C.Put(w, s[0], C.Produce(c, s[0] in changed)) else w, s[1..], changed);
      }
    }
  }

  lemma {:induction false} CloseClass3KeepsNow(w: C.World, s: seq<nat>, h: nat)
    requires C.Ready(w) && InRange(s, |w.conns|)
    ensures C.CloseClass3(w, s, h).now == w.now
    decreases |s|
  {
    hide C.Close;
    if s != [] {
      CloseShrinks(w, s[0]);
      var c := w.conns[s[0]];
      CloseClass3KeepsNow(if C.TransportClass(c.params.transport) == 3 && c.session == h then C.Close(w, s[0]) else w, s[1..], h);
    }
  }

  lemma {:induction false} CloseAllKeepsNow(w: C.World)
    requires C.Ready(w)
    ensures C.CloseAll(w).now == w.now
    decreases C.Elements(w.active)
  {
    hide C.Close;
    if w.active != [] && w.conns[w.active[0]].state != C.NonExistent {
      var v := C.Close(w, w.active[0]);
      CloseShrinks(w, w.active[0]);
      assert w.active[0] in C.Elements(w.active) && w.active[0] !in C.Elements(v.active);
      CloseAllKeepsNow(v);
    }
  }

  lemma ActivateKeepsNow(w: C.World, cfg: C.Config, i: nat, q: C.Request)
    requires C.Ready(w) && i < |w.conns|
    ensures C.Activate(w, cfg, i, q).0.now == w.now
  {
    hide C.FirstCandidate, Grab, Release;
  }

  lemma OpenKeepsNow(w: C.World, cfg: C.Config, q: C.Request)
    requires C.Ready(w) && C.ConfigFits(cfg, |w.conns|)
    ensures C.ForwardOpen(w, cfg, q).0.now == w.now
  {
    hide C.Activate, C.PickIo, C.FindTriad, C.FirstFree;
    if C.Faster(q.params.consumingRpi).Some? && C.Faster(q.params.producingRpi).Some? {
      var q1 := q.(params := q.params.(consumingRpi := C.Faster(q.params.consumingRpi).value, producingRpi := C.Faster(q.params.producingRpi).value));
      match C.PickIo(w, cfg, q1.params)
      case Found(i, kind) =>
        var c := w.conns[i];
        var w1 := C.Put(w, i, if kind == C.ExclusiveOwner then c else c.(state := C.Configuring));
        ActivateKeepsNow(C.Configure(w1, cfg, i, q1.params, kind), cfg, i, q1);
      case _ =>
    }
  }

  lemma StepClock(w: C.World, cfg: C.Config, s: C.Step)
    requires C.Ready(w) && C.ConfigFits(cfg, |w.conns|)
    ensures C.Do(w, cfg, s).now == if s.Elapse? then U32(w.now + s.usecs) else w.now
  {
    hide C.ForwardOpen, C.Close, C.CloseClass3, C.CloseAll, C.ManageWalk, C.FindTriad, C.FindConsumer;
    match s
    case Open(q) => OpenKeepsNow(w, cfg, q);
    case CloseRequest(t, peer) =>
      if C.FindTriad(w.conns, w.active, t).Some? { CloseShrinks(w, C.FindTriad(w.conns, w.active, t).value); }
    case Manage(changed) => ManageKeepsNow(w, w.active, changed);
    case SessionAged(h) => CloseClass3KeepsNow(w, w.active, h);
    case Shutdown => CloseAllKeepsNow(w);
    case _ =>
  }

  /** Over any run the 32 bit clock of the stack is the true time, wrapped. */
  lemma {:induction false} RunClock(w: C.World, cfg: C.Config, steps: seq<C.Step>, start: nat)
    requires C.Ready(w) && C.ConfigFits(cfg, |w.conns|) && w.now == U32(start)
    ensures C.Run(w, cfg, steps).now == U32(start + Elapsed(steps))
    decreases |steps|
  {
    hide C.Do, U32;
    if steps != [] {
      var s := steps[0];
      StepClock(w, cfg, s);
      if s.Elapse? { WrapPlus(start, s.usecs); }
      RunClock(C.Do(w, cfg, s), cfg, steps[1..], start + if s.Elapse? then s.usecs else 0);
    }
  }
}
