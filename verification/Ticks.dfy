/** Time keeping: the loop that turns elapsed time into timer ticks, and the encodings of
    timeouts in connection requests. */
module Ticks {
  import opened Words
  import opened ConnSpec

  const TWO64 := 0x1_0000_0000_0000_0000

  // ----- Polls of the network handler

  /** Sessions are checked for inactivity every half second. */
  const CHECK_USECS := 500000

  /** The counters after a poll; `ticks` counts the calls of ManageConnections, `checks` those of
      AgeInactivity. */
  datatype Clock = Clock(last: nat, elapsed: nat, current: nat, ticks: nat, inactive: nat, checks: nat)

  /** One poll at true time t, read as a 32 bit word. */
  function Poll(c: Clock, t: nat): Clock {
    var gap := U32(U32(t) - c.last);
    var sum := U32(c.elapsed + gap);
    var idle := U32(c.inactive + gap);
    var due := idle >= CHECK_USECS;
    Clock(U32(t), sum % TICK_USECS, (c.current + gap) % TWO64, c.ticks + sum / TICK_USECS,
          if due then idle - CHECK_USECS else idle, if due then c.checks + 1 else c.checks)
  }

  /** The time-keeping half of NetworkHandlerProcessOnce. */
  class NetworkHandler {
    var lastUsecs: nat
    var elapsedUsecs: nat
    var currentUsecs: nat
    var managed: nat
    var inactivityUsecs: nat
    var checked: nat

    ghost function Val(): Clock
      reads this
    {
      Clock(lastUsecs, elapsedUsecs, currentUsecs, managed, inactivityUsecs, checked)
    }

    constructor (now: nat)
      ensures Val() == Clock(now, 0, 0, 0, 0, 0)
    {
      lastUsecs, elapsedUsecs, currentUsecs, managed := now, 0, 0, 0;
      inactivityUsecs, checked := 0, 0;
    }

    /** `now` is the 32 bit microsecond clock of the system. */
    method ProcessOnce(now: nat, ghost t: nat)
      requires now == U32(t)
      modifies this
      ensures Val() == Poll(old(Val()), t)
    {
      var gap := U32(now - lastUsecs);
      lastUsecs := now;
      elapsedUsecs := U32(elapsedUsecs + gap);
      inactivityUsecs := U32(inactivityUsecs + gap);
      currentUsecs := (currentUsecs + gap) % TWO64;
      ghost var sum := elapsedUsecs;
      ghost var before := managed;
      while elapsedUsecs >= TICK_USECS
        invariant sum == elapsedUsecs + TICK_USECS * (managed - before) && managed >= before
        invariant inactivityUsecs == U32(old(inactivityUsecs) + gap) && checked == old(checked)
        invariant lastUsecs == now && currentUsecs == (old(currentUsecs) + gap) % TWO64
      {
        managed := managed + 1;  // ManageConnections
        elapsedUsecs := elapsedUsecs - TICK_USECS;
      }
      Quotient(sum, managed - before, elapsedUsecs);
      if inactivityUsecs >= CHECK_USECS {
        inactivityUsecs := inactivityUsecs - CHECK_USECS;
        checked := checked + 1;  // AgeInactivity
      }
    }

    static lemma Quotient(sum: nat, q: nat, r: nat)
      requires sum == r + TICK_USECS * q && r < TICK_USECS
      ensures sum / TICK_USECS == q && sum % TICK_USECS == r
    {
    }
  }

  /** All time since `start` is accounted for: in ticks, in the remainder, in the clock. */
  predicate Conserved(c: Clock, start: nat, t: nat) {
    && start <= t && c.last == U32(t) && c.elapsed < TICK_USECS
    && t - start == TICK_USECS * c.ticks + c.elapsed
    && c.current == (t - start) % TWO64
  }

  /** A poll keeps the account exactly when the gap leaves room below 2^32; otherwise whole
      wraps of the 32 bit clock are lost. */
  lemma PollConserves(c: Clock, start: nat, t: nat, next: nat)
    requires Conserved(c, start, t) && t <= next
    ensures Conserved(Poll(c, next), start, next) <==> c.elapsed + (next - t) < TWO32
  {
    hide U32;
    var gap := next - t;
    var p := Poll(c, next);
    PollSum(c, t, next);
    if c.elapsed + gap < TWO32 {
      Fits(c.elapsed + gap);
      Fits(gap);
      Wide(t - start, gap);
    } else {
      assert U32(c.elapsed + gap) < c.elapsed + gap;
    }
  }

  lemma Fits(x: nat)
    requires x < TWO32
    ensures U32(x) == x
  {
  }

  lemma PollSum(c: Clock, t: nat, next: nat)
    requires c.last == U32(t) && t <= next
    ensures var p := Poll(c, next);
            var sum := U32(c.elapsed + (next - t));
            && TICK_USECS * p.ticks + p.elapsed == TICK_USECS * c.ticks + sum
            && p.current == (c.current + U32(next - t)) % TWO64 && p.last == U32(next) && p.elapsed < TICK_USECS
  {
    GapSeen(t, next);
    WrapPlus(next - t, c.elapsed);
  }

  lemma GapSeen(t: nat, next: nat)
    requires t <= next
    ensures U32(U32(next) - U32(t)) == U32(next - t)
  {
    WrapMinus(next, t);
  }

  lemma Wide(a: nat, b: nat)
    ensures (a % TWO64 + b) % TWO64 == (a + b) % TWO64
  {
    var q := a / TWO64;
    assert a == q * TWO64 + a % TWO64;
    var s := a % TWO64 + b;
    assert a + b == q * TWO64 + s;
    assert s == (s / TWO64) * TWO64 + s % TWO64;
    assert a + b == (q + s / TWO64) * TWO64 + s % TWO64;
  }

  function Polls(c: Clock, times: seq<nat>): Clock
    decreases |times|
  {
    if times == [] then c else Polls(Poll(c, times[0]), times[1..])
  }

  /** Polls come at increasing times, less than 2^32 microseconds less one tick apart. */
  predicate Timely(t: nat, times: seq<nat>)
    decreases |times|
  {
    times == [] || (t <= times[0] && times[0] - t <= TWO32 - TICK_USECS && Timely(times[0], times[1..]))
  }

  function LastTime(t: nat, times: seq<nat>): nat {
    if times == [] then t else times[|times| - 1]
  }

  /** Tick conservation over any run of polls: elapsed time is tick length times the calls of
      ManageConnections plus a remainder below one tick, and the 64 bit clock is true. */
  lemma {:induction false} TicksConserved(c: Clock, start: nat, t: nat, times: seq<nat>)
    requires Conserved(c, start, t) && Timely(t, times)
    ensures Conserved(Polls(c, times), start, LastTime(t, times))
    decreases |times|
  {
    hide Conserved, Poll;
    if times != [] {
      assert c.elapsed < TICK_USECS by { Remainder(c, start, t); }
      PollConserves(c, start, t, times[0]);
      TicksConserved(Poll(c, times[0]), start, times[0], times[1..]);
      assert LastTime(times[0], times[1..]) == LastTime(t, times);
    }
  }

  lemma Remainder(c: Clock, start: nat, t: nat)
    requires Conserved(c, start, t)
    ensures c.elapsed < TICK_USECS
  {
  }

  /** So for a handler that starts at time t, whatever the system clock shows then. */
  lemma TicksFromStart(t: nat, times: seq<nat>)
    requires Timely(t, times)
    ensures Conserved(Polls(Clock(U32(t), 0, 0, 0, 0, 0), times), t, LastTime(t, times))
  {
    assert Conserved(Clock(U32(t), 0, 0, 0, 0, 0), t, t);
    TicksConserved(Clock(U32(t), 0, 0, 0, 0, 0), t, t, times);
  }

  /** All time since `start` is accounted for in session checks, none of them overdue. */
  predicate ChecksOnTime(c: Clock, start: nat, t: nat) {
    && start <= t && c.last == U32(t)
    && t - start == CHECK_USECS * c.checks + c.inactive && c.inactive < CHECK_USECS
  }

  /** A poll makes one check at most, so it stays on time exactly when it comes before two are
      due. */
  lemma PollChecks(c: Clock, start: nat, t: nat, next: nat)
    requires ChecksOnTime(c, start, t) && t <= next
    ensures ChecksOnTime(Poll(c, next), start, next) <==> c.inactive + (next - t) < 2 * CHECK_USECS
  {
    hide U32;
    GapSeen(t, next);
    WrapPlus(next - t, c.inactive);
    var sum := c.inactive + (next - t);
    if sum < TWO32 { Fits(sum); }
    assert U32(sum) < TWO32;
  }

  // ----- The originator's timeout

  const MAX_TIMEOUT_MSECS := 8355840

  function RequestMSecs(tickTime: nat, ticks: nat): nat {
    Pow2(tickTime) * ticks
  }

  lemma PowersOfTwo()
    ensures Pow2(0) == 1 && Pow2(1) == 2 && Pow2(2) == 4 && Pow2(3) == 8 && Pow2(4) == 16 && Pow2(5) == 32
    ensures Pow2(6) == 64 && Pow2(7) == 128 && Pow2(8) == 256 && Pow2(9) == 512 && Pow2(10) == 1024
    ensures Pow2(11) == 2048 && Pow2(12) == 4096 && Pow2(13) == 8192 && Pow2(14) == 16384 && Pow2(15) == 32768
  {
    assert Pow2(3) == 8;
    assert Pow2(6) == 64;
    assert Pow2(9) == 512;
    assert Pow2(12) == 4096;
  }

  /** SetOriginatorTimeoutMSecs: the least tick time that can represent the timeout, a count
      of 8 bits, and a time that is not shorter and less than one tick longer. */
  method EncodeTimeout(msecs: nat) returns (tickTime: nat, ticks: nat)
    requires msecs <= MAX_TIMEOUT_MSECS
    ensures tickTime <= 15 && ticks <= 255
    ensures msecs <= RequestMSecs(tickTime, ticks) < msecs + Pow2(tickTime)
    ensures forall t: nat, c: nat :: t < tickTime && c <= 255 ==> RequestMSecs(t, c) < msecs
  {
    hide Pow2;
    PowersOfTwo();
    tickTime := 0;
    while tickTime <= 15
      invariant tickTime <= 15
      invariant forall t: nat :: t < tickTime ==> Pow2(t) * 255 < msecs
    {
      if RequestMSecs(tickTime, 255) >= msecs { break; }
      assert tickTime == 15 ==> Pow2(tickTime) * 255 == MAX_TIMEOUT_MSECS;
      tickTime := tickTime + 1;
    }
    var tick := Pow2(tickTime);
    ticks := (msecs + tick - 1) / tick;
    RoundedUp(msecs, tick, ticks);
    forall t: nat, c: nat | t < tickTime && c <= 255 ensures RequestMSecs(t, c) < msecs {
      Monotone(Pow2(t), c, 255);
    }
  }

  lemma Monotone(a: nat, b: nat, c: nat)
    requires b <= c
    ensures a * b <= a * c
  {
  }

  lemma RoundedUp(m: nat, tick: nat, n: nat)
    requires tick > 0 && n == (m + tick - 1) / tick && m <= tick * 255
    ensures m <= tick * n < m + tick && n <= 255
  {
    var r := (m + tick - 1) % tick;
    assert m + tick - 1 == tick * n + r;
    OneMore(tick, n, 255);
  }

  lemma OneMore(d: nat, n: nat, k: nat)
    ensures n > k ==> d * n >= d * k + d
  {
    if n > k {
      Monotone(d, k + 1, n);
      assert d * (k + 1) == d * k + d;
    }
  }

  /** The tick time shares a byte with the priority. */
  function WithTickTime(priority: nat, tickTime: nat): nat
    requires tickTime < 16
  {
    priority / 16 * 16 + tickTime
  }

  lemma TickTimeKept(priority: nat, tickTime: nat)
    requires priority < 256 && tickTime < 16
    ensures var b := WithTickTime(priority, tickTime); b < 256 && b % 16 == tickTime && b / 16 == priority / 16
  {
  }

  // ----- The timeout multiplier

  /** SetTimeoutMultiplier: the number of bits of m / 8. */
  method EncodeMultiplier(m: nat) returns (value: nat)
    requires m >= 4
    ensures Pow2(2 + value) <= m < Pow2(3 + value)
  {
    value := 0;
    var rest := m / 8;
    ghost var scale := 8;
    while rest != 0
      invariant scale == Pow2(3 + value) && rest == m / scale && Pow2(2 + value) <= m
    {
      Halved(m, scale);
      value := value + 1;
      rest := rest / 2;
      scale := 2 * scale;
    }
    NoneLeft(m, scale);
  }

  lemma Doubled(scale: nat, h: nat, b: nat)
    ensures scale * (2 * h + b) == (2 * scale) * h + scale * b
  {
    assert scale * (2 * h + b) == scale * (2 * h) + scale * b;
  }

  lemma Halved(m: nat, scale: nat)
    requires scale > 0
    ensures m / scale / 2 == m / (2 * scale) && (m / scale != 0 ==> scale <= m)
  {
    var q, r := m / scale, m % scale;
    assert m == scale * q + r;
    var h, b := q / 2, q % 2;
    Doubled(scale, h, b);
    assert b == 0 || b == 1;
    assert scale * b == if b == 0 then 0 else scale;
    Quotients(m, 2 * scale, h, scale * b + r);
    OneMore(scale, q, 0);
  }

  lemma Quotients(m: nat, d: nat, q: nat, r: nat)
    requires d > 0 && m == d * q + r && r < d
    ensures m / d == q
  {
    var q2 := m / d;
    var r2 := m % d;
    assert d * (q - q2) == r2 - r;
    if q > q2 { Monotone(d, 1, q - q2); }
    if q < q2 { Monotone(d, 1, q2 - q); }
  }

  lemma NoneLeft(m: nat, d: nat)
    requires d > 0 && m / d == 0
    ensures m < d
  {
    assert m == d * (m / d) + m % d;
  }

  /** The multipliers of the protocol, 4 to 512 by powers of two, are represented exactly: the
      value read back by shifting is the one set. */
  lemma MultiplierRoundTrip(m: nat, k: nat, value: nat)
    requires m == Pow2(2 + k) && Pow2(2 + value) <= m < Pow2(3 + value)
    ensures value == k
  {
    if value < k { PowGrows(3 + value, 2 + k); }
    if value > k { PowGrows(3 + k, 2 + value); }
  }

  lemma {:induction false} PowGrows(a: nat, b: nat)
    requires a <= b
    ensures Pow2(a) <= Pow2(b)
    decreases b
  {
    if a < b { PowGrows(a, b - 1); }
  }
}
