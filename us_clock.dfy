/**
 * The board's microsecond clock in its wall-clock configuration: elapsed time since the
 * first sample, taken from host (seconds, microseconds) pairs, and the 60 Hz pulses derived
 * from it; plus the polled 60 Hz tick driven by the processor's cycle count.
 * Clock values are C `unsigned long` (64 bits), so the elapsed time wraps modulo 2^64.
 */
module UsClock {

  const USEC_PER_SEC: int := 1000000
  const ULONG_MODULUS: int := 0x1_0000_0000_0000_0000
  /** Length of one 60 Hz window of the microsecond clock. */
  const USEC_PER_TICK: nat := 16000
  /** Processor cycles per polled 60 Hz tick: 16 ms of 200 ns cycles. */
  const CYCLES_PER_TICK: nat := 80000  // (16 * 1000 * 1000) / 200

  /** A host time as the host clock returns it. */
  datatype TimeVal = TimeVal(sec: int, usec: int)

  predicate IsTimeVal(t: TimeVal) {
    0 <= t.sec && 0 <= t.usec < USEC_PER_SEC
  }

  /** The time as one count of microseconds. */
  function Micros(t: TimeVal): int {
    t.sec * USEC_PER_SEC + t.usec
  }

  /** The host time `m` microseconds after the epoch. */
  function FromMicros(m: nat): (t: TimeVal)
    ensures IsTimeVal(t) && Micros(t) == m
  {
    TimeVal(m / USEC_PER_SEC, m % USEC_PER_SEC)
  }

  /** The difference `now - origin` as whole seconds and microseconds, borrowing one
      second when the microsecond part of `now` is the smaller. */
  function Difference(origin: TimeVal, now: TimeVal): (d: (int, int))
    requires IsTimeVal(origin) && IsTimeVal(now)
    ensures 0 <= d.1 < USEC_PER_SEC
    ensures d.0 * USEC_PER_SEC + d.1 == Micros(now) - Micros(origin)
    ensures d.0 >= 0 <==> Micros(origin) <= Micros(now)
  {
    var (sec, usec) := if now.usec < origin.usec then (now.sec - 1, now.usec + USEC_PER_SEC)
                       else (now.sec, now.usec);
    (sec - origin.sec, usec - origin.usec)
  }

  /** Microseconds from `origin` to `now` as an `unsigned long`. */
  function Elapsed(origin: TimeVal, now: TimeVal): (v: nat)
    requires IsTimeVal(origin) && IsTimeVal(now)
    ensures v < ULONG_MODULUS
    ensures v == (Micros(now) - Micros(origin)) % ULONG_MODULUS
    ensures Micros(origin) <= Micros(now) < Micros(origin) + ULONG_MODULUS ==>
              v == Micros(now) - Micros(origin)
  {
    var (ds, du) := Difference(origin, now);
    (ds * USEC_PER_SEC + du) % ULONG_MODULUS
  }

  /** The 60 Hz window a clock value falls in. */
  function Window(v: nat): nat {
    v / USEC_PER_TICK
  }

  /** The clock's private state: the origin (a zero second count means "not yet sampled")
      and the last 60 Hz window a pulse was posted for. */
  datatype ClockState = ClockState(origin: TimeVal, lastHz60: nat)

  predicate Started(st: ClockState) {
    st.origin.sec != 0
  }

  /** One sample: the new clock state, the value returned and whether a 60 Hz pulse is posted. */
  datatype Sample = Sample(next: ClockState, v: nat, pulse: bool)

  /** A clock sample taken at host time `now`; `usClockTicks` says whether the
      microsecond clock is the 60 Hz source. */
  function TakeSample(st: ClockState, now: TimeVal, usClockTicks: bool): (s: Sample)
    requires IsTimeVal(st.origin) && IsTimeVal(now)
    ensures IsTimeVal(s.next.origin) && s.v < ULONG_MODULUS
    // the first sample records the origin and reads 0
    ensures !Started(st) ==> s.next == ClockState(now, 0) && s.v == 0 && !s.pulse
    // a later one reads the time elapsed since the origin
    ensures Started(st) ==> s.next.origin == st.origin && s.v == Elapsed(st.origin, now)
    // a pulse is posted exactly when a new window has been reached
    ensures s.pulse <==> Started(st) && usClockTicks && Window(s.v) > st.lastHz60
    // and the last window only ever moves forward, to the window of the sample
    ensures Started(st) ==>
              s.next.lastHz60 == if s.pulse then Window(s.v) else st.lastHz60
    ensures Started(st) ==> s.next.lastHz60 >= st.lastHz60
  {
    if !Started(st) then
      Sample(ClockState(now, 0), 0, false)
    else
      var v := Elapsed(st.origin, now);
      var hz60 := v / USEC_PER_TICK;
      if usClockTicks && hz60 > st.lastHz60 then Sample(ClockState(st.origin, hz60), v, true)
      else Sample(ClockState(st.origin, st.lastHz60), v, false)
  }

  predicate AllTimeVals(times: seq<TimeVal>) {
    forall i :: 0 <= i < |times| ==> IsTimeVal(times[i])
  }

  /** Samples taken one after another: the final clock state and the number of pulses posted. */
  function Run(st: ClockState, times: seq<TimeVal>, usClockTicks: bool): (r: (ClockState, nat))
    requires IsTimeVal(st.origin) && AllTimeVals(times)
    decreases |times|
  {
    if times == [] then (st, 0)
    else
      var s := TakeSample(st, times[0], usClockTicks);
      var (final, pulses) := Run(s.next, times[1..], usClockTicks);
      (final, pulses + if s.pulse then 1 else 0)
  }

  /** Over any run of samples after the first: the origin stays, at most one pulse is posted
      per sample, and every pulse consumes a window of its own, so no backlog of pulses builds up. */
  lemma {:induction false} RunPostsNoBacklog(st: ClockState, times: seq<TimeVal>, usClockTicks: bool)
    requires IsTimeVal(st.origin) && AllTimeVals(times) && Started(st)
    ensures Run(st, times, usClockTicks).0.origin == st.origin
    ensures Run(st, times, usClockTicks).1 <= |times|
    ensures st.lastHz60 + Run(st, times, usClockTicks).1 <= Run(st, times, usClockTicks).0.lastHz60
    decreases |times|
  {
    if times != [] {
      var s := TakeSample(st, times[0], usClockTicks);
      var tail := Run(s.next, times[1..], usClockTicks);
      assert Run(st, times, usClockTicks) == (tail.0, tail.1 + if s.pulse then 1 else 0);
      RunPostsNoBacklog(s.next, times[1..], usClockTicks);
    }
  }

  /** The clock value never decreases while the host time does not go backwards and
      stays within 2^64 microseconds of the origin. */
  lemma ElapsedMonotone(origin: TimeVal, a: TimeVal, b: TimeVal)
    requires IsTimeVal(origin) && IsTimeVal(a) && IsTimeVal(b)
    requires Micros(origin) <= Micros(a) <= Micros(b) < Micros(origin) + ULONG_MODULUS
    ensures Elapsed(origin, a) <= Elapsed(origin, b)
  {
  }

  /** Host times that never go backwards, all within 2^64 microseconds of `origin`
      and no earlier than it. */
  predicate MonotoneFrom(origin: TimeVal, times: seq<TimeVal>) {
    AllTimeVals(times) &&
    (forall i :: 0 <= i < |times| ==>
       Micros(origin) <= Micros(times[i]) < Micros(origin) + ULONG_MODULUS) &&
    (forall i :: 0 < i < |times| ==> Micros(times[i - 1]) <= Micros(times[i]))
  }

  /** Consecutive host times at most one 60 Hz window apart. */
  predicate Oversampled(times: seq<TimeVal>) {
    forall i :: 0 < i < |times| ==> Micros(times[i]) - Micros(times[i - 1]) <= USEC_PER_TICK
  }

  /** Two clock values at most one window apart lie in the same or adjacent windows. */
  lemma WindowStep(a: nat, b: nat)
    requires a <= b <= a + USEC_PER_TICK
    ensures Window(a) <= Window(b) <= Window(a) + 1
  {
  }

  /** When the clock is sampled at least once per window, no window is skipped: a run that
      starts in the window after the last one posted, or in that window, posts exactly one
      pulse for every window it enters. */
  lemma {:induction false} OversampledRunPostsEveryWindow(st: ClockState, times: seq<TimeVal>)
    requires IsTimeVal(st.origin) && Started(st) && times != []
    requires MonotoneFrom(st.origin, times) && Oversampled(times)
    requires st.lastHz60 <= Window(Elapsed(st.origin, times[0])) <= st.lastHz60 + 1
    ensures Run(st, times, true).0.lastHz60 == Window(Elapsed(st.origin, times[|times| - 1]))
    ensures Run(st, times, true).1 == Window(Elapsed(st.origin, times[|times| - 1])) - st.lastHz60
    decreases |times|
  {
    var s := TakeSample(st, times[0], true);
    assert s.next.lastHz60 == Window(Elapsed(st.origin, times[0]));
    if |times| > 1 {
      var rest := times[1..];
      assert MonotoneFrom(st.origin, rest) by {
        forall i | 0 < i < |rest| ensures Micros(rest[i - 1]) <= Micros(rest[i]) {
          assert rest[i - 1] == times[i] && rest[i] == times[i + 1];
        }
      }
      assert Oversampled(rest) by {
        forall i | 0 < i < |rest| ensures Micros(rest[i]) - Micros(rest[i - 1]) <= USEC_PER_TICK {
          assert rest[i - 1] == times[i] && rest[i] == times[i + 1];
        }
      }
      assert Micros(times[0]) <= Micros(times[1]);
      WindowStep(Elapsed(st.origin, times[0]), Elapsed(st.origin, times[1]));
      OversampledRunPostsEveryWindow(s.next, rest);
      assert rest[|rest| - 1] == times[|times| - 1];
    }
  }

  /** Consecutive host times at least two 60 Hz windows apart. */
  predicate Undersampled(times: seq<TimeVal>) {
    forall i :: 0 < i < |times| ==> Micros(times[i]) - Micros(times[i - 1]) >= 2 * USEC_PER_TICK
  }

  /** Two clock values at least two windows apart lie at least two windows apart. */
  lemma WindowGap(a: nat, b: nat)
    requires a + 2 * USEC_PER_TICK <= b
    ensures Window(a) + 2 <= Window(b)
  {
  }

  /** When the clock is sampled less than once per two windows, the windows in between are
      dropped, not caught up: every sample posts exactly one pulse while the last window
      advances by at least two per sample, so the pulse rate follows the sampling rate. */
  lemma {:induction false} UndersampledRunDropsWindows(st: ClockState, times: seq<TimeVal>)
    requires IsTimeVal(st.origin) && Started(st) && times != []
    requires MonotoneFrom(st.origin, times) && Undersampled(times)
    requires st.lastHz60 + 2 <= Window(Elapsed(st.origin, times[0]))
    ensures Run(st, times, true).1 == |times|
    ensures Run(st, times, true).0.lastHz60 == Window(Elapsed(st.origin, times[|times| - 1]))
    ensures Run(st, times, true).0.lastHz60 >= st.lastHz60 + 2 * |times|
    decreases |times|
  {
    var s := TakeSample(st, times[0], true);
    assert s.pulse && s.next.lastHz60 == Window(Elapsed(st.origin, times[0]));
    if |times| > 1 {
      var rest := times[1..];
      assert MonotoneFrom(st.origin, rest) by {
        forall i | 0 < i < |rest| ensures Micros(rest[i - 1]) <= Micros(rest[i]) {
          assert rest[i - 1] == times[i] && rest[i] == times[i + 1];
        }
      }
      assert Undersampled(rest) by {
        forall i | 0 < i < |rest| ensures Micros(rest[i]) - Micros(rest[i - 1]) >= 2 * USEC_PER_TICK {
          assert rest[i - 1] == times[i] && rest[i] == times[i + 1];
        }
      }
      assert Micros(times[0]) + 2 * USEC_PER_TICK <= Micros(times[1]);
      WindowGap(Elapsed(st.origin, times[0]), Elapsed(st.origin, times[1]));
      UndersampledRunDropsWindows(s.next, rest);
      assert rest[|rest| - 1] == times[|times| - 1];
    }
  }

  /** Three samples 32 ms apart after the origin post three pulses while six windows pass. */
  lemma ThreeSamples32msApart(origin: TimeVal)
    requires IsTimeVal(origin) && origin.sec > 0
    ensures var times := [origin, FromMicros(Micros(origin) + 32000),
                          FromMicros(Micros(origin) + 64000), FromMicros(Micros(origin) + 96000)];
            Run(ClockState(TimeVal(0, 0), 0), times, true) == (ClockState(origin, 6), 3)
  {
    var later := [FromMicros(Micros(origin) + 32000), FromMicros(Micros(origin) + 64000),
                  FromMicros(Micros(origin) + 96000)];
    var s := TakeSample(ClockState(TimeVal(0, 0), 0), origin, true);
    assert s.next == ClockState(origin, 0) && !s.pulse;
    assert ([origin] + later)[1..] == later;
    assert Elapsed(origin, later[0]) == 32000;
    assert Elapsed(origin, later[2]) == 96000;
    UndersampledRunDropsWindows(s.next, later);
    RunPostsNoBacklog(s.next, later, true);
  }

  /** Samples every millisecond from `origin` on: the first `n` of them. */
  function EveryMillisecond(origin: TimeVal, n: nat): (times: seq<TimeVal>)
    requires IsTimeVal(origin)
    ensures |times| == n && AllTimeVals(times)
    ensures forall i :: 0 <= i < n ==> Micros(times[i]) == Micros(origin) + (i + 1) * 1000
  {
    seq(n, i requires 0 <= i => FromMicros(Micros(origin) + (i + 1) * 1000))
  }

  /** Sampling the clock once at `origin` and then every millisecond for one second posts
      62 pulses: the 16 ms window makes the rate 62.5 Hz rather than 60 Hz. */
  lemma OneSecondOfMillisecondSamples(origin: TimeVal)
    requires IsTimeVal(origin) && origin.sec > 0
    ensures Run(ClockState(TimeVal(0, 0), 0), [origin] + EveryMillisecond(origin, 1000), true).1 == 62
  {
    var start := ClockState(TimeVal(0, 0), 0);
    var times := EveryMillisecond(origin, 1000);
    var s := TakeSample(start, origin, true);
    assert s.next == ClockState(origin, 0) && !s.pulse;
    assert ([origin] + times)[1..] == times;
    assert MonotoneFrom(origin, times) by {
      forall i | 0 < i < |times| ensures Micros(times[i - 1]) <= Micros(times[i]) {
      }
    }
    assert Elapsed(origin, times[0]) == 1000;
    assert Elapsed(origin, times[999]) == 1000000;
    OversampledRunPostsEveryWindow(s.next, times);
  }

  /** The polled 60 Hz source fires on every multiple of the tick length in cycles. */
  predicate PollFires(cycles: nat) {
    cycles % CYCLES_PER_TICK == 0
  }

  /** How many of the cycle counts 0 .. n-1 make the poll fire. */
  function FiresBelow(n: nat): nat {
    if n == 0 then 0 else FiresBelow(n - 1) + if PollFires(n - 1) then 1 else 0
  }

  /** A cycle count between two consecutive multiples of the tick length lies in the tick
      of the lower one. */
  lemma TickOf(a: nat, q: nat)
    requires q * CYCLES_PER_TICK <= a < q * CYCLES_PER_TICK + CYCLES_PER_TICK
    ensures a / CYCLES_PER_TICK == q
  {
  }

  /** Polling on every cycle count below `n` fires once per started tick length. */
  lemma {:induction false} FiresBelowCount(n: nat)
    ensures FiresBelow(n) == (n + CYCLES_PER_TICK - 1) / CYCLES_PER_TICK
  {
    if n > 0 {
      FiresBelowCount(n - 1);
      var k := CYCLES_PER_TICK;
      var q, r := (n - 1) / k, (n - 1) % k;
      assert n - 1 == q * k + r;
      if r == 0 {
        TickOf(n - 1 + k - 1, q);
        TickOf(n + k - 1, q + 1);
      } else {
        TickOf(n - 1 + k - 1, q + 1);
        TickOf(n + k - 1, q + 1);
      }
    }
  }
}
