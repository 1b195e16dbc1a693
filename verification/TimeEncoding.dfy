/** Widths and encodings of time: C integer division, timespec, the presentation timestamp
    and the refresh period. */
module TimeEncoding {
  const TWO_32 := 0x1_0000_0000
  const TWO_63 := 0x8000_0000_0000_0000
  const TWO_64 := 0x1_0000_0000_0000_0000
  const NSEC_PER_SEC := 1_000_000_000
  const MILLIHERTZ_NSEC := 1_000_000_000_000
  const LONG_MAX := TWO_63 - 1

  type UInt32 = x: int | 0 <= x < TWO_32
  type UInt64 = x: int | 0 <= x < TWO_64
  type Int32 = x: int | -0x8000_0000 <= x < 0x8000_0000
  type Int64 = x: int | -TWO_63 <= x < TWO_63

  /** Conversions modulo the width of the target type. */
  function ToUInt64(x: int): UInt64 { x % TWO_64 }

  function ToInt64(x: int): Int64 {
    if x % TWO_64 < TWO_63 then x % TWO_64 else x % TWO_64 - TWO_64
  }

  /** Division and remainder of C: the quotient is truncated toward zero. */
  function CDiv(a: int, b: int): int
    requires b != 0
  {
    if a >= 0 then a / b else -(-a / b)
  }

  function CMod(a: int, b: int): int
    requires b != 0
  {
    a - b * CDiv(a, b)
  }

  datatype Timespec = Timespec(sec: int, nsec: int) {
    function Nanos(): int { sec * NSEC_PER_SEC + nsec }
    predicate Normal() { 0 <= nsec < NSEC_PER_SEC }
  }

  /** timespec_from_nsec. */
  function FromNsec(b: Int64): Timespec {
    Timespec(CDiv(b, NSEC_PER_SEC), CMod(b, NSEC_PER_SEC))
  }

  /** timespec_from_msec, for an argument whose product stays in range. */
  function FromMsec(b: Int64): Timespec
    requires -TWO_63 <= b * 1_000_000 < TWO_63
  {
    FromNsec(b * 1_000_000)
  }

  /** FromNsec loses nothing, and inverts Nanos on normal non-negative time values. */
  lemma NsecRoundTrip(b: Int64)
    ensures FromNsec(b).Nanos() == b
    ensures FromNsec(b).Normal() <==> b >= 0 || b % NSEC_PER_SEC == 0
    ensures -NSEC_PER_SEC < FromNsec(b).nsec < NSEC_PER_SEC
  {
  }

  lemma NormalIsRecovered(ts: Timespec)
    requires ts.Normal() && 0 <= ts.sec && ts.Nanos() < TWO_63
    ensures FromNsec(ts.Nanos()) == ts
  {
  }

  /** A millisecond count is zero exactly when the timer value built from it is zero. */
  lemma MsecZero(b: Int64)
    requires -TWO_63 <= b * 1_000_000 < TWO_63
    ensures FromMsec(b).Nanos() == b * 1_000_000
    ensures FromMsec(b) == Timespec(0, 0) <==> b == 0
  {
  }

  // ---------- the presentation timestamp ----------

  datatype Stamp = Stamp(hi: UInt32, lo: UInt32, nsec: UInt32) {
    function Seconds(): int { hi * TWO_32 + lo }

    /** The value does not exceed the 64 bits it is computed in. */
    predicate Fits() { Seconds() * NSEC_PER_SEC + nsec < TWO_64 }
  }

  /** The frame time computed from the three words of a presented event. */
  function FrameTime(s: Stamp): UInt64 {
    ToUInt64(ToUInt64(s.Seconds() * NSEC_PER_SEC) + s.nsec)
  }

  predicate Earlier(a: Stamp, b: Stamp) {
    a.hi < b.hi || (a.hi == b.hi && (a.lo < b.lo || (a.lo == b.lo && a.nsec < b.nsec)))
  }

  lemma FrameTimeExact(s: Stamp)
    requires s.Fits()
    ensures FrameTime(s) == s.Seconds() * NSEC_PER_SEC + s.nsec
  {
  }

  lemma Wraps(x: int, y: int)
    ensures ToUInt64(ToUInt64(x) + y) == (x + y) % TWO_64
  {
    var q := x / TWO_64;
    assert x == q * TWO_64 + ToUInt64(x);
    WholeTurns(ToUInt64(x) + y, q);
  }

  lemma WholeTurns(x: int, q: int)
    ensures (x + q * TWO_64) % TWO_64 == x % TWO_64
  {
  }

  /** Beyond 64 bits only whole multiples of 2^64 are lost. */
  lemma FrameTimeWraps(s: Stamp)
    ensures FrameTime(s) == (s.Seconds() * NSEC_PER_SEC + s.nsec) % TWO_64
  {
    Wraps(s.Seconds() * NSEC_PER_SEC, s.nsec);
  }

  /** Frame times are ordered as the words are, most significant first. */
  lemma FrameTimeIsStrictlyMonotone(a: Stamp, b: Stamp)
    requires a.Fits() && b.Fits()
    requires a.nsec < NSEC_PER_SEC && b.nsec < NSEC_PER_SEC
    ensures Earlier(a, b) <==> FrameTime(a) < FrameTime(b)
    ensures FrameTime(a) == FrameTime(b) ==> a == b
  {
    FrameTimeExact(a);
    FrameTimeExact(b);
    assert Earlier(a, b) <==> a.Seconds() < b.Seconds() || (a.Seconds() == b.Seconds() && a.nsec < b.nsec);
  }

  /** timespec_from_nsec recovers the stamp a frame time was computed from. */
  lemma StampIsRecovered(s: Stamp)
    requires s.nsec < NSEC_PER_SEC && s.Seconds() * NSEC_PER_SEC + s.nsec < TWO_63
    ensures FromNsec(FrameTime(s)) == Timespec(s.Seconds(), s.nsec)
  {
    FrameTimeExact(s);
    NormalIsRecovered(Timespec(s.Seconds(), s.nsec));
  }

  // ---------- the refresh period ----------

  /** The period of a refresh rate in millihertz, as stored in an unsigned 64-bit field. */
  function Period(refresh: Int32): UInt64
    requires refresh != 0
  {
    ToUInt64(CDiv(MILLIHERTZ_NSEC, refresh))
  }

  lemma DivisionBounds(n: nat, d: nat)
    requires d > 0
    ensures n / d * d <= n < (n / d + 1) * d
  {
  }

  /** The period of any rate but zero is not zero: the modulus of the vsync computation is defined. */
  lemma PeriodIsPositive(refresh: Int32)
    requires refresh != 0
    ensures Period(refresh) > 0
  {
    var rate: int := refresh;
    var magnitude: nat := if rate > 0 then rate else -rate;
    var q := MILLIHERTZ_NSEC / magnitude;
    DivisionBounds(MILLIHERTZ_NSEC, magnitude);
    assert 0 < q <= MILLIHERTZ_NSEC by {
      QuotientSize(MILLIHERTZ_NSEC, magnitude, q);
    }
    if rate < 0 {
      NegativeDivisor(MILLIHERTZ_NSEC, magnitude);
    }
  }

  lemma QuotientSize(n: nat, d: nat, q: nat)
    requires d > 0 && q * d <= n < (q + 1) * d
    ensures q == 0 <==> n < d
    ensures q <= n
  {
    assert q >= 1 ==> q * d >= d;
    assert q * d >= q;
  }

  lemma NegativeDivisor(n: nat, d: nat)
    requires d > 0
    ensures n / (0 - d) == 0 - n / d
  {
  }

  /** The period of a positive rate is the whole number of nanoseconds in one refresh. */
  lemma PeriodOfRefresh(refresh: Int32)
    requires refresh > 0
    ensures Period(refresh) * refresh <= MILLIHERTZ_NSEC < (Period(refresh) + 1) * refresh
  {
  }

  // ---------- the duration slept before the next platform event ----------

  /** set_sleep_to_next_platform_event. */
  function SleepUntil(wake: UInt64, now: UInt64): Timespec {
    if wake == 0 then Timespec(LONG_MAX, 0)
    else FromNsec(ToInt64(if now <= wake then wake - now else 0))
  }

  /** The sleep reaches the wake-up time and not beyond, unless it is more than 2^63 - 1 ns away:
      then the conversion to a signed count yields a negative duration. */
  lemma SleepReachesWake(wake: UInt64, now: UInt64)
    requires wake != 0
    ensures SleepUntil(wake, now).Nanos() == (if now <= wake then wake - now else 0) <==> wake - now < TWO_63
    ensures wake - now >= TWO_63 ==> SleepUntil(wake, now).Nanos() == wake - now - TWO_64 < 0
  {
  }

  /** Without a wake-up time the sleep is the longest that fits: no other is longer, and no second more
      fits the field. */
  lemma NoWakeSleepsLongest(wake: UInt64, now: UInt64, ts: Timespec)
    requires ts.Normal() && ts.sec < TWO_63
    ensures SleepUntil(wake, now).Nanos() <= SleepUntil(0, now).Nanos()
    ensures SleepUntil(0, now).nsec == 0 && ts.sec <= SleepUntil(0, now).sec < TWO_63
  {
  }
}
