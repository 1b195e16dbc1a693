/** Where the next frame starts: the point of the refresh grid through the last frame that follows
    now. */
module VsyncTime {
  import opened TimeEncoding

  datatype Target = Target(current: UInt64, finish: UInt64)

  /** The time since the last refresh, as computed on unsigned 64-bit values. */
  function AfterVsync(now: UInt64, lastFrame: UInt64, period: UInt64): nat
    requires period > 0
  {
    ToUInt64(now - lastFrame) % period
  }

  function TargetOf(now: UInt64, lastFrame: UInt64, period: UInt64): Target
    requires period > 0
  {
    var current := ToUInt64(now + (period - AfterVsync(now, lastFrame, period)));
    Target(current, ToUInt64(current + period))
  }

  /** `x` is a whole number of periods away from `origin`. */
  predicate OnGrid(x: int, origin: int, period: int)
    requires period > 0
  {
    (x - origin) % period == 0
  }

  /** The two targets lie within the 64 bits they are computed in. */
  predicate InRange(now: UInt64, period: UInt64) {
    now + 2 * period < TWO_64
  }

  lemma MultipleBounds(d: int, p: int)
    requires p > 0
    ensures d >= 1 ==> d * p >= p
    ensures d <= 0 ==> d * p <= 0
    ensures d <= -1 ==> d * p <= -p
  {
  }

  lemma Remainder(x: int, k: int, r: int, p: int)
    requires p > 0 && 0 <= r < p && x == k * p + r
    ensures x % p == r
  {
    var d := k - x / p;
    assert x == p * (x / p) + x % p;
    assert d * p == x % p - r by { assert k * p == d * p + (x / p) * p; }
    MultipleBounds(d, p);
  }

  lemma SumOfMultiples(x: int, y: int, p: int)
    requires p > 0 && y % p == 0
    ensures (x + y) % p == x % p && (x - y) % p == x % p
  {
    var k, j := x / p, y / p;
    assert x == k * p + x % p && y == j * p;
    assert x + y == (k + j) * p + x % p;
    assert x - y == (k - j) * p + x % p;
    Remainder(x + y, k + j, x % p, p);
    Remainder(x - y, k - j, x % p, p);
  }

  /** The offset that completes a period. */
  lemma Completes(x: int, p: int)
    requires p > 0
    ensures (x + (p - x % p)) % p == 0
  {
    var k := x / p;
    assert x == k * p + x % p;
    assert x + (p - x % p) == (k + 1) * p;
    Remainder(x + (p - x % p), k + 1, 0, p);
  }

  /** A positive multiple of a period is at least one period. */
  lemma MultipleIsPeriod(x: int, p: int)
    requires p > 0 && x > 0 && x % p == 0
    ensures x >= p
  {
  }

  /** The frame starts at the least grid point after now, within one period, and ends at the next. */
  lemma TargetIsNextGridPoint(now: UInt64, lastFrame: UInt64, period: UInt64)
    requires period > 0 && lastFrame <= now && InRange(now, period)
    ensures var t := TargetOf(now, lastFrame, period);
            && OnGrid(t.current, lastFrame, period) && now < t.current <= now + period
            && t.finish == t.current + period
            && forall x :: now < x && OnGrid(x, lastFrame, period) ==> t.current <= x
  {
    var t := TargetOf(now, lastFrame, period);
    AfterVsyncOfPast(now, lastFrame, period);
    TargetWithin(now, lastFrame, period, (now - lastFrame) % period);
    Completes(now - lastFrame, period);
    assert t.current - lastFrame == (now - lastFrame) + (period - (now - lastFrame) % period);
    forall x | now < x && OnGrid(x, lastFrame, period) ensures t.current <= x {
      NoGridPointBetween(x, t.current, lastFrame, period);
    }
  }

  /** Two different grid points are at least a period apart. */
  lemma NoGridPointBetween(x: int, y: int, origin: int, period: int)
    requires period > 0 && OnGrid(x, origin, period) && OnGrid(y, origin, period)
    ensures x < y ==> y - x >= period
  {
    SumOfMultiples(y - origin, x - origin, period);
    assert (y - origin) - (x - origin) == y - x;
    if x < y {
      MultipleIsPeriod(y - x, period);
    }
  }

  /** When the last frame lies in the future the subtraction wraps; the target stays within one period
      but misses the grid, unless the period divides 2^64. */
  lemma TargetOnGridExactlyWhen(now: UInt64, lastFrame: UInt64, period: UInt64)
    requires period > 0 && InRange(now, period)
    ensures var t := TargetOf(now, lastFrame, period);
            && now < t.current <= now + period && t.finish == t.current + period
            && (OnGrid(t.current, lastFrame, period) <==> lastFrame <= now || TWO_64 % period == 0)
  {
    if lastFrame <= now {
      TargetIsNextGridPoint(now, lastFrame, period);
    } else {
      WrappedTarget(now, lastFrame, period);
      WrappedOnGrid(TargetOf(now, lastFrame, period).current - lastFrame, period);
    }
  }

  /** A last frame in the future counts as 2^64 ns earlier. */
  lemma WrappedTarget(now: UInt64, lastFrame: UInt64, period: UInt64)
    requires period > 0 && InRange(now, period) && now < lastFrame
    ensures var t := TargetOf(now, lastFrame, period);
            && now < t.current <= now + period && t.finish == t.current + period
            && (t.current - lastFrame + TWO_64) % period == 0
  {
    var elapsed := now - lastFrame + TWO_64;
    AfterVsyncOfFuture(now, lastFrame, period);
    TargetWithin(now, lastFrame, period, elapsed % period);
    Completes(elapsed, period);
    assert TargetOf(now, lastFrame, period).current - lastFrame + TWO_64 == elapsed + (period - elapsed % period);
  }

  lemma TargetWithin(now: UInt64, lastFrame: UInt64, period: UInt64, after: nat)
    requires period > 0 && InRange(now, period) && AfterVsync(now, lastFrame, period) == after < period
    ensures TargetOf(now, lastFrame, period) == Target(now + (period - after), now + (period - after) + period)
  {
    FitsUInt64(now + (period - after));
    FitsUInt64(now + (period - after) + period);
  }

  lemma FitsUInt64(x: int)
    requires 0 <= x < TWO_64
    ensures ToUInt64(x) == x
  {
  }

  lemma AfterVsyncOfFuture(now: UInt64, lastFrame: UInt64, period: UInt64)
    requires period > 0 && now < lastFrame
    ensures AfterVsync(now, lastFrame, period) == (now - lastFrame + TWO_64) % period
  {
  }

  lemma WrappedOnGrid(x: int, period: int)
    requires period > 0 && (x + TWO_64) % period == 0
    ensures x % period == 0 <==> TWO_64 % period == 0
  {
    if TWO_64 % period == 0 {
      SumOfMultiples(x + TWO_64, TWO_64, period);
    }
    if x % period == 0 {
      SumOfMultiples(x + TWO_64, x, period);
    }
  }

  lemma AfterVsyncOfPast(now: UInt64, lastFrame: UInt64, period: UInt64)
    requires period > 0 && lastFrame <= now
    ensures AfterVsync(now, lastFrame, period) == (now - lastFrame) % period
  {
  }

  /** Only the grid matters: a last frame shifted by whole periods gives the same target. */
  lemma TargetDependsOnGridOnly(now: UInt64, lastFrame: UInt64, other: UInt64, period: UInt64)
    requires period > 0 && lastFrame <= now && other <= now && OnGrid(other, lastFrame, period)
    ensures TargetOf(now, other, period) == TargetOf(now, lastFrame, period)
  {
    SumOfMultiples(now - lastFrame, other - lastFrame, period);
    assert (now - lastFrame) - (other - lastFrame) == now - other;
    AfterVsyncOfPast(now, lastFrame, period);
    AfterVsyncOfPast(now, other, period);
  }

  // ---------- a sequence of frames ----------

  datatype Frame = Frame(now: UInt64, lastFrame: UInt64)

  /** The clock does not go back, and every reported frame lies in the past and on one grid. */
  ghost predicate Steady(frames: seq<Frame>, origin: UInt64, period: UInt64)
    requires period > 0
  {
    && (forall i :: 0 <= i < |frames| ==>
          && origin <= frames[i].now && frames[i].lastFrame <= frames[i].now && InRange(frames[i].now, period)
          && OnGrid(frames[i].lastFrame, origin, period))
    && (forall i, j :: 0 <= i < j < |frames| ==> frames[i].now <= frames[j].now)
  }

  /** Targets never go back; and a frame requested at or after the previous target gets a later one. */
  lemma TargetsAdvance(frames: seq<Frame>, origin: UInt64, period: UInt64, i: nat, j: nat)
    requires period > 0 && Steady(frames, origin, period) && i < j < |frames|
    ensures var a := TargetOf(frames[i].now, frames[i].lastFrame, period);
            var b := TargetOf(frames[j].now, frames[j].lastFrame, period);
            && a.current <= b.current
            && (frames[j].now >= a.current ==> b.current >= a.finish)
            && OnGrid(b.current, a.current, period)
  {
    var a := TargetOf(frames[i].now, frames[i].lastFrame, period);
    var b := TargetOf(frames[j].now, frames[j].lastFrame, period);
    TargetDependsOnGridOnly(frames[i].now, origin, frames[i].lastFrame, period);
    TargetDependsOnGridOnly(frames[j].now, origin, frames[j].lastFrame, period);
    TargetIsNextGridPoint(frames[i].now, origin, period);
    TargetIsNextGridPoint(frames[j].now, origin, period);
    SumOfMultiples(b.current - origin, a.current - origin, period);
    assert (b.current - origin) - (a.current - origin) == b.current - a.current;
    if b.current > a.current {
      MultipleIsPeriod(b.current - a.current, period);
    }
  }
}
