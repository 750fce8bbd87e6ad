/**
 * Elapsed time since the scheduler's start, as computed in scheduler.c by `timestamp`,
 * `getRuntime` and `car_setTime`: the second and nanosecond differences of two
 * `clock_gettime` readings, with the milliseconds borrowed from the seconds when negative.
 * The readings themselves are parameters here.
 */
module Clock {
  import opened Defs

  /** `tv_nsec` of a `struct timespec` filled by `clock_gettime` always lies in [0, 10^9). */
  type Nanos = n: int | 0 <= n < 1_000_000_000

  /** One clock reading. */
  datatype Timespec = Timespec(sec: int, nsec: Nanos)

  /** Elapsed time split the way the source splits it: whole seconds and 0..999 milliseconds. */
  datatype Elapsed = Elapsed(sec: int, ms: int)

  /** `ns / 1000000` with C's integer division, which truncates toward zero. */
  function NsToMs(ns: int): (ms: int)
    ensures ns >= 0 ==> ms * 1_000_000 <= ns < ms * 1_000_000 + 1_000_000
    ensures ns < 0 ==> ms * 1_000_000 - 1_000_000 < ns <= ms * 1_000_000
  {
    if ns >= 0 then ns / 1_000_000 else -((-ns) / 1_000_000)
  }

  /**
   * The sec/ms computation shared by `timestamp`, `getRuntime` and `car_setTime`.
   * The borrow keeps the total number of milliseconds and brings the millisecond
   * part into 0..999.
   */
  function ElapsedSince(now: Timespec, epoch: Timespec): (e: Elapsed)
    ensures 0 <= e.ms < 1000
    ensures e.sec * 1000 + e.ms == (now.sec - epoch.sec) * 1000 + NsToMs(now.nsec - epoch.nsec)
  {
    var sec := now.sec - epoch.sec;
    var ms := NsToMs(now.nsec - epoch.nsec);
    if ms < 0 then Elapsed(sec - 1, 1000 + ms) else Elapsed(sec, ms)
  }

  /** The total `(sec*1000)+ms` that `car_setTime` stores in a car. */
  function ElapsedMillis(now: Timespec, epoch: Timespec): int
  {
    var e := ElapsedSince(now, epoch);
    e.sec * 1000 + e.ms
  }

  /**
   * `getRuntime(units)`: 0 asks for the millisecond part, 1 for the whole seconds;
   * any other unit reaches the (printing-only) panic and returns -1.
   */
  function GetRuntime(units: int, now: Timespec, epoch: Timespec): (r: int)
    ensures units == 0 ==> 0 <= r < 1000 && r == ElapsedMillis(now, epoch) % 1000
    ensures units == 1 ==> r == ElapsedMillis(now, epoch) / 1000
    ensures units != 0 && units != 1 ==> r == -1
  {
    var e := ElapsedSince(now, epoch);
    if units == 0 then e.ms
    else if units == 1 then e.sec
    else -1
  }

  /** The nanoseconds between the two readings. */
  function ElapsedNanos(now: Timespec, epoch: Timespec): int
  {
    (now.sec - epoch.sec) * 1_000_000_000 + (now.nsec - epoch.nsec)
  }

  /**
   * How the millisecond total rounds the true elapsed time: down when the nanosecond
   * field did not wrap, up when it did (the borrow happens after the division, not
   * before), and in every case less than one millisecond away.
   */
  lemma ElapsedMillisRounding(now: Timespec, epoch: Timespec)
    ensures now.nsec >= epoch.nsec ==> ElapsedMillis(now, epoch) == ElapsedNanos(now, epoch) / 1_000_000
    ensures now.nsec < epoch.nsec ==> ElapsedMillis(now, epoch) == -((-ElapsedNanos(now, epoch)) / 1_000_000)
    ensures var m := ElapsedMillis(now, epoch);
      m * 1_000_000 - 1_000_000 < ElapsedNanos(now, epoch) < m * 1_000_000 + 1_000_000
  {
    var m := ElapsedMillis(now, epoch);
    var t := ElapsedNanos(now, epoch);
    var nd := now.nsec - epoch.nsec;
    assert m == (now.sec - epoch.sec) * 1000 + NsToMs(nd);
    assert t == (m - NsToMs(nd)) * 1_000_000 + nd;
    if nd >= 0 {
      assert m * 1_000_000 <= t < m * 1_000_000 + 1_000_000;
    } else {
      assert m * 1_000_000 - 1_000_000 < t <= m * 1_000_000;
      assert (-m) * 1_000_000 <= -t < (-m) * 1_000_000 + 1_000_000;
    }
  }

  /** 0.999999999 s after the epoch the millisecond total already reads 1000. */
  lemma ElapsedRoundsUpAcrossSecond()
    ensures ElapsedNanos(Timespec(1, 0), Timespec(0, 1)) == 999_999_999
    ensures ElapsedMillis(Timespec(1, 0), Timespec(0, 1)) == 1000
  {
  }

  /**
   * The C code computes all of this in 32-bit `int`: within about 24.8 days of the
   * epoch, in either direction, neither the seconds nor the millisecond total leave
   * that range.
   */
  lemma ElapsedFitsInt(now: Timespec, epoch: Timespec)
    requires -2_147_482 <= now.sec - epoch.sec <= 2_147_482
    ensures var e := ElapsedSince(now, epoch);
      INT_MIN <= e.sec <= INT_MAX && INT_MIN <= ElapsedMillis(now, epoch) <= INT_MAX
  {
  }

  /** Reading `a` was taken no later than reading `b`. */
  predicate NotAfter(a: Timespec, b: Timespec)
  {
    a.sec < b.sec || (a.sec == b.sec && a.nsec <= b.nsec)
  }

  /**
   * The stored millisecond total never decreases between two readings taken in order,
   * although one may be rounded down and the other up.
   */
  lemma ElapsedMonotone(a: Timespec, b: Timespec, epoch: Timespec)
    requires NotAfter(a, b)
    ensures ElapsedMillis(a, epoch) <= ElapsedMillis(b, epoch)
  {
    ElapsedMillisRounding(a, epoch);
    ElapsedMillisRounding(b, epoch);
  }

  /** The seconds and milliseconds that `getRuntime` reports recombine to the total. */
  lemma RuntimeRecombines(now: Timespec, epoch: Timespec)
    ensures GetRuntime(1, now, epoch) * 1000 + GetRuntime(0, now, epoch) == ElapsedMillis(now, epoch)
  {
  }
}
