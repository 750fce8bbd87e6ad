/**
 * The global state of scheduler.c that every direction thread shares: the cost `sum`,
 * the policy-A baseline `sum1`, the car counter `count` and the start time `global_ts`,
 * with the operations that update them. Each update the source makes under its own
 * mutex is one method here; the locking itself is not modelled.
 */
module Shared {
  import opened Defs
  import opened Clock
  import opened Accounting

  class Globals {
    var sum: int
    var sum1: int
    var count: int
    var epoch: Timespec

    /** Costs are squares and the counter only counts up. */
    ghost predicate Valid()
      reads this
    {
      sum >= 0 && sum1 >= 0 && count >= 0
    }

    /** The initialisation at the start of `main`; `global_ts` starts zeroed, as a C global does. */
    constructor ()
      ensures Valid()
      ensures sum == 0 && sum1 == 0 && count == 0
      ensures epoch == Timespec(0, 0)
    {
      sum := 0;
      sum1 := 0;
      count := 0;
      epoch := Timespec(0, 0);
    }

    /** Each scheduler records its start time before it starts the direction threads. */
    method StartClock(now: Timespec)
      requires Valid()
      modifies this`epoch
      ensures Valid()
      ensures epoch == now
    {
      epoch := now;
    }

    /**
     * `car_setTime(setArrival, c)`: the milliseconds elapsed since the start go to the
     * arrival time when `setArrival` is 1 and to the departure time otherwise.
     */
    method SetTime(setArrival: int, c: Car, now: Timespec)
      modifies c
      ensures setArrival == 1 ==> c.at == ElapsedMillis(now, epoch) && c.dt == old(c.dt)
      ensures setArrival != 1 ==> c.dt == ElapsedMillis(now, epoch) && c.at == old(c.at)
    {
      var e := ElapsedSince(now, epoch);
      var total := e.sec * 1000 + e.ms;
      if setArrival == 1 {
        c.at := total;
      } else {
        c.dt := total;
      }
    }

    /**
     * `updateCost(c)`: adds the car's cost to the sum. A car whose times fail the guard
     * goes through the mock panic, which only prints, and adds nothing.
     */
    method UpdateCost(c: Car)
      requires Valid()
      modifies this`sum
      ensures Valid()
      ensures sum == old(sum) + Cost(c.at, c.dt)
      ensures !TimesSet(c.at, c.dt) ==> sum == old(sum)
    {
      var waited := 0;
      if c.dt != 0 && c.at != 0 && c.dt > 0 {
        waited := c.dt - c.at;
      }
      var cost := RoundCast(waited * waited);
      RoundCastExact(waited * waited);
      sum := sum + cost;
    }

    /**
     * `spawnCar(d)` followed by `arrive`: a new car with the next number, the departure
     * sentinel -1 and the current elapsed time as its arrival time.
     */
    method SpawnCar(d: Direction, now: Timespec) returns (c: Car)
      requires Valid()
      modifies this`count
      ensures Valid() && fresh(c)
      ensures count == old(count) + 1 && c.num == count
      ensures c.dir == d && c.dt == -1 && c.at == ElapsedMillis(now, epoch)
    {
      count := count + 1;
      c := new Car(d, count);
      SetTime(1, c, now);
    }

    /**
     * `pass(c)`: the departure time is taken before the 500 ms crossing and the cost is
     * added to the sum after it.
     */
    method Pass(c: Car, now: Timespec)
      requires Valid()
      modifies this`sum, c
      ensures Valid()
      ensures c.dt == ElapsedMillis(now, epoch) && c.at == old(c.at)
      ensures sum == old(sum) + Cost(c.at, c.dt)
    {
      SetTime(0, c, now);
      UpdateCost(c);
    }

    /** The end of the simple scheduler keeps its final cost as the baseline. */
    method SaveBaseline()
      requires Valid()
      modifies this`sum1
      ensures Valid()
      ensures sum1 == sum
    {
      sum1 := sum;
    }

    /** Between the two policies `main` zeroes the sum and the counter but keeps the baseline. */
    method ResetCounters()
      requires Valid()
      modifies this`sum, this`count
      ensures Valid()
      ensures sum == 0 && count == 0
    {
      sum := 0;
      count := 0;
    }
  }
}
