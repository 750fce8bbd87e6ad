/**
 * The local state of one direction thread in scheduler.c: its `cars[100]` array with the
 * read cursor `i` and the fill index `j`, and one iteration of `produceCars` (simple
 * policy) or `p2_produceCars` (parallel policy) as one indivisible step. The source holds
 * the intersection mutex only around the dispatch, and `spawnCar` takes the counter mutex
 * once per car; `i`, `j` and `cars` are local to the thread, so treating the whole iteration
 * as one step loses only the interleaving of other threads' `count` increments.
 */
module Lanes {
  import opened Defs
  import opened Clock
  import opened Accounting
  import opened Directions
  import opened Shared
  import opened LaneSpec

  class Lane {
    const dir: Direction
    const policy: Policy
    const cars: array<Car?>
    var i: int
    var j: int
    /** The cars written so far, in slot order. */
    ghost var Queue: seq<Car>

    /**
     * Slots `0..j-1` hold distinct cars of this lane's direction in arrival order; the
     * cars from `i` on have not been sent and still carry the departure sentinel -1;
     * a lane appending in pairs has an even fill index.
     */
    ghost predicate Valid()
      reads this, cars, Queue
    {
      && cars.Length == CAPACITY
      && 0 <= i <= j <= CAPACITY
      && |Queue| == j
      && (forall k :: 0 <= k < j ==> cars[k] == Queue[k])
      && (forall k :: 0 <= k < j ==> Queue[k].dir == dir)
      && (forall k :: i <= k < j ==> Queue[k].dt == -1)
      && (forall a, b :: 0 <= a < b < j ==> Queue[a] != Queue[b])
      && (BatchSize(policy, dir) == 2 ==> j % 2 == 0)
    }

    /**
     * The cars' numbers increase along the array and none exceeds the shared counter:
     * arrival order is slot order.
     */
    ghost predicate NumberedBy(g: Globals)
      reads this, g
    {
      && (forall a, b :: 0 <= a < b < |Queue| ==> Queue[a].num < Queue[b].num)
      && (forall k :: 0 <= k < |Queue| ==> Queue[k].num <= g.count)
    }

    /** The two indices, as the value-level model sees them. */
    function Counts(): LaneCounts
      reads this
    {
      LaneCounts(i, j)
    }

    /** The locals at the start of the thread: `i = 0`, `j = 0` and an empty `cars[100]`. */
    constructor (d: Direction, p: Policy)
      ensures Valid() && fresh(cars)
      ensures dir == d && policy == p
      ensures Counts() == LaneCounts(0, 0) && Queue == []
    {
      dir := d;
      policy := p;
      cars := new Car?[CAPACITY];
      i := 0;
      j := 0;
      Queue := [];
    }

    /**
     * One iteration of `produceCars` after its random sleep: a new car is spawned and
     * appended while the array has room; then, if a car is waiting, the oldest one
     * crosses and its cost goes into the sum.
     */
    method SimpleStep(g: Globals, arrival: Timespec, departure: Timespec) returns (log: seq<Dispatch>)
      requires Valid() && g.Valid() && policy == Simple
      requires NumberedBy(g)
      modifies this, cars, Queue, g`sum, g`count
      ensures Valid() && g.Valid() && NumberedBy(g)
      ensures Counts() == Next(policy, dir, old(Counts()))
      ensures Queue[..old(j)] == old(Queue)
      ensures old(j) < CAPACITY ==>
        && fresh(Queue[old(j)])
        && Queue[old(j)].num == g.count == old(g.count) + 1
        && Queue[old(j)].at == ElapsedMillis(arrival, g.epoch)
      ensures old(j) == CAPACITY ==> g.count == old(g.count)
      ensures old(i) < j ==>
        && log == [Cross(Queue[old(i)])]
        && Queue[old(i)].dt == ElapsedMillis(departure, g.epoch)
        && g.sum == old(g.sum) + Cost(Queue[old(i)].at, Queue[old(i)].dt)
      ensures old(i) == j ==> log == [] && g.sum == old(g.sum)
      ensures old(i) == old(j) < CAPACITY && NotAfter(arrival, departure) ==>
        Queue[old(i)].at <= Queue[old(i)].dt
      ensures forall k :: 0 <= k < old(j) ==> Queue[k].at == old(Queue[k].at)
      ensures forall k :: 0 <= k < old(j) && k != old(i) ==> Queue[k].dt == old(Queue[k].dt)
    {
      if NotAfter(arrival, departure) {
        ElapsedMonotone(arrival, departure, g.epoch);
      }
      ProduceSimple(g, arrival);
      // The source tests `cars[i]` here (see WaitingTestMatchesSlot and AsWrittenTestOnRun).
      if i < j {
        log := CrossOne(g, departure);
      } else {
        log := [];
      }
    }

    /** The production phase of `produceCars`. */
    method ProduceSimple(g: Globals, arrival: Timespec)
      requires Valid() && g.Valid() && policy == Simple
      requires NumberedBy(g)
      modifies this, cars, g`count
      ensures Valid() && g.Valid() && NumberedBy(g)
      ensures Counts() == AfterAppend(policy, dir, old(Counts()))
      ensures Queue[..old(j)] == old(Queue)
      ensures old(j) < CAPACITY ==>
        && fresh(Queue[old(j)])
        && Queue[old(j)].num == g.count == old(g.count) + 1
        && Queue[old(j)].at == ElapsedMillis(arrival, g.epoch)
      ensures old(j) == CAPACITY ==> g.count == old(g.count)
    {
      if j < CAPACITY {
        var c := g.SpawnCar(dir, arrival);
        cars[j] := c;
        j := j + 1;
        Queue := Queue + [c];
      }
    }

    /**
     * One iteration of `p2_produceCars` after its random sleep: one car is appended, or
     * two for NORTH and EAST, while the array has room. If more than one car then waits,
     * each is launched into its own child process in queue order; the children update
     * their own copies of the car and the sum, so in this process the cars keep the
     * sentinel and the sum does not change. A single waiting car crosses as in the
     * simple policy.
     */
    method ParallelStep(g: Globals, arrival: Timespec, arrival2: Timespec, departure: Timespec)
      returns (log: seq<Dispatch>)
      requires Valid() && g.Valid() && policy == Parallel
      requires NumberedBy(g)
      modifies this, cars, Queue, g`sum, g`count
      ensures Valid() && g.Valid() && NumberedBy(g)
      ensures Counts() == Next(policy, dir, old(Counts()))
      ensures Queue[..old(j)] == old(Queue)
      ensures g.count == old(g.count) + (j - old(j))
      ensures old(j) < CAPACITY ==>
        && fresh(Queue[old(j)])
        && Queue[old(j)].num == old(g.count) + 1
        && Queue[old(j)].at == ElapsedMillis(arrival, g.epoch)
      ensures old(j) < CAPACITY && Paired(dir) ==>
        && fresh(Queue[old(j) + 1])
        && Queue[old(j) + 1].num == old(g.count) + 2
        && Queue[old(j) + 1].at == ElapsedMillis(arrival2, g.epoch)
      ensures j - old(i) > 1 ==>
        && log == BurstSchedule(Queue[old(i)..j])
        && g.sum == old(g.sum)
        && (forall k :: old(i) <= k < j ==> Queue[k].dt == -1)
      ensures j - old(i) == 1 ==>
        && log == [Cross(Queue[old(i)])]
        && Queue[old(i)].dt == ElapsedMillis(departure, g.epoch)
        && g.sum == old(g.sum) + Cost(Queue[old(i)].at, Queue[old(i)].dt)
      ensures old(i) == j ==> log == [] && g.sum == old(g.sum)
      ensures forall k :: 0 <= k < old(j) ==> Queue[k].at == old(Queue[k].at)
      ensures forall k :: 0 <= k < old(j) && k != old(i) ==> Queue[k].dt == old(Queue[k].dt)
    {
      Produce(g, arrival, arrival2);
      log := DispatchParallel(g, departure);
    }

    /** The dispatch phase of `p2_produceCars`, after its production phase. */
    method DispatchParallel(g: Globals, departure: Timespec) returns (log: seq<Dispatch>)
      requires Valid() && g.Valid() && policy == Parallel
      requires NumberedBy(g)
      modifies this`i, g`sum, Queue
      ensures Valid() && g.Valid() && NumberedBy(g)
      ensures Counts() == AfterDispatch(policy, old(Counts()))
      ensures j - old(i) > 1 ==>
        && log == BurstSchedule(Queue[old(i)..j])
        && g.sum == old(g.sum)
        && (forall k :: old(i) <= k < j ==> Queue[k].dt == -1)
      ensures j - old(i) == 1 ==>
        && log == [Cross(Queue[old(i)])]
        && Queue[old(i)].dt == ElapsedMillis(departure, g.epoch)
        && g.sum == old(g.sum) + Cost(Queue[old(i)].at, Queue[old(i)].dt)
      ensures old(i) == j ==> log == [] && g.sum == old(g.sum)
      ensures forall k :: 0 <= k < j ==> Queue[k].at == old(Queue[k].at)
      ensures forall k :: 0 <= k < j && k != old(i) ==> Queue[k].dt == old(Queue[k].dt)
    {
      // The source tests `cars[i]` here (see WaitingTestMatchesSlot and AsWrittenTestOnRun).
      if i < j {
        var numWaiting := j - i;
        if numWaiting > 1 {
          log := Burst();
        } else {
          log := CrossOne(g, departure);
        }
      } else {
        log := [];
      }
    }

    /** The production phase of `p2_produceCars`. */
    method Produce(g: Globals, arrival: Timespec, arrival2: Timespec)
      requires Valid() && g.Valid() && policy == Parallel
      requires NumberedBy(g)
      modifies this, cars, g`count
      ensures Valid() && g.Valid() && NumberedBy(g)
      ensures Counts() == AfterAppend(policy, dir, old(Counts()))
      ensures Queue[..old(j)] == old(Queue)
      ensures g.count == old(g.count) + (j - old(j))
      ensures old(j) < CAPACITY ==>
        && fresh(Queue[old(j)])
        && Queue[old(j)].num == old(g.count) + 1
        && Queue[old(j)].at == ElapsedMillis(arrival, g.epoch)
      ensures old(j) < CAPACITY && Paired(dir) ==>
        && fresh(Queue[old(j) + 1])
        && Queue[old(j) + 1].num == old(g.count) + 2
        && Queue[old(j) + 1].at == ElapsedMillis(arrival2, g.epoch)
    {
      if j < CAPACITY {
        var c := g.SpawnCar(dir, arrival);
        cars[j] := c;
        j := j + 1;
        Queue := Queue + [c];
        if Ordinal(dir) == 0 || Ordinal(dir) == 2 {
          // Guarded only by the first write's `j < 100`; j was even, so j <= 99 here.
          var c2 := g.SpawnCar(dir, arrival2);
          cars[j] := c2;
          j := j + 1;
          Queue := Queue + [c2];
        }
      }
    }

    /**
     * The backlog branch of `p2_produceCars`: one child per waiting car, launched in
     * queue order, 50 ms apart, with `waitpid` only on the last. Nothing in this
     * process's cars or sum changes.
     */
    method Burst() returns (log: seq<Dispatch>)
      requires Valid() && j - i > 1
      modifies this`i
      ensures Valid()
      ensures i == j
      ensures log == BurstSchedule(Queue[old(i)..j])
    {
      ghost var i0 := i;
      ghost var burst := Queue[i..j];
      log := [];
      while i < j && cars[i] != null
        invariant i0 <= i <= j
        invariant log == BurstPrefix(burst, i - i0)
        decreases j - i
      {
        var c := cars[i];
        log := log + [Launch(c)];
        i := i + 1;
        if i == j {
          log := log + [AwaitLast(c)];
        } else {
          log := log + [Stagger(STAGGER)];
        }
      }
    }

    /** Sending the oldest waiting car through the intersection in this thread. */
    method CrossOne(g: Globals, departure: Timespec) returns (log: seq<Dispatch>)
      requires Valid() && g.Valid() && i < j
      modifies this`i, g`sum, Queue[i]
      ensures Valid() && g.Valid() && g.count == old(g.count)
      ensures i == old(i) + 1
      ensures log == [Cross(Queue[old(i)])]
      ensures Queue[old(i)].dt == ElapsedMillis(departure, g.epoch)
      ensures Queue[old(i)].at == old(Queue[i].at)
      ensures g.sum == old(g.sum) + Cost(Queue[old(i)].at, Queue[old(i)].dt)
    {
      var go := cars[i];
      i := i + 1;
      g.Pass(go, departure);
      log := [Cross(go)];
    }
  }
}
