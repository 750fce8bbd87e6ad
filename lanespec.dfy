/**
 * A value-level account of one direction's queue in scheduler.c: the read cursor `i` and
 * the fill index `j` of its `cars[100]` array, how one iteration of `produceCars` (simple
 * policy) or `p2_produceCars` (parallel policy) moves them, and the order of the crossing
 * events a parallel burst produces.
 */
module LaneSpec {
  import opened Defs
  import opened Directions

  /** Each direction's array holds at most this many cars per run. */
  const CAPACITY := 100
  /** Milliseconds the parallel dispatcher sleeps between two launches of a burst. */
  const STAGGER := 50

  /** The two scheduling policies: `produceCars` and `p2_produceCars`. */
  datatype Policy = Simple | Parallel

  /** The two indices of a direction's array: `i`, the next car to send, and `j`, the next free slot. */
  datatype LaneCounts = LaneCounts(i: int, j: int)

  /** The dispatch events of one iteration, in the order the dispatcher performs them. */
  datatype Dispatch =
    | Cross(car: Car)       // `pass(go)` run by the dispatching thread itself
    | Launch(car: Car)      // `clone(p2_pass, ..., car)`: a crossing started in a child
    | Stagger(ms: int)      // `msleep(50)` before the next launch
    | AwaitLast(car: Car)   // `waitpid` on the child launched last

  /** The queue invariant `0 <= i <= j <= 100`. */
  predicate Bounded(c: LaneCounts)
  {
    0 <= c.i <= c.j <= CAPACITY
  }

  /** Cars one production appends: two for NORTH and EAST under the parallel policy, else one. */
  function BatchSize(p: Policy, d: Direction): (n: nat)
    ensures n == 2 <==> p == Parallel && Paired(d)
    ensures 1 <= n <= 2
  {
    if p == Parallel && Paired(d) then 2 else 1
  }

  /** The production phase of an iteration; the source guards it by `j < 100` alone. */
  function AfterAppend(p: Policy, d: Direction, c: LaneCounts): LaneCounts
  {
    if c.j < CAPACITY then LaneCounts(c.i, c.j + BatchSize(p, d)) else c
  }

  /**
   * The dispatch phase, with the waiting test `i < j`: one car under the simple policy;
   * under the parallel policy the whole backlog when more than one car waits, else one.
   */
  function AfterDispatch(p: Policy, c: LaneCounts): LaneCounts
  {
    if c.i < c.j then
      if p == Parallel && c.j - c.i > 1 then LaneCounts(c.j, c.j) else LaneCounts(c.i + 1, c.j)
    else c
  }

  /** One iteration of a direction's loop. */
  function Next(p: Policy, d: Direction, c: LaneCounts): LaneCounts
  {
    AfterDispatch(p, AfterAppend(p, d, c))
  }

  /** The indices after n iterations from the empty array. */
  function Run(p: Policy, d: Direction, n: nat): LaneCounts
  {
    if n == 0 then LaneCounts(0, 0) else Next(p, d, Run(p, d, n - 1))
  }

  function Min(a: int, b: int): int
  {
    if a <= b then a else b
  }

  /**
   * The invariant of a lane: the bounds, and an even fill index for a lane that appends
   * in pairs. Each iteration keeps it; the cursor never moves back, the fill index only
   * grows, and a dispatch moves the cursor by one (simple) or to `j` (parallel backlog).
   */
  lemma NextKeepsInvariant(p: Policy, d: Direction, c: LaneCounts)
    requires Bounded(c)
    requires BatchSize(p, d) == 2 ==> c.j % 2 == 0
    ensures var r := Next(p, d, c);
      && Bounded(r)
      && (BatchSize(p, d) == 2 ==> r.j % 2 == 0)
      && c.i <= r.i && c.j <= r.j
      && (c.j < CAPACITY ==> r.j == c.j + BatchSize(p, d))
      && (c.j == CAPACITY ==> r.j == c.j)
      && (p == Simple ==> r.i == (if c.i < r.j then c.i + 1 else c.i))
      && (p == Parallel ==> r.i == r.j)
  {
  }

  /** The second write of a pair is guarded only by the first's `j < 100`: at `j == 99` it lands at index 100. */
  lemma PairGuardAdmitsWritePastEnd()
    ensures AfterAppend(Parallel, North, LaneCounts(99, 99)).j == CAPACITY + 1
  {
  }

  /**
   * From the empty array both cursors advance together, one batch per iteration, until
   * the array is full; in particular a lane appending in pairs only ever has an even `j`,
   * so `j == 99` never occurs on it.
   */
  lemma {:induction false} RunClosedForm(p: Policy, d: Direction, n: nat)
    ensures Run(p, d, n) == LaneCounts(Min(n * BatchSize(p, d), CAPACITY), Min(n * BatchSize(p, d), CAPACITY))
    ensures BatchSize(p, d) == 2 ==> Run(p, d, n).j % 2 == 0
  {
    if n > 0 {
      RunClosedForm(p, d, n - 1);
      var b := BatchSize(p, d);
      assert (n - 1) * b + b == n * b;
    }
  }

  /**
   * Every production meets an empty backlog, so on the parallel policy a NORTH or EAST
   * lane dispatches each pair it produces as a burst of exactly two cars, and a SOUTH or
   * WEST lane sends its single new car through directly.
   */
  lemma PairedLaneAlwaysBursts(d: Direction, n: nat)
    requires n * BatchSize(Parallel, d) < CAPACITY
    ensures var a := AfterAppend(Parallel, d, Run(Parallel, d, n));
      a.j - a.i == (if Paired(d) then 2 else 1)
  {
    RunClosedForm(Parallel, d, n);
  }

  /** What reading `cars[k]` finds when slots `0..j-1` have been written. */
  datatype Slot = Queued | NeverWritten | PastEnd

  function SlotRead(k: int, j: int): Slot
  {
    if 0 <= k < j then Queued else if 0 <= k < CAPACITY then NeverWritten else PastEnd
  }

  /** The slot the source's test `if(cars[i])` reads, after the production phase. */
  function AsWrittenTestSlot(p: Policy, d: Direction, c: LaneCounts): Slot
  {
    var a := AfterAppend(p, d, c);
    SlotRead(a.i, a.j)
  }

  /**
   * The source's test `if(cars[i])` reads a queued car as long as the array has room,
   * but once the lane has filled all 100 slots every later iteration reads `cars[100]`,
   * one past the end of the array.
   */
  lemma AsWrittenTestOnRun(p: Policy, d: Direction, n: nat)
    ensures AsWrittenTestSlot(p, d, Run(p, d, n)) ==
      (if n * BatchSize(p, d) < CAPACITY then Queued else PastEnd)
  {
    RunClosedForm(p, d, n);
  }

  /**
   * On every state a lane reaches, the test the model uses instead, `i < j`, agrees with
   * `cars[i]` holding a queued car, and both hold exactly while the array still has room.
   */
  lemma WaitingTestMatchesSlot(p: Policy, d: Direction, n: nat)
    ensures var a := AfterAppend(p, d, Run(p, d, n));
      a.i < a.j <==> n * BatchSize(p, d) < CAPACITY
    ensures var a := AfterAppend(p, d, Run(p, d, n));
      a.i < a.j <==> AsWrittenTestSlot(p, d, Run(p, d, n)) == Queued
  {
    RunClosedForm(p, d, n);
  }

  /** The events of the first n launches of a burst over the waiting cars `cs`. */
  function BurstPrefix(cs: seq<Car>, n: nat): seq<Dispatch>
    requires n <= |cs|
  {
    if n == 0 then []
    else BurstPrefix(cs, n - 1) + [Launch(cs[n - 1]), if n == |cs| then AwaitLast(cs[n - 1]) else Stagger(STAGGER)]
  }

  /** The events of a whole burst. */
  function BurstSchedule(cs: seq<Car>): seq<Dispatch>
  {
    BurstPrefix(cs, |cs|)
  }

  lemma {:induction false} BurstPrefixAt(cs: seq<Car>, n: nat, m: nat)
    requires m < n <= |cs|
    ensures |BurstPrefix(cs, n)| == 2 * n
    ensures BurstPrefix(cs, n)[2 * m] == Launch(cs[m])
    ensures BurstPrefix(cs, n)[2 * m + 1] == if m == |cs| - 1 then AwaitLast(cs[m]) else Stagger(STAGGER)
  {
    if m < n - 1 {
      BurstPrefixAt(cs, n - 1, m);
    } else if n > 1 {
      BurstPrefixAt(cs, n - 1, 0);
    }
  }

  /**
   * A burst launches one crossing per waiting car, in queue order; a 50 ms stagger
   * separates consecutive launches, and the only wait for a child is the final event,
   * on the car launched last.
   */
  lemma BurstScheduleShape(cs: seq<Car>)
    requires |cs| >= 1
    ensures var s := BurstSchedule(cs);
      && |s| == 2 * |cs|
      && (forall k :: 0 <= k < |s| && k % 2 == 0 ==> s[k] == Launch(cs[k / 2]))
      && (forall k :: 0 <= k < |s| - 1 && k % 2 == 1 ==> s[k] == Stagger(STAGGER))
      && s[|s| - 1] == AwaitLast(cs[|cs| - 1])
      && (forall k :: 0 <= k < |s| && s[k].AwaitLast? ==> k == |s| - 1)
  {
    var s := BurstSchedule(cs);
    BurstPrefixAt(cs, |cs|, 0);
    forall k | 0 <= k < |s|
      ensures k % 2 == 0 ==> s[k] == Launch(cs[k / 2])
      ensures k % 2 == 1 && k < |s| - 1 ==> s[k] == Stagger(STAGGER)
      ensures k % 2 == 1 && k == |s| - 1 ==> s[k] == AwaitLast(cs[|cs| - 1])
    {
      BurstPrefixAt(cs, |cs|, k / 2);
    }
  }
}
