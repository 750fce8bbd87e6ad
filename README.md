# Traffic-light scheduler: the sequential bookkeeping, in Dafny

scheduler.c simulates cars arriving from four directions at an intersection and crossing
it one at a time (the simple policy, `produceCars`) or in bursts of concurrently crossing
cars (the parallel policy, `p2_produceCars`). Each run adds up the squared wait of every car
that crosses. This project models the bookkeeping behind that:

- `Defs`: the `direction` enum and `struct car` of defs.h.
- `Clock`: the seconds/milliseconds difference between two `clock_gettime` readings,
  with the millisecond borrow. `timestamp`, `getRuntime` and `car_setTime` each repeat this
  computation (scheduler.c:79-85, 99-105, 124-132). The clock readings are parameters.
- `Accounting`: the cost arithmetic of `updateCost`.
- `Directions`: `dir_to_string` and the two thread-argument switches.
- `Shared`: the globals `sum`, `sum1`, `count` and `global_ts` as the class `Globals`,
  with `spawnCar`, `car_setTime`, `updateCost`, `pass` and the resets in `main`.
- `LaneSpec`: a value-level model of one direction's `i`/`j` indices and of the
  event order of a parallel burst.
- `Lanes`: one direction thread's `cars[100]` array and its indices as the class `Lane`.
  `SimpleStep` and `ParallelStep` each run one loop iteration as one indivisible step.
  That is a modelling choice: the source holds the intersection mutex only around the
  dispatch, and `spawnCar` takes the counter mutex once per car. The indices and the array
  are local to the thread, so the step loses only the interleaving of other threads'
  `count` increments (see "## Left out").

Things the model makes explicit:

- The dispatch test is `i < j`. The source tests `cars[i]` instead (see Findings).
- On the parallel policy, NORTH and EAST append two cars per production, but only the
  first write is guarded by `j < 100`. With `j == 99` the second write would go to
  `cars[100]` (`LaneSpec.PairGuardAdmitsWritePastEnd`). Those lanes start at 0 and
  always append in pairs, so `j` stays even (`LaneSpec.RunClosedForm`, and the `Lane`
  invariant). The bad write is therefore never reached.
- Each iteration ends with `i == j`, so every parallel-policy production of NORTH or EAST
  is dispatched as a burst of exactly two cars (`LaneSpec.PairedLaneAlwaysBursts`). Since
  bursts leave the dispatching process's `sum` unchanged (next item), the parallel run's
  final `sum` never includes a NORTH or EAST car, and the printed difference `sum1 - sum`
  compares totals over different sets of cars.
- A burst runs `clone` without `CLONE_VM`, so each child crosses with its own copy of the
  car and of `sum`. In the dispatching process the burst's cars keep the departure sentinel
  -1, and `sum` does not change. `Lanes.Lane.ParallelStep` states exactly that. The model
  records only the order of the launches, the 50 ms staggers and the final `waitpid`.
- The millisecond total rounds down when the nanosecond difference is nonnegative, and up
  when it is negative, because the borrow is applied after the division. It is always
  within one millisecond of the true elapsed time (`Clock.ElapsedMillisRounding`).
- The `updateCost` guard rejects an arrival time of 0. That value is both the "unset" value
  and a real arrival time within the first millisecond. Such a car adds nothing to the sum
  (`Accounting.UnsetTimesCostNothing`).
- An unset timestamp, an invalid direction and an unknown `getRuntime` unit all reach
  `panic`, which only prints. Execution continues with the values the code leaves behind
  (0 cost, "", WEST, -1). The model follows the code here, not a fatal abort.

## Model

| member | source | states |
|---|---|---|
| `Defs.Ordinal` | defs.h:5 | each direction's enum value lies in 0..3 |
| `Defs.OrdinalInjective` | defs.h:5 | two directions have the same enum value exactly when they are the same direction |
| `Defs.Car.constructor` | scheduler.c:205-212 | a new car has the given direction and number, arrival time 0 and departure sentinel -1 |
| `Clock.NsToMs` | scheduler.c:101 | `nsec/1000000` truncates toward zero: it rounds down for nonnegative and up for negative differences |
| `Clock.ElapsedSince` | scheduler.c:99-105 | after the borrow the millisecond part lies in 0..999 and `sec*1000 + ms` equals the seconds difference times 1000 plus the truncated millisecond difference |
| `Clock.GetRuntime` | scheduler.c:92-114 | unit 0 gives the elapsed milliseconds modulo 1000, unit 1 the whole elapsed seconds, any other unit -1 |
| `Clock.RuntimeRecombines` | scheduler.c:107-110 | the seconds times 1000 plus the milliseconds that `getRuntime` reports equal the total `car_setTime` stores |
| `Clock.ElapsedMillisRounding` | scheduler.c:124-132 | the stored millisecond total is the floor of the elapsed nanoseconds over 10^6 if the nanosecond field did not wrap, the ceiling if it did, and always less than 1 ms away |
| `Clock.ElapsedRoundsUpAcrossSecond` | scheduler.c:124-132 | 999999999 ns after the start the stored total already reads 1000 ms |
| `Clock.ElapsedMonotone` | scheduler.c:124-132 | for two readings taken in order, the later one's stored millisecond total is at least the earlier one's, even though one may round down and the other up |
| `Clock.ElapsedFitsInt` | scheduler.c:124-132 | within 2147482 s of the start, both the seconds and the millisecond total fit a 32-bit int |
| `Accounting.RoundCastExact` | scheduler.c:63 | adding 0.5 to a nonnegative integer and truncating gives the integer back |
| `Accounting.Cost` | scheduler.c:51-63 | the cost is never negative; it is `(dt - at)^2` when the guard holds and 0 when it fails |
| `Accounting.CostFitsInt` | scheduler.c:56-63 | when `abs(dt - at) <= 46340`, `waited*waited` and the cost fit a 32-bit int |
| `Accounting.CostBoundTight` | scheduler.c:63 | a wait of 46341 ms gives a cost above `INT_MAX` |
| `Accounting.UnsetTimesCostNothing` | scheduler.c:55-61 | a car with `dt <= 0` (including the sentinel -1) or `at == 0` costs nothing |
| `Directions.Opposite` | scheduler.c:388-411 | the opposite is a different direction on the same axis (enum values 0/1 or 2/3), so NORTH pairs with SOUTH and EAST with WEST |
| `Directions.OppositeInvolution` | scheduler.c:388-411 | the opposite of the opposite is the direction itself |
| `Directions.DirToString` | scheduler.c:171-199 | the name is nonempty exactly for 0..3 and is one of NORTH, SOUTH, EAST, WEST or "" |
| `Directions.DirToStringNames` | scheduler.c:176-191 | 0, 1, 2, 3 are named NORTH, SOUTH, EAST, WEST |
| `Directions.DirToStringInjective` | scheduler.c:171-199 | two directions get the same name exactly when they are equal |
| `Directions.DirectionOfArg` | scheduler.c:267-285 | arguments 0..3 select the direction with that enum value; any other argument selects WEST |
| `Directions.DirectionOfArgRoundTrip` | scheduler.c:267-285 | passing a direction's enum value selects that direction |
| `Directions.ParallelDirsOfArg` | scheduler.c:388-411 | the direction is the one `produceCars` selects, and `parallel_dir` is its opposite |
| `Directions.PairedSplitsOpposites` | scheduler.c:435 | exactly one direction of each opposite pair (NORTH, EAST) produces two cars at a time |
| `Shared.Globals.constructor` | scheduler.c:539-543 | `sum`, `sum1` and `count` start at 0 |
| `Shared.Globals.StartClock` | scheduler.c:335 | the start time becomes the given reading |
| `Shared.Globals.SetTime` | scheduler.c:117-140 | `setArrival == 1` writes the elapsed milliseconds into the arrival time, anything else into the departure time; the other field is unchanged |
| `Shared.Globals.UpdateCost` | scheduler.c:51-68 | the sum grows by exactly the car's cost; if the guard fails (mock panic) it is unchanged |
| `Shared.Globals.SpawnCar` | scheduler.c:202-223 | `count` grows by one; the fresh car gets the new count as its number, the direction, departure -1 and the current elapsed milliseconds as its arrival time |
| `Shared.Globals.Pass` | scheduler.c:234-259 | the car's departure time becomes the elapsed milliseconds at the reading and the sum grows by that car's cost; the arrival time is unchanged |
| `Shared.Globals.SaveBaseline` | scheduler.c:365 | the baseline becomes the current sum |
| `Shared.Globals.ResetCounters` | scheduler.c:549-552 | `sum` and `count` return to 0 and the baseline is kept |
| `LaneSpec.NextKeepsInvariant` | scheduler.c:288-491 | an iteration keeps `0 <= i <= j <= 100` and an even `j` for pair lanes; `j` grows by one batch while there is room; the simple policy moves `i` by one when a car waits, the parallel policy moves `i` to `j` |
| `LaneSpec.PairGuardAdmitsWritePastEnd` | scheduler.c:427-440 | the `j < 100` guard alone lets the second write of a pair reach index 100 when `j == 99` |
| `LaneSpec.RunClosedForm` | scheduler.c:288-491 | after n iterations from the empty array, `i == j == min(n * batch, 100)`; pair lanes always have an even `j` |
| `LaneSpec.PairedLaneAlwaysBursts` | scheduler.c:427-451 | until the array fills, each parallel production meets an empty backlog, so NORTH and EAST always dispatch exactly two waiting cars (a burst) and SOUTH and WEST exactly one |
| `LaneSpec.AsWrittenTestOnRun` | scheduler.c:302-310 | the test `cars[i]` reads a queued car until the array is full, and from then on reads `cars[100]`, past the end |
| `LaneSpec.WaitingTestMatchesSlot` | scheduler.c:309-310 | on every state a lane reaches, `i < j` holds exactly when `cars[i]` holds a queued car, and both hold exactly while the array has room |
| `LaneSpec.BurstPrefixAt` | scheduler.c:452-482 | after n launches the log has 2n events: the m-th launch is of the m-th waiting car, followed by a stagger, or by the wait if it is the last car |
| `LaneSpec.BurstScheduleShape` | scheduler.c:450-482 | a burst launches every waiting car once in queue order, staggers 50 ms between launches, and waits only once, at the end, on the last car launched |
| `Lanes.Lane.constructor` | scheduler.c:413-418 | a new lane has `i == j == 0`, an empty queue and a fresh 100-slot array |
| `Lanes.Lane.SimpleStep` | scheduler.c:300-317 | the indices move as in `LaneSpec.Next`; a new car is appended only when `j < 100`; the oldest waiting car crosses, gets its departure time, and its cost is added to the sum; earlier cars are untouched; a car that arrives and crosses in the same iteration, with the arrival reading not after the departure reading, has `at <= dt` |
| `Lanes.Lane.ParallelStep` | scheduler.c:425-491 | the indices move as in `LaneSpec.Next`; one or two fresh cars are appended; a backlog of more than one car yields the burst schedule over exactly those cars, with the sum and their sentinels unchanged in this process; a single car crosses as in the simple policy |
| `Lanes.Lane.ProduceSimple` | scheduler.c:300-308 | one fresh car with the next number and the given arrival time is appended exactly when `j < 100` |
| `Lanes.Lane.DispatchParallel` | scheduler.c:444-491 | a backlog above one car becomes the burst schedule with the sum and the cars' sentinels unchanged; a single car crosses with its departure time and cost recorded; no waiting car leaves everything unchanged |
| `Lanes.Lane.Produce` | scheduler.c:425-442 | one fresh car is appended, or two for NORTH and EAST, when `j < 100`, numbered after the counter's previous value and with the given arrival times |
| `Lanes.Lane.Burst` | scheduler.c:450-482 | the cursor reaches `j` and the events are the burst schedule over the waiting cars |
| `Lanes.Lane.CrossOne` | scheduler.c:484-489 | the cursor moves by one, the oldest waiting car gets its departure time, and the sum grows by its cost |

## Left out

- The pthread mutexes, thread creation and joining, `clone` and `waitpid` (scheduler.c:333-371, 466-477, 496-533) are concurrency. A whole loop iteration is one step of the model, although the source locks only its dispatch. A burst is modelled only as the ordered launch events.
- `msleep`/`nanosleep`, the random inter-arrival delay and the 500 ms crossing delay are OS timing. The 50 ms stagger appears only as an event in the burst log.
- `clock_gettime` and `rand()` are foreign calls. Clock readings are method parameters.
- `printf`, `timestamp`, the arrival/departure/finished messages and the text printed by `panic` are console output.
- The `sqrt(sum)/1000` summary and the printed difference `sum1 - sum` are floating point or output only.
- The `departed` counter is incremented without a lock and never read.
- The do-while driver of each thread (repeat until `getRuntime(1) >= 60`) is environment timing. Repeated iterations are covered by `LaneSpec.Run`.
- The commented-out loop that frees the cars is not code.
- Memory allocation and its failure paths (`malloc`, `errExit`) are not modelled. `spawnCar` allocates `malloc(sizeof(c))` (scheduler.c:205), the size of a pointer rather than of `struct car`, so its writes to `dt` and `num` can go past the allocation; `Defs.Car.constructor` assumes a whole record.
- Clock readings are taken as given. `Lanes.Lane.SimpleStep` concludes `at <= dt` only when the arrival reading is not after the departure reading; `CLOCK_REALTIME` can be set backwards, so the source has no such guarantee.
- Shared.Globals.UpdateCost: `sum` is an unbounded integer. The 32-bit overflow of `waited*waited` (beyond 46340 ms; see `Accounting.CostFitsInt`) and of `sum` is not modelled.
- Shared.Globals.SpawnCar: `count` is an unbounded integer, so its 32-bit overflow is not modelled.
- Lanes.Lane.Produce: the two cars of a NORTH or EAST pair get consecutive numbers only in the model. In the program another direction's thread can take a number between the two `spawnCar` calls (scheduler.c:429, 437), since each call locks the counter on its own.
- Lanes.Lane.ProduceSimple: likewise the step-end `count == old(count) + 1` of `ProduceSimple` and `SimpleStep` holds only in the model; other threads may advance `count` during the iteration.
- Clock.ElapsedSince: computes on unbounded integers. The `(int)` casts of the clock differences are exact for any second difference within 32 bits; what leaves `int` first is the multiplication `sec*1000` (scheduler.c:132), beyond the range that `Clock.ElapsedFitsInt` states.

## Findings

| source | as written | input that shows it | evidently intended | confidence | as-written member | corrected member |
|---|---|---|---|---|---|---|
| scheduler.c:310 | `if(cars[i])` decides whether a car waits by reading the slot at the cursor; the same test is at line 445 | a lane whose array has filled: after 100 iterations of `produceCars`, `i == j == 100`, and the next iteration reads `cars[100]`, one past the array (a slot never written in any case) | test `i < j` | not executed; certain once a lane fills its array, which is unlikely within a 60 s run at these arrival rates | `LaneSpec.AsWrittenTestOnRun` | `Lanes.Lane.SimpleStep` |
