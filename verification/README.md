# Pizzeria simulation: pool accounting, order pipeline and statistics

A Dafny model of the sequential logic under a pthreads pizzeria simulation
(`src/o1150174.c`, `src/o1150174.h`). Each customer call runs as one worker.
The worker takes a phone line and processes the payment, which may fail.
It then takes a cook, ovens for every pizza, the packager and a deliverer,
each from a shared pool of fixed capacity. At the end it adds its figures
to the daily statistics. Once every worker has finished, `main` prints a
report.

The model has these modules:

- `Pool`: one counting resource pool. `operators_acquire` waits until
  enough units are available and then subtracts them. In the model, an
  acquire that would wait returns `None`: it is not enabled yet.
  `operators_release` adds the units back, with no check.
- `Resources`: the five pools (phone lines, cooks, ovens, the packager and
  deliverers) and an action type `Op`. The packaging mutex is modelled as a
  pool of capacity one.
- `Pipeline`: the life of one order as a stage machine. Each transition
  performs exactly one action: an acquire, a release, or recording the
  completion. Each stage fixes the units the order holds. The module also
  proves the per-order facts: balanced pools, the failure path, the two
  double-hold handoffs, and that a lone order never waits forever.
- `Pizzeria`: the whole system state, made of the pools, all orders so far
  and the statistics. The threads become a nondeterministic choice of which
  order steps next. Clock readings and random draws are inputs of a step.
  The invariant kept by every step is per-pool conservation:
  `available + units held by all orders == capacity`, with the counter never
  negative. The invariant also ties the statistics to the orders: calls
  counted, successes, revenue, latency totals and maxima.
- `Stats`: the daily statistics record and its two updates, counting a call
  and recording a completion.
- `Report`: the arithmetic of the final report. This covers C's truncating
  division, the zero guards, the failed count and the split of seconds into
  minutes and seconds.
- `Draws`: the bounded random draws, all of the form `r % k + low`.
- `Dispatcher`: `main`'s loop that creates the workers, and the report read
  after all workers have joined.
- `Config`: the configured constants. `Wrappers`: `Option`.

Clock readings are arbitrary integers: the clock is not assumed to be
monotonic, so latencies may be negative. Divisions in the report are
therefore modelled as C divisions, which truncate toward zero. Each raw draw
of the generator is an arbitrary natural number.

One observed behaviour is kept as written. The call-wait total is added to
only when an order completes, but `main` divides it by the number of all
calls. `Report.CallWaitMeanDilutedByFailedCalls` states the consequence
for a non-negative call-wait total.

The order pipeline decides a payment failure with the test exactly as the
code writes it, `Draws.PaymentFailsAsWritten`. That test fails one residue
too many (see Findings). The corrected test, `Draws.PaymentFails`, is
modelled beside it with its failure rate proved.

## Model

| member | source | states |
|---|---|---|
| `Pool.Full` | src/o1150174.c:12-27 | each pool starts valid with every unit available |
| `Pool.Acquire` | src/o1150174.c:71-87 | an acquire proceeds exactly when `available >= needed`, then subtracts exactly `needed`, keeps the capacity and keeps a valid counter valid |
| `Pool.Release` | src/o1150174.c:91-98 | a release adds exactly the released units and keeps the capacity |
| `Pool.ReleaseKeepsValid` | src/o1150174.c:98 | releasing units that were taken keeps the counter within [0, capacity] |
| `Pool.AcquireReleaseRoundTrip` | src/o1150174.c:71-98 | an acquire followed by a release of the same amount restores the pool |
| `Pool.ReleaseAcquireRoundTrip` | src/o1150174.c:71-98 | a release followed by an acquire of the same amount is enabled and restores the pool |
| `Pool.AcquireMonotone` | src/o1150174.c:77-80 | an enabled request stays enabled after any release, and smaller requests are enabled whenever larger ones are |
| `Resources.Capacity` | src/o1150174.h:9-12 | every pool capacity, the packager's included, is positive |
| `Resources.Initial` | src/o1150174.c:12-27 | the program starts with every pool full |
| `Resources.Apply` | src/o1150174.c:71-112 | an action blocks only when it is an acquire of more than is available; otherwise each pool's counter changes by exactly what the action takes or gives back, and every other pool is unchanged |
| `Config.CapacitiesAdmitEveryRequest` | src/o1150174.h:9-16 | capacities are positive and the largest drawable order size (5) does not exceed the ovens (10) |
| `Config.RangesNonEmpty` | src/o1150174.h:13-25 | every configured range has low <= high |
| `Draws.PaymentWait` | src/o1150174.c:140-142 | the payment wait is in [1, 2] for any raw draw |
| `Draws.OrderSize` | src/o1150174.c:155 | the order size is in [1, 5] = [N_ORDERLOW, N_ORDERLOW + N_ORDERHIGH - 1], so within the oven capacity |
| `Draws.DeliveryWait` | src/o1150174.c:206-207 | the delivery wait is in [5, 15] for any raw draw |
| `Draws.ArrivalWait` | src/o1150174.c:308 | the inter-arrival wait is in [1, 5] for any raw draw |
| `Draws.DrawsCoverTheirRanges` | src/o1150174.c:140-207 | every value of each draw's range is produced by some raw draw, so the ranges are exact |
| `Draws.AsWrittenTestByResidue` | src/o1150174.c:146 | the failure test as written depends only on the draw's residue modulo 100, and fails exactly when the corrected test fails or the residue is P_FAIL |
| `Draws.AsWrittenFailsOneResidueTooMany` | src/o1150174.c:145-146 | the failure test as written fails on 6 of the 100 residues; the draw 5 fails although it should not |
| `Draws.FailureRateIsPFail` | src/o1150174.c:145-146 | the corrected failure test fails on exactly P_FAIL = 5 of every 100 residues and depends only on the residue |
| `Stats.RecordCall` | src/o1150174.c:125-129 | counting a call adds one to `total_calls` and changes nothing else |
| `Stats.RunningMax` | src/o1150174.c:233-243 | compare-and-set-if-greater yields a value at least the old maximum and the new latency, and equal to one of them |
| `Stats.RecordCompletion` | src/o1150174.c:226-243 | a completion adds `C_PIZZA * size` to revenue, one to `successful_orders` and each latency to its total; each maximum becomes at least the latency; `total_calls` is untouched |
| `Stats.RecordAllAccumulates` | src/o1150174.c:226-243 | after any sequence of completions, the counter grew by their number, the revenue and totals are sums over them, and each maximum is at least every recorded latency of its kind and is the old maximum or one of them |
| `Stats.MaximaNonNegativeFromZero` | src/o1150174.c:3 | from the zero-initialised record, maxima are never negative and the success counter is the number of completions |
| `Report.CDiv` | src/o1150174.c:368-371 | a mean is the quotient truncated toward zero: `q*b <= a < q*b + b` for non-negative totals, the mirror image for negative ones |
| `Report.CMod` | src/o1150174.c:381-392 | the C remainder rebuilds the value with the quotient, is smaller than the divisor in size, and has the dividend's sign |
| `Report.Split` | src/o1150174.c:378-392 | each value `v` in seconds is printed as minutes and seconds with `minutes*60 + seconds == v` and `abs(seconds) < 60`, both parts taking the sign of `v` as C's `/` and `%` do |
| `Report.ExitStatus` | src/o1150174.c:363-366 | the program ends with status 66 exactly when no call was counted, and with 0 otherwise |
| `Report.MakeReport` | src/o1150174.c:355-392 | failed = calls - successes; the call-wait mean is taken only when calls > 0 and the delivery means only when successes > 0, so no division by zero; the call-wait mean is the truncated quotient of total by calls, each delivery pair is the minute/second split of the truncated mean or of the maximum; the means obey the quotient bounds |
| `Report.CallWaitMeanDilutedByFailedCalls` | src/o1150174.c:368-371 | for a non-negative call-wait total: since the divisor counts failed calls too, the reported call-wait mean is at most the mean over successful orders |
| `Pipeline.NextOp` | src/o1150174.c:132-227 | the action leaving each stage: only a delivered order records its completion, an order never requests a pool it already holds, each release gives back all it holds of that pool, and every amount is between 1 and the capacity |
| `Pipeline.NextStage` | src/o1150174.c:132-227 | an order fails only from `Answered`, and exactly when `r % 100 <= P_FAIL`; a paid order gets the drawn size and keeps it through every later stage; each transition moves toward termination |
| `Pipeline.OpsAfterPayment` | src/o1150174.c:161-227 | a paid order takes a cook, ovens for its size, gives back the cook, takes the packager, gives back the ovens and then the packager, takes and gives back a deliverer, records its completion and ends `Completed` |
| `Pipeline.TransitionAccounts` | src/o1150174.c:132-218 | each stage transition changes the units the order holds by exactly what its action takes or gives back; a release gives back only held units; sizes stay in range; only recording the statistics completes an order |
| `Pipeline.Handoffs` | src/o1150174.c:162-193 | ovens are requested while the cook is held, the cook is given back only while ovens are held, and ovens are given back only while the packager is held |
| `Pipeline.OvenRequestFitsFullPool` | src/o1150174.c:166-168 | no acquire of an order asks for more than the pool's capacity, so the oven wait can always end |
| `Pipeline.OpsReturnHeldUnits` | src/o1150174.c:132-218 | from any stage, the order's remaining actions give back exactly the units it holds, of every pool |
| `Pipeline.OrderBalancesEveryPool` | src/o1150174.c:132-218 | a whole order, failed or completed, takes and gives back equal numbers of phone lines, cooks, ovens, packager and deliverers |
| `Pipeline.FailurePathTouchesOnlyPhoneLines` | src/o1150174.c:145-150 | a failed payment ends the order as `Failed` after taking and giving back one phone line; no other pool is touched and no completion is recorded |
| `Pipeline.SuccessPathRecordsOnceAtTheEnd` | src/o1150174.c:152-248 | a successful payment ends the order as `Completed` with the drawn size, and the completion is recorded exactly once, as the last action |
| `Pipeline.SoloOrderRunsToCompletion` | src/o1150174.c:132-218 | an order running alone, on pools full except for its own units, never waits and leaves every pool full |
| `Pizzeria.Order.Completion` | src/o1150174.c:229-243 | a completed order reports its size, call wait = answer - call, door time = delivery - call, cold time = delivery - baking done; the door time is the cold time plus the time from call to baking done |
| `Pizzeria.Stamp` | src/o1150174.c:121-211 | each clock reading is taken on exactly one transition (answer on getting a phone line, baking done on requesting the packager, delivery on the deliverer's step), and the call time never changes |
| `Pizzeria.Step` | src/o1150174.c:116-249 | a call counts itself before anything else; an order's action changes only the pool it names and no other order; only recording a completion changes the statistics |
| `Pizzeria.InitSatisfiesInv` | src/o1150174.c:3-29 | the initial state (full pools, no orders, zero statistics) satisfies the invariant |
| `Pizzeria.CallPreservesInv` | src/o1150174.c:125-129 | a new call keeps the invariant: it holds nothing and is counted once |
| `Pizzeria.AdvancePreservesInv` | src/o1150174.c:132-246 | any order's next action keeps pool conservation, non-negative counters and the statistics-to-orders correspondence |
| `Pizzeria.StepPreservesInv` | src/o1150174.c:116-249 | every enabled step keeps the invariant |
| `Pizzeria.RunPreservesInv` | src/o1150174.c:294-310 | every interleaving of calls and order actions keeps the invariant |
| `Pizzeria.PoolsStayWithinCapacity` | src/o1150174.c:71-112 | in every reachable state each counter is in [0, capacity] and the orders never hold more units of a pool than it has |
| `Pizzeria.AfterAllOrdersFinish` | src/o1150174.c:312-361 | once every order has terminated, every pool is full again and calls = successes + failed orders |
| `Pizzeria.CallsCoverSuccesses` | src/o1150174.c:125-227 | in every reachable state `total_calls >= successful_orders` |
| `Dispatcher.Dispatch` | src/o1150174.c:294-310 | worker `i` gets order id `i + 1` (ids increase, so they are distinct) and, as seed, the dispatcher's generator state before its `i`-th draw plus `i + 1`, wrapped to 32 bits (the first worker: `seed + 1`); every pause between calls is in [1, 5] |
| `Dispatcher.ReportAfterJoin` | src/o1150174.c:355-366 | after any schedule that ends with every order terminated, the reported failed count is the number of failed orders, the revenue is `C_PIZZA` times the pizzas completed, and the exit status is 0 exactly when somebody called |

## Left out

- Mutex and condition-variable mechanics, including the choice between
  signal and broadcast on release (src/o1150174.c:100-108). These concern
  thread scheduling and liveness. Blocking appears only as a step that is
  not enabled.
- `sleep` and every duration it is given are left out. The payment,
  delivery and inter-arrival waits appear only as range facts. The
  preparation, baking and packaging times are not modelled.
- `clock_gettime`: each reading is an integer input of a step. The
  baking-done reading is taken on the step that obtains the packager; in
  the code it is read before the packager lock is requested
  (src/o1150174.c:178, 184), and that lock may block. With readings
  unconstrained the difference cannot be observed. The
  delivery reading is taken on the step that releases the deliverer. In the
  code that reading falls between the outbound and return legs
  (src/o1150174.c:211), and the release comes after the return leg
  (src/o1150174.c:217-218). With the legs' sleeps not modelled, nothing
  happens between the two.
- The generator `rand_r` and the order in which one worker consumes its
  draws: every draw is an independent arbitrary natural number.
- `sync_printf`, all `printf` output and the "prepared in" and
  "delivered in" log lines (src/o1150174.c:197-201, 213-215).
- `check_malloc`, `check_pthread_rc` and exit statuses 3, 4, 5, 6, 8 and 9.
  Also left out: `malloc`/`free`, thread creation and join, and destroying
  the mutexes and condition variables. These are foreign calls and
  fatal-error handling.
- Argument parsing with `atoi` and the argument checks (src/o1150174.c:252-272).
- Overflow of the statistics: the `unsigned int` counters and the `long`
  totals are unbounded integers here.
- `Report.MakeReport`: the failed count is the mathematical difference
  rather than C's unsigned subtraction. It never wraps in a reachable state,
  by `Pizzeria.CallsCoverSuccesses`.
- `Dispatcher.Dispatch`: the value of each inter-arrival draw, and the
  generator state it leaves behind, are input sequences with one entry per
  customer. The generator's state transition is not modelled, so nothing is
  promised about the workers' seeds being distinct.
- The unused mutex `mutex_stats_tel` (src/o1150174.c:33) has no counterpart.

## Findings

| source | as written | input that shows it | evidently intended | confidence | as-written member | corrected member |
|---|---|---|---|---|---|---|
| src/o1150174.c:145-146 | `rand_r(...) % 100 <= P_FAIL` fails on the residues 0 to 5, which is 6 of 100 | raw draw 5: `5 % 100 = 5 <= 5`, so the order fails | a failure on P_FAIL% of draws, as the comment on line 145 says, that is `% 100 < P_FAIL` (5 of 100) | medium, not executed | `Draws.AsWrittenFailsOneResidueTooMany` | `Draws.FailureRateIsPFail` |
