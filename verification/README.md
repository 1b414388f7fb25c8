# jsDOM timing and scoring core in Dafny

jsDOM is a browser benchmark of DOM manipulation. Its harness times each
registered test with a `Timer` stopwatch over `TRIAL_LAPS` laps. Each lap runs
an untimed `setup`, then a timed `main`, then an untimed `wipe`. The harness
records each test's time in seconds per lap and scores the run as the
reciprocal of the sum of those times. This project models that engine and
proves its properties:

- `js_values.dfy` (`JsValues`): `null`-able properties and JavaScript truthiness of numbers.
- `timer.dfy` (`Timing`): the `Timer` datatype and its `start`, `stop` and `time` operations. Each operation takes the clock reading `now`. The file also models call traces of a Timer.
- `trial.dfy` (`Trial`): the lap loop for one test and its time in seconds.
- `results.dfy` (`Results`): lap-count resolution and the loop over all tests that fills `results`.
- `scoring.dfy` (`Scoring`): the score sum and its reciprocal.
- `benchmark.dfy` (`Benchmark`): end-to-end statements about a whole run.

The clock is an input. `clock(k)` is the millisecond value that the k-th
clock-reading point of the run would see. Test `j` uses the readings from
`j * (2*laps + 1)` on: for lap `i`, one reading at `start()` and one at
`stop()`, then one at the final `time()`. Setup, main and wipe read no clock.
Their cost is therefore only the gap between consecutive readings.

The source tests `!this.startTime` and `!this.stopTime`, so a property that is
absent, `null` or `0` counts as not set. The model keeps this: `Truthy` treats a
reading of 0 exactly as JavaScript does.

Some behaviours of the code are easy to misread. The model keeps each one:

- `stop()` adds `now - startTime` as it is, so a clock that runs backwards makes the interval shrink.
- `stop()` does not clear `startTime`. A second `stop()` without a new `start()` therefore adds the time since the same start again.
- A non-empty location hash sets the lap count to whatever the hash parses to.
- With 0 laps `time()` returns `null`, and the recorded time is `null/0`, which is NaN.
- A total time of zero makes the score `1/0`, which is Infinity.

The tests are the keys of the object `jsDOM.tests`, so their names are
distinct, and `results[testName] = test` never replaces an earlier entry.

Some members carry no contract of their own and are covered by the lemmas
about them:

- `Trial.RunLaps` is the lap loop (`jsDOM.js:422-441`). `Trial.LapsAccumulate` and `Trial.RunTest` state what it computes.
- `Trial.TestTime` is the division at `jsDOM.js:442`. `Trial.Average` and `Trial.TestTimeIsMean` state what it computes.
- `Results.EntryFor` is the entry stored at `jsDOM.js:442-443`. `Results.RunAllEntry` states what it holds.
- `Scoring.Total` is the `$.each` sum (`jsDOM.js:369-374`). `Scoring.TotalReorder` and `Scoring.ShowScore` state what it computes.

## Model

| member | source | states |
|---|---|---|
| Timing.Fresh | jsDOM.js:285-287 | a new Timer has interval 0 and is not started |
| Timing.Start | jsDOM.js:288-292 | start keeps the interval, records now as startTime and nulls stopTime; the timer is running exactly when the reading is truthy |
| Timing.Stop | jsDOM.js:293-301 | on a never-started timer only stopTime becomes null; otherwise the interval grows by now minus startTime, and the timer is stopped exactly when now is truthy; startTime is never cleared |
| Timing.Time | jsDOM.js:302-308 | null exactly when never started; a running timer is auto-stopped at now first; the value returned is the interval after that; a stopped or idle timer is left unchanged |
| Timing.FreshTimeIsNull | jsDOM.js:285-304 | a fresh timer has interval 0 and time() on it returns null without changing it |
| Timing.StopWithoutStart | jsDOM.js:293-295 | stop on a never-started timer changes nothing but setting stopTime to null |
| Timing.StartStopAddsDelta | jsDOM.js:288-299 | start at t0 (truthy) then stop at t1 adds exactly t1 - t0 and leaves the timer stopped when t1 is truthy |
| Timing.RestartMeasuresFromLast | jsDOM.js:288-291 | two consecutive starts equal the second start alone, so a following stop measures only from the second reading |
| Timing.StopTwiceAddsTwice | jsDOM.js:293-299 | a second stop without a new start adds the time since the same start again |
| Timing.BackwardsClockShrinksInterval | jsDOM.js:296-299 | a stop reading earlier than the start reading decreases the interval (no clamping) |
| Timing.StoppedTimeIsStable | jsDOM.js:302-308 | on a stopped timer time() returns the interval, ignores the clock and changes nothing |
| Timing.RepeatedTimeAgrees | jsDOM.js:302-308 | a second time() returns the same value and timer as the first, when the first read a truthy clock |
| Timing.IdleUntilStarted | jsDOM.js:285-308 | any sequence of calls without a truthy start keeps the timer not started with its interval unchanged, so time() keeps returning null |
| Timing.IntervalNeverDecreases | jsDOM.js:288-308 | with non-decreasing clock readings no sequence of start/stop/time calls decreases the interval |
| Trial.LapsAccumulate | jsDOM.js:421-441 | after n laps the interval equals the sum of the n stop-minus-start durations; setup and wipe time is never added |
| Trial.FinalReadIsInterval | jsDOM.js:421-442 | after at least one lap with truthy readings the timer is stopped and the final time() returns the accumulated interval |
| Trial.Average | jsDOM.js:442 | the recorded time is non-finite exactly when the lap count is 0; otherwise time multiplied by laps*1000 gives the measured milliseconds, and a null measurement gives 0 |
| Trial.TestTimeIsMean | jsDOM.js:421-442 | a test's time is the sum of its timed durations divided by laps*1000 |
| Trial.ZeroLapsIsNonFinite | jsDOM.js:421-442 | with 0 laps time() returns null and the recorded time is NaN |
| Trial.ConstantLapsTime | jsDOM.js:421-442 | laps that each take d ms give d/1000 seconds, whatever the untimed gaps are |
| Trial.RunTest | jsDOM.js:421-442 | the lap loop yields the modelled test time; it is non-finite exactly when there are no laps, and with truthy readings it is the mean timed duration in seconds |
| Results.TrialLaps | jsDOM.js:408-411 | the lap count is the default 10 when the hash is empty and the parsed hash otherwise |
| Results.RunAll | jsDOM.js:412-444 | results has a key for exactly the names of the tests run; every entry is finite exactly when the lap count is positive |
| Results.RunAllEntry | jsDOM.js:442-443 | a test whose name no later test reuses is recorded with its own description and time |
| Results.RunTests | jsDOM.js:406-444 | the loop over all tests resolves the lap count and builds exactly the results of RunAll, one key per test name |
| Scoring.TotalReorder | jsDOM.js:369-374 | the sum of times is the same for any two visit orders of the same distinct keys |
| Scoring.Score | jsDOM.js:369-375 | the score multiplied by the total time is 1 |
| Scoring.ScoreOrderIndependent | jsDOM.js:369-375 | the score is the same for every order in which results is visited |
| Scoring.ShowScore | jsDOM.js:369-375 | accumulating times over results and taking the reciprocal gives the score |
| Scoring.TwoTestExample | jsDOM.js:369-375 | times 0.5 s and 0.25 s sum to 0.75 and score 4/3 |
| Benchmark.RunAllIsScoreable | jsDOM.js:412-444 | with at least one lap and distinct names, the run order visits every result once and every time is finite |
| Benchmark.SingleTestScore | jsDOM.js:413-443 | one test with every lap taking d ms gives exactly one entry, under its name, of d/1000 s, and the score 1000/d |
| Benchmark.FiveLapsOfTenMs | jsDOM.js:421-443 | five laps of 10 ms separated by 50 ms untimed gaps give 0.01 s and the score 100 |

## Left out

- The eight test bodies (`jsDOM.js:57-281`) are jQuery DOM mutations. They read no clock, so they appear only as gaps between clock readings.
- `wipe`, `showComparison` with its chart, and the text output of `showResults`: these are DOM output.
- `numFormat` is floating-point rounding for display only.
- `new Date().getTime()` is replaced by the `clock` parameter. A reading position is reserved even where the source skips the read (`stop()` on a never-started timer, `time()` on a stopped one). Such a reading is never used.
- `parseInt(window.location.hash.substr(1))` is replaced by the `parsed` parameter, a natural number. NaN, negative results and hexadecimal prefixes are not modelled. A negative count runs no laps and divides by a negative number.
- Results.TrialLaps: the source assigns the global `jsDOM.TRIAL_LAPS`. The model returns the value instead, because `runTests` runs once per page load.
- IEEE doubles are replaced by exact integers for milliseconds and exact reals for seconds and the score. Rounding in the division and the sum is not modelled.
- Trial.Average: NaN and ±Infinity are merged into one `NonFinite` value.
- Scoring.Score: requires every time to be finite and the total to be non-zero. In JavaScript those cases give NaN or an infinite score.
- Results.RunAll: also accepts a sequence of tests with a repeated name, which the source cannot produce, because a repeated key in the object literal drops the earlier test before anything runs. For such input the model still times the shadowed test and keeps the later one, measured at its own position in the run. `Results.RunAllEntry` and `Benchmark.RunAllIsScoreable` describe the distinct-name case the source has.
- Object-key order: the visit order of `results` is the run order of the tests. The score does not depend on it (Scoring.ScoreOrderIndependent).
