/** The per-test trial loop of `jsDOM.runTests`: one Timer per test,
    `laps` rounds of untimed setup, `start()`, timed main, `stop()`,
    untimed wipe, then one `time()` read turned into seconds per lap.

    The clock is a parameter: `clock(k)` is the millisecond reading the
    k-th clock-reading point of the whole run would see. A test whose
    readings begin at `base` uses `clock(base + 2*i)` for the `start()` of
    lap `i`, `clock(base + 2*i + 1)` for its `stop()`, and
    `clock(base + 2*laps)` for the final `time()`. Setup, main and wipe
    read no clock, so they appear only as the gaps between those readings. */
module Trial {
  import opened JsValues
  import opened Timing

  type Clock = nat -> int

  /** `jsDOM.TRIAL_LAPS`: the number of laps when nothing overrides it. */
  const TRIAL_LAPS: nat := 10

  /** A test's time in seconds per lap, as a JavaScript number: finite, or
      NaN/Infinity when the lap count is 0 and the division is by zero. */
  datatype Seconds = Finite(value: real) | NonFinite

  /** Clock readings one test spans. */
  function Slots(laps: nat): nat {
    2 * laps + 1
  }

  function StartAt(clock: Clock, base: nat, i: nat): int {
    clock(base + 2 * i)
  }

  function StopAt(clock: Clock, base: nat, i: nat): int {
    clock(base + 2 * i + 1)
  }

  function ReadAt(clock: Clock, base: nat, laps: nat): int {
    clock(base + 2 * laps)
  }

  /** One lap as the Timer sees it: a start and a stop. */
  function Lap(t: Timer, clock: Clock, base: nat, i: nat): Timer {
    Stop(Start(t, StartAt(clock, base, i)), StopAt(clock, base, i))
  }

  /** The test's Timer after its first `n` laps. */
  function RunLaps(clock: Clock, base: nat, n: nat): Timer {
    if n == 0 then Fresh() else Lap(RunLaps(clock, base, n - 1), clock, base, n - 1)
  }

  /** The reference measure: the sum of the `n` timed durations. */
  function TimedTotal(clock: Clock, base: nat, n: nat): int {
    if n == 0 then 0
    else TimedTotal(clock, base, n - 1) + (StopAt(clock, base, n - 1) - StartAt(clock, base, n - 1))
  }

  /** Every `start()` of the first `n` laps reads a truthy (non-zero) clock. */
  predicate TruthyStarts(clock: Clock, base: nat, n: nat) {
    forall i :: 0 <= i < n ==> StartAt(clock, base, i) != 0
  }

  /** Every clock reading of the test is truthy, as `Date.getTime()` is
      after 1970. */
  predicate TruthyReadings(clock: Clock, base: nat, n: nat) {
    forall i :: 0 <= i < n ==> StartAt(clock, base, i) != 0 && StopAt(clock, base, i) != 0
  }

  /** The interval accumulated over the laps is exactly the sum of the timed
      start-to-stop durations: setup and wipe time is never added. */
  lemma {:induction false} LapsAccumulate(clock: Clock, base: nat, n: nat)
    requires TruthyStarts(clock, base, n)
    ensures RunLaps(clock, base, n).interval == TimedTotal(clock, base, n)
  {
    if n > 0 {
      LapsAccumulate(clock, base, n - 1);
      StartStopAddsDelta(RunLaps(clock, base, n - 1), StartAt(clock, base, n - 1), StopAt(clock, base, n - 1));
    }
  }

  /** After at least one lap with truthy readings the Timer is stopped, so the
      final `time()` reads no clock and returns the accumulated interval. */
  lemma FinalReadIsInterval(clock: Clock, base: nat, n: nat)
    requires n > 0
    requires TruthyReadings(clock, base, n)
    ensures PhaseOf(RunLaps(clock, base, n)) == Stopped
    ensures Time(RunLaps(clock, base, n), ReadAt(clock, base, n)).value
         == Val(RunLaps(clock, base, n).interval)
  {
    assert StartAt(clock, base, n - 1) != 0 && StopAt(clock, base, n - 1) != 0;
  }

  /** `test.time = timer.time()/(TRIAL_LAPS*1000)`: a `null` reading
      coerces to 0, and a lap count of 0 divides by zero. */
  function Average(measured: Nullable<int>, laps: nat): (r: Seconds)
    ensures r.NonFinite? <==> laps == 0
    ensures laps > 0 && measured.Val? ==> r.value * (laps * 1000) as real == measured.v as real
    ensures laps > 0 && measured == Null ==> r == Finite(0.0)
  {
    if laps == 0 then NonFinite
    else
      var ms := if measured.Val? then measured.v else 0;
      Finite(ms as real / (laps * 1000) as real)
  }

  /** The value `time()` returns after all laps of the test. */
  function Measured(clock: Clock, base: nat, laps: nat): Nullable<int> {
    Time(RunLaps(clock, base, laps), ReadAt(clock, base, laps)).value
  }

  /** The recorded time of one test, in seconds per lap. */
  function TestTime(clock: Clock, base: nat, laps: nat): Seconds {
    Average(Measured(clock, base, laps), laps)
  }

  /** With truthy readings a test's time is the mean timed duration in
      seconds. */
  lemma TestTimeIsMean(clock: Clock, base: nat, laps: nat)
    requires laps > 0
    requires TruthyReadings(clock, base, laps)
    ensures TestTime(clock, base, laps)
         == Finite(TimedTotal(clock, base, laps) as real / (laps * 1000) as real)
  {
    LapsAccumulate(clock, base, laps);
    FinalReadIsInterval(clock, base, laps);
  }

  /** With no laps the timer is never started, `time()` is `null`, and
      `null/0` is NaN. */
  lemma ZeroLapsIsNonFinite(clock: Clock, base: nat)
    ensures Measured(clock, base, 0) == Null
    ensures TestTime(clock, base, 0) == NonFinite
  {
  }

  /** Laps that all take `d` milliseconds give `d/1000` seconds, whatever
      the setup and wipe in between cost. */
  lemma {:induction false} ConstantLapsTotal(clock: Clock, base: nat, n: nat, d: int)
    requires forall i :: 0 <= i < n ==> StopAt(clock, base, i) - StartAt(clock, base, i) == d
    ensures TimedTotal(clock, base, n) == n * d
  {
    if n > 0 {
      ConstantLapsTotal(clock, base, n - 1, d);
    }
  }

  lemma ConstantLapsTime(clock: Clock, base: nat, laps: nat, d: int)
    requires laps > 0
    requires TruthyReadings(clock, base, laps)
    requires forall i :: 0 <= i < laps ==> StopAt(clock, base, i) - StartAt(clock, base, i) == d
    ensures TestTime(clock, base, laps) == Finite(d as real / 1000.0)
  {
    TestTimeIsMean(clock, base, laps);
    ConstantLapsTotal(clock, base, laps, d);
    assert (laps * d) as real / (laps * 1000) as real == d as real / 1000.0 by {
      assert (laps * 1000) as real == laps as real * 1000.0;
      assert (laps * d) as real == laps as real * d as real;
    }
  }

  /** The loop of `runTests` for one test, lap by lap. */
  method RunTest(clock: Clock, base: nat, laps: nat) returns (time: Seconds)
    ensures time == TestTime(clock, base, laps)
    ensures time.NonFinite? <==> laps == 0
    ensures laps > 0 && TruthyReadings(clock, base, laps) ==>
              time == Finite(TimedTotal(clock, base, laps) as real / (laps * 1000) as real)
  {
    var timer := Fresh();
    var i := 0;
    while i < laps
      invariant 0 <= i <= laps
      invariant timer == RunLaps(clock, base, i)
    {
      // setup() is untimed and reads no clock
      timer := Start(timer, StartAt(clock, base, i));
      // main() is the timed work
      timer := Stop(timer, StopAt(clock, base, i));
      // wipe() is untimed and reads no clock
      i := i + 1;
    }
    var reading := Time(timer, ReadAt(clock, base, laps));
    time := Average(reading.value, laps);
    if laps > 0 && TruthyReadings(clock, base, laps) {
      TestTimeIsMean(clock, base, laps);
    }
  }
}
