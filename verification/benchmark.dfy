/** The whole run: `runTests` followed by the score of `showResults`. */
module Benchmark {
  import opened Trial
  import opened Results
  import opened Scoring

  /** With at least one lap and distinct test names, the run order visits
      every entry of `results` once and every time is finite, so the score is
      defined whenever the times do not sum to zero. */
  lemma RunAllIsScoreable(tests: seq<Test>, clock: Clock, laps: nat)
    requires laps > 0
    requires Distinct(Names(tests))
    ensures Enumerates(Names(tests), RunAll(tests, clock, laps))
    ensures AllFinite(RunAll(tests, clock, laps))
  {
  }

  /** One test whose every lap takes `d` ms records `d/1000` s under its
      own name, as the only entry, and scores `1000/d`. */
  lemma SingleTestScore(name: string, description: string, clock: Clock, laps: nat, d: int)
    requires laps > 0 && d != 0
    requires TruthyReadings(clock, 0, laps)
    requires forall i :: 0 <= i < laps ==> StopAt(clock, 0, i) - StartAt(clock, 0, i) == d
    ensures var r := RunAll([Test(name, description)], clock, laps);
            && r == map[name := Entry(description, Finite(d as real / 1000.0))]
            && Enumerates([name], r) && AllFinite(r)
            && Total(r, [name]) != 0.0
            && Score(r, [name]) == 1000.0 / d as real
  {
    var tests := [Test(name, description)];
    assert tests[..0] == [];
    ConstantLapsTime(clock, 0, laps, d);
    assert Base(0, laps) == 0;
    var r := RunAll(tests, clock, laps);
    assert r == map[name := Entry(description, Finite(d as real / 1000.0))];
    assert [name][..0] == [];
    assert Total(r, [name]) == d as real / 1000.0;
  }

  /** A clock where each timed main takes 10 ms and each untimed
      setup-and-wipe gap 50 ms. */
  function TenMsClock(k: nat): int {
    1 + 60 * (k / 2) + 10 * (k % 2)
  }

  /** Five laps of 10 ms: 0.010 s per lap and a score of 100, the untimed
      gaps notwithstanding. */
  lemma FiveLapsOfTenMs(name: string, description: string)
    ensures var r := RunAll([Test(name, description)], TenMsClock, 5);
            && r == map[name := Entry(description, Finite(0.01))]
            && Enumerates([name], r) && AllFinite(r) && Total(r, [name]) != 0.0
            && Score(r, [name]) == 100.0
  {
    forall i | 0 <= i < 5
      ensures StartAt(TenMsClock, 0, i) == 1 + 60 * i
      ensures StopAt(TenMsClock, 0, i) == 11 + 60 * i
    {
      assert (0 + 2 * i) / 2 == i && (0 + 2 * i) % 2 == 0;
      assert (0 + 2 * i + 1) / 2 == i && (0 + 2 * i + 1) % 2 == 1;
    }
    SingleTestScore(name, description, TenMsClock, 5, 10);
  }
}
