/** The outer loop of `jsDOM.runTests`: resolve the lap count, run every
    registered test in turn with its own Timer, and record each one under
    its name in `results`. */
module Results {
  import opened JsValues
  import opened Trial

  /** A registered test as the harness sees it; its setup and main bodies
      read no clock and are represented only by the gaps between readings. */
  datatype Test = Test(name: string, description: string)

  /** `results[testName]`: the test's description and its recorded time. */
  datatype Entry = Entry(description: string, time: Seconds)

  /** The lap count: the default unless the location hash is non-empty, in
      which case it is whatever the hash parses to (`parsed`). */
  function TrialLaps(hash: string, parsed: nat): (laps: nat)
    ensures hash == "" ==> laps == TRIAL_LAPS
    ensures hash != "" ==> laps == parsed
  {
    if hash != "" then parsed else TRIAL_LAPS
  }

  /** The first clock-reading point of the `j`-th test. */
  function Base(j: nat, laps: nat): nat {
    j * Slots(laps)
  }

  /** The entry recorded for test `t` run as the `j`-th test. */
  function EntryFor(t: Test, j: nat, clock: Clock, laps: nat): Entry {
    Entry(t.description, TestTime(clock, Base(j, laps), laps))
  }

  /** The test names in run order. */
  function Names(tests: seq<Test>): (names: seq<string>)
    ensures |names| == |tests|
    ensures forall i :: 0 <= i < |tests| ==> names[i] == tests[i].name
  {
    if |tests| == 0 then [] else Names(tests[..|tests| - 1]) + [tests[|tests| - 1].name]
  }

  /** No later test in the order carries the name of test `j`. */
  predicate LastWithName(tests: seq<Test>, j: nat)
    requires j < |tests|
  {
    forall k :: j < k < |tests| ==> tests[k].name != tests[j].name
  }

  /** `results` after running `tests` in order; a later test with the same
      name overwrites an earlier one, as an object key does. */
  function RunAll(tests: seq<Test>, clock: Clock, laps: nat): (results: map<string, Entry>)
    ensures forall x :: x in results <==> x in Names(tests)
    ensures forall x :: x in results ==> (results[x].time.NonFinite? <==> laps == 0)
    decreases |tests|
  {
    if |tests| == 0 then map[]
    else
      var n := |tests| - 1;
      RunAll(tests[..n], clock, laps)[tests[n].name := EntryFor(tests[n], n, clock, laps)]
  }

  /** Every test whose name no later test reuses is recorded with its own
      description and time; so with distinct names there is exactly one
      entry per test. */
  lemma {:induction false} RunAllEntry(tests: seq<Test>, clock: Clock, laps: nat, j: nat)
    requires j < |tests|
    requires LastWithName(tests, j)
    ensures tests[j].name in RunAll(tests, clock, laps)
    ensures RunAll(tests, clock, laps)[tests[j].name] == EntryFor(tests[j], j, clock, laps)
    decreases |tests|
  {
    var n := |tests| - 1;
    var prefix := tests[..n];
    assert RunAll(tests, clock, laps)
        == RunAll(prefix, clock, laps)[tests[n].name := EntryFor(tests[n], n, clock, laps)];
    if j < n {
      assert prefix[j] == tests[j];
      assert LastWithName(prefix, j) by {
        forall k | j < k < |prefix| ensures prefix[k].name != prefix[j].name {
          assert prefix[k] == tests[k];
        }
      }
      RunAllEntry(prefix, clock, laps, j);
      assert tests[n].name != tests[j].name by {
        assert j < n < |tests|;
      }
    }
  }

  /** `runTests` up to the call of `showResults`. */
  method RunTests(hash: string, parsed: nat, tests: seq<Test>, clock: Clock)
    returns (laps: nat, results: map<string, Entry>)
    ensures laps == TrialLaps(hash, parsed)
    ensures results == RunAll(tests, clock, laps)
    ensures forall x :: x in results <==> x in Names(tests)
  {
    laps := TrialLaps(hash, parsed);
    results := map[];
    var j := 0;
    while j < |tests|
      invariant 0 <= j <= |tests|
      invariant results == RunAll(tests[..j], clock, laps)
    {
      var time := RunTest(clock, Base(j, laps), laps);
      assert tests[..j + 1][..j] == tests[..j];
      results := results[tests[j].name := Entry(tests[j].description, time)];
      j := j + 1;
    }
    assert tests[..j] == tests;
  }
}
