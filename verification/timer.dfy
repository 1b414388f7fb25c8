/** The `jsDOM.Timer` stopwatch: an accumulated `interval` plus the last
    `startTime` and `stopTime` clock readings. Every operation that may read
    the clock takes that reading as the parameter `now` (milliseconds). */
module Timing {
  import opened JsValues

  datatype Timer = Timer(interval: int, startTime: Nullable<int>, stopTime: Nullable<int>)

  /** The state the two guards `!startTime` and `!stopTime` distinguish. */
  datatype Phase = Idle | Running | Stopped

  function PhaseOf(t: Timer): Phase {
    if !Truthy(t.startTime) then Idle
    else if !Truthy(t.stopTime) then Running
    else Stopped
  }

  /** What `new jsDOM.Timer()` builds: nothing measured, nothing started. */
  function Fresh(): (t: Timer)
    ensures t.interval == 0
    ensures PhaseOf(t) == Idle
  {
    Timer(0, Null, Null)
  }

  /** `start()`: clears `stopTime` and records `now` as `startTime`. */
  function Start(t: Timer, now: int): (r: Timer)
    ensures r.interval == t.interval
    ensures r.startTime == Val(now) && r.stopTime == Null
    ensures PhaseOf(r) == (if now != 0 then Running else Idle)
  {
    t.(stopTime := Null, startTime := Val(now))
  }

  /** `stop()`: without a (truthy) `startTime` it only nulls `stopTime`;
      otherwise it records `now` and adds `now - startTime` to `interval`.
      `startTime` is never cleared. */
  function Stop(t: Timer, now: int): (r: Timer)
    ensures r.startTime == t.startTime
    ensures PhaseOf(t) == Idle ==> r.interval == t.interval && r.stopTime == Null
    ensures PhaseOf(t) != Idle ==> r.interval == t.interval + (now - t.startTime.v)
    ensures PhaseOf(t) != Idle ==> PhaseOf(r) == (if now != 0 then Stopped else Running)
  {
    if !Truthy(t.startTime) then t.(stopTime := Null)
    else t.(stopTime := Val(now), interval := t.interval + (now - t.startTime.v))
  }

  /** The timer after a `time()` call together with the value it returned. */
  datatype Reading = Reading(timer: Timer, value: Nullable<int>)

  /** `time()`: `null` when never started; a running timer is stopped at
      `now` first; the value returned is then `interval`. */
  function Time(t: Timer, now: int): (r: Reading)
    ensures r.value == Null <==> PhaseOf(t) == Idle
    ensures r.value.Val? ==> r.value.v == r.timer.interval
    ensures PhaseOf(t) != Running ==> r.timer == t
    ensures PhaseOf(t) == Running ==> r.timer == Stop(t, now)
    ensures PhaseOf(t) == Running ==> r.value == Val(t.interval + (now - t.startTime.v))
  {
    if !Truthy(t.startTime) then Reading(t, Null)
    else
      var stopped := if !Truthy(t.stopTime) then Stop(t, now) else t;
      Reading(stopped, Val(stopped.interval))
  }

  /** A fresh timer reports "no measurement", never 0. */
  lemma FreshTimeIsNull(now: int)
    ensures Fresh().interval == 0
    ensures Time(Fresh(), now) == Reading(Fresh(), Null)
  {
  }

  /** Stopping a timer that was never started changes only `stopTime`. */
  lemma StopWithoutStart(t: Timer, now: int)
    requires PhaseOf(t) == Idle
    ensures Stop(t, now) == t.(stopTime := Null)
  {
  }

  /** A start at a truthy reading `t0` followed by a stop at `t1` adds
      exactly `t1 - t0`. */
  lemma StartStopAddsDelta(t: Timer, t0: int, t1: int)
    requires t0 != 0
    ensures Stop(Start(t, t0), t1).interval == t.interval + (t1 - t0)
    ensures PhaseOf(Stop(Start(t, t0), t1)) == (if t1 != 0 then Stopped else Running)
  {
  }

  /** A second `start()` forgets the first: only the latest reading counts. */
  lemma RestartMeasuresFromLast(t: Timer, a: int, b: int, c: int)
    ensures Start(Start(t, a), b) == Start(t, b)
    ensures Stop(Start(Start(t, a), b), c) == Stop(Start(t, b), c)
  {
  }

  /** Because `stop()` keeps `startTime`, a second `stop()` without a new
      `start()` adds the time since the same start once more. */
  lemma StopTwiceAddsTwice(t: Timer, a: int, b: int)
    requires PhaseOf(t) != Idle
    ensures Stop(Stop(t, a), b).interval
         == t.interval + (a - t.startTime.v) + (b - t.startTime.v)
  {
  }

  /** A clock that runs backwards between `start()` and `stop()` makes the
      interval shrink: the difference is added as it is, never clamped. */
  lemma BackwardsClockShrinksInterval(t: Timer, t0: int, t1: int)
    requires t0 != 0 && t1 < t0
    ensures Stop(Start(t, t0), t1).interval < t.interval
  {
  }

  /** Reading a stopped timer neither reads the clock nor changes it. */
  lemma StoppedTimeIsStable(t: Timer, a: int, b: int)
    requires PhaseOf(t) == Stopped
    ensures Time(t, a) == Time(t, b) == Reading(t, Val(t.interval))
  {
  }

  /** Repeated reads agree, provided the auto-stop took a truthy reading
      (a reading of 0 would leave `stopTime` falsy and re-stop next time). */
  lemma RepeatedTimeAgrees(t: Timer, a: int, b: int)
    requires a != 0
    ensures Time(Time(t, a).timer, b) == Time(t, a)
  {
  }

  /** One call on the public interface of a Timer, with its clock reading. */
  datatype Call = StartCall(now: int) | StopCall(now: int) | TimeCall(now: int)

  function Apply(t: Timer, c: Call): Timer {
    match c
    case StartCall(now) => Start(t, now)
    case StopCall(now) => Stop(t, now)
    case TimeCall(now) => Time(t, now).timer
  }

  /** The timer after a sequence of calls, first call first. */
  function Replay(t: Timer, calls: seq<Call>): Timer
    decreases |calls|
  {
    if |calls| == 0 then t else Replay(Apply(t, calls[0]), calls[1..])
  }

  predicate NonDecreasing(calls: seq<Call>) {
    forall i, j :: 0 <= i < j < |calls| ==> calls[i].now <= calls[j].now
  }

  /** A recorded start is no later than the reading `now`. */
  predicate StartedBy(t: Timer, now: int) {
    PhaseOf(t) != Idle ==> t.startTime.v <= now
  }

  /** Calls that never start the timer at a truthy reading. */
  predicate NoTruthyStart(calls: seq<Call>) {
    forall i :: 0 <= i < |calls| ==> !(calls[i].StartCall? && calls[i].now != 0)
  }

  /** Until `start()` is called, every `time()` returns `null` and the
      interval stays where it was. */
  lemma {:induction false} IdleUntilStarted(t: Timer, calls: seq<Call>)
    requires PhaseOf(t) == Idle
    requires NoTruthyStart(calls)
    ensures PhaseOf(Replay(t, calls)) == Idle
    ensures Replay(t, calls).interval == t.interval
    decreases |calls|
  {
    if |calls| > 0 {
      var t' := Apply(t, calls[0]);
      assert PhaseOf(t') == Idle && t'.interval == t.interval;
      assert NoTruthyStart(calls[1..]) by {
        forall i | 0 <= i < |calls[1..]|
          ensures !(calls[1..][i].StartCall? && calls[1..][i].now != 0)
        {
          assert calls[1..][i] == calls[i + 1];
        }
      }
      IdleUntilStarted(t', calls[1..]);
    }
  }

  /** With a clock that never runs backwards, `interval` never decreases. */
  lemma {:induction false} IntervalNeverDecreases(t: Timer, calls: seq<Call>)
    requires NonDecreasing(calls)
    requires |calls| > 0 ==> StartedBy(t, calls[0].now)
    ensures Replay(t, calls).interval >= t.interval
    decreases |calls|
  {
    if |calls| > 0 {
      var t' := Apply(t, calls[0]);
      assert t'.interval >= t.interval;
      assert StartedBy(t', calls[0].now);
      var rest := calls[1..];
      assert NonDecreasing(rest) by {
        forall i, j | 0 <= i < j < |rest| ensures rest[i].now <= rest[j].now {
          assert rest[i] == calls[i + 1] && rest[j] == calls[j + 1];
        }
      }
      if |rest| > 0 {
        assert rest[0] == calls[1];
      }
      IntervalNeverDecreases(t', rest);
    }
  }
}
