/**
  Sequences of start, stop, restart and reset operations on a stopwatch,
  driven by a steady clock. A run is a list of steps, each one of those four
  operations together with the clock reading it took; the steady-clock
  requirement becomes the condition that the readings never decrease. Copy
  construction and copy assignment, which take their state from another
  stopwatch, are covered by their own lemma.
 */
module StopwatchRuns {
  import opened Chrono
  import opened StopwatchTimer

  datatype Event = StartEvent | StopEvent | RestartEvent | ResetEvent

  datatype Step = Step(event: Event, at: TimePoint)

  /** One start, stop, restart or reset at its own clock reading. */
  function Apply(t: Stopwatch, s: Step): (r: Stopwatch)
  {
    match s.event
    case StartEvent => Start(t, s.at)
    case StopEvent => Stop(t, s.at)
    case RestartEvent => Restart(t, s.at)
    case ResetEvent => Reset(t, s.at)
  }

  /** The operations of `steps`, in order. */
  function Run(t: Stopwatch, steps: seq<Step>): (r: Stopwatch)
    decreases |steps|
  {
    if |steps| == 0 then t else Run(Apply(t, steps[0]), steps[1..])
  }

  /** The readings of `steps` never go back, starting from the reading `from`. */
  predicate Ordered(from: TimePoint, steps: seq<Step>)
    decreases |steps|
  {
    |steps| == 0 || (from <= steps[0].at && Ordered(steps[0].at, steps[1..]))
  }

  /** The last reading taken, `from` when there are no steps. */
  function LastTime(from: TimePoint, steps: seq<Step>): (r: TimePoint)
    decreases |steps|
  {
    if |steps| == 0 then from else LastTime(steps[0].at, steps[1..])
  }

  /** Neither restart nor reset occurs, so nothing banked is discarded. */
  predicate KeepsBanked(steps: seq<Step>)
  {
    forall i :: 0 <= i < |steps| ==> steps[i].event in {StartEvent, StopEvent}
  }

  /** The state a steady clock can produce by the reading `now`: nothing
      negative is banked, and an open run segment began no later than `now`. */
  predicate Wf(t: Stopwatch, now: TimePoint)
  {
    t.accumulated >= 0 && (t.running ==> t.startTime <= now)
  }

  /** Both constructors produce a well-formed timer at their own reading. */
  lemma ConstructedWf(start: bool, now: TimePoint)
    ensures Wf(New(now), now) && Wf(NewWith(start, now), now)
  {
  }

  /** One operation taken at a reading no earlier than `from` keeps the timer
      well formed, now at the operation's reading. */
  lemma ApplyKeepsWf(t: Stopwatch, from: TimePoint, s: Step)
    requires Wf(t, from) && from <= s.at
    ensures Wf(Apply(t, s), s.at)
  {
  }

  /** Copy construction and copy assignment hand the source's state to the
      target, so a well-formed source gives a well-formed target at any later
      reading, whatever the target held before. */
  lemma CopyAndAssignKeepWf(lhs: Stopwatch, rhs: Stopwatch, n: TimePoint, now: TimePoint)
    requires Wf(rhs, n) && n <= now
    ensures Wf(Copy(rhs), now) && Wf(Assign(lhs, rhs), now)
  {
  }

  /** Every run under a steady clock keeps the timer well formed. */
  lemma {:induction false} RunKeepsWf(t: Stopwatch, from: TimePoint, steps: seq<Step>)
    requires Wf(t, from) && Ordered(from, steps)
    ensures Wf(Run(t, steps), LastTime(from, steps))
    decreases |steps|
  {
    if |steps| > 0 {
      ApplyKeepsWf(t, from, steps[0]);
      RunKeepsWf(Apply(t, steps[0]), steps[0].at, steps[1..]);
    }
  }

  /** Under a steady clock a stopwatch never reports a negative value,
      whatever sequence of start, stop, restart and reset it went through
      since it was constructed. */
  lemma ValueNeverNegative(start: bool, t0: TimePoint, steps: seq<Step>, now: TimePoint)
    requires Ordered(t0, steps) && LastTime(t0, steps) <= now
    ensures Value(Run(NewWith(start, t0), steps), now) >= 0
  {
    RunKeepsWf(NewWith(start, t0), t0, steps);
  }

  /** Between resets and restarts, the banked duration never shrinks and the
      value never decreases, however the timer is started and stopped. */
  lemma {:induction false} ValueNonDecreasingWithoutZeroing(t: Stopwatch, from: TimePoint, steps: seq<Step>, now: TimePoint)
    requires Wf(t, from) && Ordered(from, steps) && KeepsBanked(steps)
    requires LastTime(from, steps) <= now
    ensures Run(t, steps).accumulated >= t.accumulated
    ensures Value(Run(t, steps), now) >= Value(t, from)
    decreases |steps|
  {
    if |steps| == 0 {
      ValueMonotone(t, from, now);
    } else {
      var s := steps[0];
      var t' := Apply(t, s);
      assert Value(t', s.at) == Value(t, s.at);
      ValueMonotone(t, from, s.at);
      ApplyKeepsWf(t, from, s);
      assert KeepsBanked(steps[1..]) by {
        forall i | 0 <= i < |steps[1..]|
          ensures steps[1..][i].event in {StartEvent, StopEvent}
        {
          assert steps[1..][i] == steps[i + 1];
        }
      }
      assert steps[0].event in {StartEvent, StopEvent};
      ValueNonDecreasingWithoutZeroing(t', s.at, steps[1..], now);
    }
  }
}
