/**
  The elapsed timer is the stopwatch that is never stopped and never banks
  anything. The two timer types are independent of each other; this module
  only relates them.
 */
module TimerRelation {
  import opened Chrono
  import ElapsedTimer
  import StopwatchTimer

  /** The stopwatch an elapsed timer behaves like. */
  function AsStopwatch(e: ElapsedTimer.Elapsed): (r: StopwatchTimer.Stopwatch)
  {
    StopwatchTimer.Stopwatch(true, e.startTime, 0)
  }

  /** Construction, restart and value of the elapsed timer are those of the
      always-running stopwatch. */
  lemma ElapsedIsRunningStopwatch(e: ElapsedTimer.Elapsed, now: TimePoint, later: TimePoint)
    ensures ElapsedTimer.Value(e, later) == StopwatchTimer.Value(AsStopwatch(e), later)
    ensures AsStopwatch(ElapsedTimer.New(now)) == StopwatchTimer.New(now)
    ensures AsStopwatch(ElapsedTimer.Restart(e, now)) == StopwatchTimer.Restart(AsStopwatch(e), now)
    ensures StopwatchTimer.Start(AsStopwatch(e), now) == AsStopwatch(e)
    ensures ElapsedTimer.IsRunning(e) == StopwatchTimer.IsRunning(AsStopwatch(e))
  {
  }

  /** The two families of comparison operators agree on corresponding timers. */
  lemma ComparisonsAgree(a: ElapsedTimer.Elapsed, b: ElapsedTimer.Elapsed, now: TimePoint)
    ensures ElapsedTimer.Equal(a, b, now) == StopwatchTimer.Equal(AsStopwatch(a), AsStopwatch(b), now)
    ensures ElapsedTimer.NotEqual(a, b, now) == StopwatchTimer.NotEqual(AsStopwatch(a), AsStopwatch(b), now)
    ensures ElapsedTimer.Less(a, b, now) == StopwatchTimer.Less(AsStopwatch(a), AsStopwatch(b), now)
    ensures ElapsedTimer.LessEq(a, b, now) == StopwatchTimer.LessEq(AsStopwatch(a), AsStopwatch(b), now)
    ensures ElapsedTimer.Greater(a, b, now) == StopwatchTimer.Greater(AsStopwatch(a), AsStopwatch(b), now)
    ensures ElapsedTimer.GreaterEq(a, b, now) == StopwatchTimer.GreaterEq(AsStopwatch(a), AsStopwatch(b), now)
  {
  }
}
