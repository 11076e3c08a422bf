/**
  An independent reference for the stopwatch: instead of one banked
  duration, keep the list of completed run segments and, while running, the
  reading at which the open segment began. The elapsed value is then the
  total length of the segments, plus the open one up to the reading taken.
  The stopwatch's three-field state is shown to compute exactly this.
 */
module StopwatchSegments {
  import opened Chrono
  import opened StopwatchTimer
  import opened StopwatchRuns

  /** A completed run segment, from its start reading to its stop reading. */
  datatype Segment = Segment(from: TimePoint, to: TimePoint)

  /** An open run segment, or none while the timer is stopped. */
  datatype Open = Idle | Since(at: TimePoint)

  datatype SegmentLog = SegmentLog(closed: seq<Segment>, open: Open)

  function Length(s: Segment): (r: Duration)
  {
    s.to - s.from
  }

  /** Total length of the completed segments. */
  function Total(segs: seq<Segment>): (r: Duration)
    decreases |segs|
  {
    if |segs| == 0 then 0 else Length(segs[0]) + Total(segs[1..])
  }

  /** Total running time at the reading `now`. */
  function LogValue(log: SegmentLog, now: TimePoint): (r: Duration)
  {
    Total(log.closed) + (if log.open.Since? then now - log.open.at else 0)
  }

  /** The log right after construction, running or not. */
  function LogNew(start: bool, now: TimePoint): (r: SegmentLog)
  {
    SegmentLog([], if start then Since(now) else Idle)
  }

  /** The log's own reading of each operation: start opens a segment unless
      one is open, stop closes the open one, restart and reset forget every
      segment and leave one open or none. */
  function LogApply(log: SegmentLog, s: Step): (r: SegmentLog)
  {
    match s.event
    case StartEvent =>
      if log.open.Idle? then SegmentLog(log.closed, Since(s.at)) else log
    case StopEvent =>
      if log.open.Since? then SegmentLog(log.closed + [Segment(log.open.at, s.at)], Idle) else log
    case RestartEvent => SegmentLog([], Since(s.at))
    case ResetEvent => SegmentLog([], Idle)
  }

  function LogRun(log: SegmentLog, steps: seq<Step>): (r: SegmentLog)
    decreases |steps|
  {
    if |steps| == 0 then log else LogRun(LogApply(log, steps[0]), steps[1..])
  }

  /** The stopwatch state `t` summarises `log`: it runs exactly when a segment
      is open, from that segment's start, and has banked the completed ones. */
  predicate Abstracts(log: SegmentLog, t: Stopwatch)
  {
    && (t.running <==> log.open.Since?)
    && (t.running ==> t.startTime == log.open.at)
    && t.accumulated == Total(log.closed)
  }

  /** Closing one more segment adds its length to the total. */
  lemma {:induction false} TotalAppend(segs: seq<Segment>, s: Segment)
    ensures Total(segs + [s]) == Total(segs) + Length(s)
    decreases |segs|
  {
    if |segs| == 0 {
      assert segs + [s] == [s];
    } else {
      assert (segs + [s])[1..] == segs[1..] + [s];
      TotalAppend(segs[1..], s);
    }
  }

  /** A summarising state reports the log's running time at every reading. */
  lemma AbstractsValue(log: SegmentLog, t: Stopwatch, now: TimePoint)
    requires Abstracts(log, t)
    ensures Value(t, now) == LogValue(log, now)
  {
  }

  /** Each operation keeps the summary relation. */
  lemma ApplyAbstracts(log: SegmentLog, t: Stopwatch, s: Step)
    requires Abstracts(log, t)
    ensures Abstracts(LogApply(log, s), Apply(t, s))
  {
    if s.event.StopEvent? && t.running {
      TotalAppend(log.closed, Segment(log.open.at, s.at));
    }
  }

  /** After copy construction or copy assignment, the target's segment
      account is the source's: the target continues from the right-hand
      timer's segments, and whatever the target held before is gone. */
  lemma CopyAndAssignAbstract(log: SegmentLog, lhs: Stopwatch, rhs: Stopwatch)
    requires Abstracts(log, rhs)
    ensures Abstracts(log, Copy(rhs)) && Abstracts(log, Assign(lhs, rhs))
  {
  }

  /** Every run of start, stop, restart and reset keeps the summary relation. */
  lemma {:induction false} RunAbstracts(log: SegmentLog, t: Stopwatch, steps: seq<Step>)
    requires Abstracts(log, t)
    ensures Abstracts(LogRun(log, steps), Run(t, steps))
    decreases |steps|
  {
    if |steps| > 0 {
      ApplyAbstracts(log, t, steps[0]);
      RunAbstracts(LogApply(log, steps[0]), Apply(t, steps[0]), steps[1..]);
    }
  }

  /** Whatever sequence of start, stop, restart and reset follows
      construction, the stopwatch's value is the
      total length of its run segments since the last restart or reset, plus
      the open segment up to the reading taken. */
  lemma ValueIsSegmentTotal(start: bool, t0: TimePoint, steps: seq<Step>, now: TimePoint)
    ensures Value(Run(NewWith(start, t0), steps), now) == LogValue(LogRun(LogNew(start, t0), steps), now)
  {
    RunAbstracts(LogNew(start, t0), NewWith(start, t0), steps);
    AbstractsValue(LogRun(LogNew(start, t0), steps), Run(NewWith(start, t0), steps), now);
  }
}
