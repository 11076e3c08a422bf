/**
  The stopwatch timer: a running flag, the reading at which the current run
  segment began, and the duration banked from completed run segments. Each
  public operation of the timer is one step of a pure state machine; the
  operations that read the clock take that reading as `now`.
 */
module StopwatchTimer {
  import opened Chrono

  datatype Stopwatch = Stopwatch(running: bool, startTime: TimePoint, accumulated: Duration)

  /** Elapsed value at the reading `now`: the banked duration, plus the open
      run segment when the timer is running. A stopped timer reads what it
      has banked; a state a steady clock can produce never reads negative. */
  function Value(t: Stopwatch, now: TimePoint): (r: Duration)
    ensures !t.running ==> r == t.accumulated
    ensures t.running && t.startTime <= now ==> r >= t.accumulated
    ensures t.accumulated >= 0 && (t.running ==> t.startTime <= now) ==> r >= 0
  {
    if t.running then (now - t.startTime) + t.accumulated else t.accumulated
  }

  /** The running flag, as it shows in the value: a stopped timer reads the
      same at every reading, a running one gains one tick per tick. */
  function IsRunning(t: Stopwatch): (r: bool)
    ensures !r ==> forall n :: Value(t, n) == t.accumulated
    ensures r ==> forall n :: Value(t, n + 1) == Value(t, n) + 1
  {
    t.running
  }

  /** The reading at which a running timer would have read zero. */
  function Origin(t: Stopwatch): (r: TimePoint)
  {
    t.startTime - t.accumulated
  }

  /** Default construction at reading `now`: the timer starts running with
      nothing banked, so it reads zero at `now` and then follows the clock. */
  function New(now: TimePoint): (r: Stopwatch)
    ensures IsRunning(r) && r.accumulated == 0
    ensures Value(r, now) == 0
    ensures forall later :: Value(r, later) == later - now
  {
    Stopwatch(true, now, 0)
  }

  /** Construction with a caller-chosen initial running state. A timer built
      stopped reads zero at every reading until it is started. */
  function NewWith(start: bool, now: TimePoint): (r: Stopwatch)
    ensures IsRunning(r) == start && r.accumulated == 0
    ensures Value(r, now) == 0
    ensures start ==> r == New(now)
    ensures !start ==> forall later :: Value(r, later) == 0
  {
    Stopwatch(start, now, 0)
  }

  /** Copy construction: the copy has the source's state, so it reports the
      source's value at every reading. */
  function Copy(other: Stopwatch): (r: Stopwatch)
    ensures IsRunning(r) == IsRunning(other)
    ensures forall now :: Value(r, now) == Value(other, now)
  {
    Stopwatch(other.running, other.startTime, other.accumulated)
  }

  /** Copy assignment: the target's previous state is discarded entirely. */
  function Assign(lhs: Stopwatch, rhs: Stopwatch): (r: Stopwatch)
    ensures IsRunning(r) == IsRunning(rhs)
    ensures forall now :: Value(r, now) == Value(rhs, now)
  {
    Stopwatch(rhs.running, rhs.startTime, rhs.accumulated)
  }

  /** Restart: whatever the prior state, the timer becomes indistinguishable
      from one freshly constructed at `now`. */
  function Restart(t: Stopwatch, now: TimePoint): (r: Stopwatch)
    ensures r == New(now)
    ensures IsRunning(r) && Value(r, now) == 0
  {
    Stopwatch(true, now, 0)
  }

  /** Reset: whatever the prior state, the timer is stopped with nothing
      banked, so it reads zero at every later reading. The start reading is
      overwritten with `now`; it is never used to compute a value while the
      timer is stopped. */
  function Reset(t: Stopwatch, now: TimePoint): (r: Stopwatch)
    ensures !IsRunning(r) && r.accumulated == 0
    ensures forall later :: Value(r, later) == 0
  {
    Stopwatch(false, now, 0)
  }

  /** Start: a running timer is left as it is; a stopped one begins a new run
      segment at `now` and keeps what it had banked. Starting never makes the
      value jump. */
  function Start(t: Stopwatch, now: TimePoint): (r: Stopwatch)
    ensures IsRunning(r)
    ensures r.accumulated == t.accumulated
    ensures IsRunning(t) ==> r == t
    ensures Value(r, now) == Value(t, now)
    ensures forall later :: Value(r, later) == Value(t, now) + (later - now)
  {
    if !t.running then Stopwatch(true, now, t.accumulated) else t
  }

  /** Stop: a stopped timer is left as it is; a running one banks its open run
      segment. The value at `now` is kept and stays frozen afterwards. */
  function Stop(t: Stopwatch, now: TimePoint): (r: Stopwatch)
    ensures !IsRunning(r)
    ensures !IsRunning(t) ==> r == t
    ensures IsRunning(t) ==> r.accumulated == t.accumulated + (now - t.startTime)
    ensures Value(r, now) == Value(t, now)
    ensures forall later :: Value(r, later) == Value(t, now)
  {
    if t.running then Stopwatch(false, t.startTime, t.accumulated + (now - t.startTime)) else t
  }

  // The six comparison operators. Each reads the clock once and evaluates
  // both operands at that one reading. When both timers are stopped, or both
  // are running, the answer does not depend on that reading.

  function Equal(a: Stopwatch, b: Stopwatch, now: TimePoint): (r: bool)
    ensures !IsRunning(a) && !IsRunning(b) ==> (r <==> a.accumulated == b.accumulated)
    ensures IsRunning(a) && IsRunning(b) ==> (r <==> Origin(a) == Origin(b))
  {
    Value(a, now) == Value(b, now)
  }

  function NotEqual(a: Stopwatch, b: Stopwatch, now: TimePoint): (r: bool)
    ensures !IsRunning(a) && !IsRunning(b) ==> (r <==> a.accumulated != b.accumulated)
    ensures IsRunning(a) && IsRunning(b) ==> (r <==> Origin(a) != Origin(b))
  {
    Value(a, now) != Value(b, now)
  }

  function Less(a: Stopwatch, b: Stopwatch, now: TimePoint): (r: bool)
    ensures !IsRunning(a) && !IsRunning(b) ==> (r <==> a.accumulated < b.accumulated)
    ensures IsRunning(a) && IsRunning(b) ==> (r <==> Origin(a) > Origin(b))
  {
    Value(a, now) < Value(b, now)
  }

  function LessEq(a: Stopwatch, b: Stopwatch, now: TimePoint): (r: bool)
    ensures !IsRunning(a) && !IsRunning(b) ==> (r <==> a.accumulated <= b.accumulated)
    ensures IsRunning(a) && IsRunning(b) ==> (r <==> Origin(a) >= Origin(b))
  {
    Value(a, now) <= Value(b, now)
  }

  function Greater(a: Stopwatch, b: Stopwatch, now: TimePoint): (r: bool)
    ensures !IsRunning(a) && !IsRunning(b) ==> (r <==> a.accumulated > b.accumulated)
    ensures IsRunning(a) && IsRunning(b) ==> (r <==> Origin(a) < Origin(b))
  {
    Value(a, now) > Value(b, now)
  }

  function GreaterEq(a: Stopwatch, b: Stopwatch, now: TimePoint): (r: bool)
    ensures !IsRunning(a) && !IsRunning(b) ==> (r <==> a.accumulated >= b.accumulated)
    ensures IsRunning(a) && IsRunning(b) ==> (r <==> Origin(a) <= Origin(b))
  {
    Value(a, now) >= Value(b, now)
  }

  /** The value never decreases while the clock moves forward and no
      operation intervenes. */
  lemma ValueMonotone(t: Stopwatch, n1: TimePoint, n2: TimePoint)
    requires n1 <= n2
    ensures Value(t, n1) <= Value(t, n2)
  {
  }

  /** A stopped timer is frozen at its banked duration. */
  lemma ValueFrozenWhileStopped(t: Stopwatch, n1: TimePoint, n2: TimePoint)
    requires !IsRunning(t)
    ensures Value(t, n1) == Value(t, n2) == t.accumulated
  {
  }

  /** A running timer advances exactly as the clock does. */
  lemma ValueFollowsClockWhileRunning(t: Stopwatch, n1: TimePoint, n2: TimePoint)
    requires IsRunning(t)
    ensures Value(t, n2) - Value(t, n1) == n2 - n1
  {
  }

  /** Calling `start` twice is the same as calling it once: the second call
      does not restart the open run segment. */
  lemma StartIdempotent(t: Stopwatch, n1: TimePoint, n2: TimePoint)
    ensures Start(Start(t, n1), n2) == Start(t, n1)
  {
  }

  /** Calling `stop` twice is the same as calling it once: nothing is banked
      twice. */
  lemma StopIdempotent(t: Stopwatch, n1: TimePoint, n2: TimePoint)
    ensures Stop(Stop(t, n1), n2) == Stop(t, n1)
  {
  }

  /** Two start/stop cycles from a stopped timer bank both run segments and
      exclude the pause between them, at every later reading. */
  lemma AccumulateTwoSegments(t: Stopwatch, t0: TimePoint, t1: TimePoint, t2: TimePoint, t3: TimePoint)
    requires !IsRunning(t)
    ensures forall now ::
      Value(Stop(Start(Stop(Start(t, t0), t1), t2), t3), now) == t.accumulated + (t1 - t0) + (t3 - t2)
  {
  }

  /** A timer constructed stopped reads zero until started; once started it
      reads the time since the start. */
  lemma ConstructStoppedThenStart(t0: TimePoint, t1: TimePoint, now: TimePoint)
    ensures Value(NewWith(false, t0), now) == 0
    ensures Value(Start(NewWith(false, t0), t1), now) == now - t1
  {
  }

  /** Restart and reset both discard everything banked, whatever came before;
      they differ only in the running state they leave behind. */
  lemma RestartAndResetZero(t: Stopwatch, now: TimePoint, later: TimePoint)
    ensures Value(Restart(t, now), later) == later - now
    ensures Value(Reset(t, now), later) == 0
    ensures Restart(t, now) == Start(Reset(t, now), now)
  {
  }

  /** The six operators agree with one another at any single reading. */
  lemma ComparisonsConsistent(a: Stopwatch, b: Stopwatch, now: TimePoint)
    ensures NotEqual(a, b, now) <==> !Equal(a, b, now)
    ensures Greater(a, b, now) <==> Less(b, a, now)
    ensures GreaterEq(a, b, now) <==> LessEq(b, a, now)
    ensures LessEq(a, b, now) <==> Less(a, b, now) || Equal(a, b, now)
    ensures Less(a, b, now) <==> !GreaterEq(a, b, now)
    ensures Equal(a, b, now) <==> LessEq(a, b, now) && GreaterEq(a, b, now)
  {
  }

  /** At one reading, `<=` is a total preorder and `==` an equivalence. */
  lemma ComparisonsOrderTimers(a: Stopwatch, b: Stopwatch, c: Stopwatch, now: TimePoint)
    ensures Equal(a, a, now) && LessEq(a, a, now) && !Less(a, a, now)
    ensures LessEq(a, b, now) || LessEq(b, a, now)
    ensures LessEq(a, b, now) && LessEq(b, c, now) ==> LessEq(a, c, now)
    ensures Less(a, b, now) && Less(b, c, now) ==> Less(a, c, now)
    ensures Equal(a, b, now) && Equal(b, c, now) ==> Equal(a, c, now)
  {
  }

  /** A copy compares equal to its source at every reading. */
  lemma CopyComparesEqual(a: Stopwatch, now: TimePoint)
    ensures Equal(Copy(a), a, now) && Equal(a, Copy(a), now)
    ensures !Less(Copy(a), a, now) && !Greater(Copy(a), a, now)
  {
  }

  /** Of two running timers with the same banked duration, the one whose run
      segment began earlier compares greater at every reading. */
  lemma EarlierStartComparesGreater(a: Stopwatch, b: Stopwatch, now: TimePoint)
    requires IsRunning(a) && IsRunning(b) && a.accumulated == b.accumulated
    requires a.startTime < b.startTime
    ensures Greater(a, b, now) && Less(b, a, now)
    ensures GreaterEq(a, b, now) && LessEq(b, a, now) && NotEqual(a, b, now)
  {
  }

  /** A running timer and its copy give different values at two different
      readings, yet compare equal at any one shared reading. */
  lemma SeparateReadingsDisagree(a: Stopwatch, n1: TimePoint, n2: TimePoint)
    requires IsRunning(a) && n1 != n2
    ensures Value(a, n1) != Value(Copy(a), n2)
    ensures Equal(a, Copy(a), n1) && Equal(a, Copy(a), n2)
  {
  }

  /** `value` reads the clock before it reads the state, so an operation
      from another thread can fall between the two reads. A restart landing
      there yields a negative value; a start landing there on a stopped
      timer yields less than the value just before. */
  lemma RestartBetweenReadsGoesNegative(t: Stopwatch, tv: TimePoint, tr: TimePoint)
    requires tv < tr
    ensures Value(Restart(t, tr), tv) < 0
  {
  }

  lemma StartBetweenReadsGoesBack(t: Stopwatch, tv: TimePoint, ts: TimePoint)
    requires !IsRunning(t) && tv < ts
    ensures Value(Start(t, ts), tv) < Value(t, tv)
  {
  }
}
