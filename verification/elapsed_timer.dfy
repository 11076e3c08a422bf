/**
  The elapsed timer: always running, it holds only the reading at which it
  was constructed or last restarted. Operations that read the clock take the
  reading as `now`.
 */
module ElapsedTimer {
  import opened Chrono

  datatype Elapsed = Elapsed(startTime: TimePoint)

  /** Time since construction or the last restart, at the reading `now`:
      never negative under a steady clock, and zero exactly at the start. */
  function Value(t: Elapsed, now: TimePoint): (r: Duration)
    ensures t.startTime <= now ==> r >= 0
    ensures r == 0 <==> now == t.startTime
  {
    now - t.startTime
  }

  /** Construction at reading `now`: reads zero then and follows the clock. */
  function New(now: TimePoint): (r: Elapsed)
    ensures Value(r, now) == 0
    ensures forall later :: Value(r, later) == later - now
  {
    Elapsed(now)
  }

  /** Copy construction: the copy reports the source's value at every reading. */
  function Copy(other: Elapsed): (r: Elapsed)
    ensures forall now :: Value(r, now) == Value(other, now)
  {
    Elapsed(other.startTime)
  }

  /** Copy assignment: the target's previous start is discarded. */
  function Assign(lhs: Elapsed, rhs: Elapsed): (r: Elapsed)
    ensures forall now :: Value(r, now) == Value(rhs, now)
  {
    Elapsed(rhs.startTime)
  }

  /** The elapsed timer cannot be stopped. */
  function IsRunning(t: Elapsed): (r: bool)
    ensures r
  {
    true
  }

  /** Restart: the timer becomes indistinguishable from one freshly
      constructed at `now`, whatever it read before. */
  function Restart(t: Elapsed, now: TimePoint): (r: Elapsed)
    ensures r == New(now)
    ensures Value(r, now) == 0
  {
    Elapsed(now)
  }

  // The six comparison operators. Each reads the clock once and evaluates
  // both operands at that one reading, so the answer depends only on the two
  // start readings: a timer started later is the lesser one.

  function Equal(a: Elapsed, b: Elapsed, now: TimePoint): (r: bool)
    ensures r <==> a.startTime == b.startTime
  {
    Value(a, now) == Value(b, now)
  }

  function NotEqual(a: Elapsed, b: Elapsed, now: TimePoint): (r: bool)
    ensures r <==> a.startTime != b.startTime
  {
    Value(a, now) != Value(b, now)
  }

  function Less(a: Elapsed, b: Elapsed, now: TimePoint): (r: bool)
    ensures r <==> a.startTime > b.startTime
  {
    Value(a, now) < Value(b, now)
  }

  function LessEq(a: Elapsed, b: Elapsed, now: TimePoint): (r: bool)
    ensures r <==> a.startTime >= b.startTime
  {
    Value(a, now) <= Value(b, now)
  }

  function Greater(a: Elapsed, b: Elapsed, now: TimePoint): (r: bool)
    ensures r <==> a.startTime < b.startTime
  {
    Value(a, now) > Value(b, now)
  }

  function GreaterEq(a: Elapsed, b: Elapsed, now: TimePoint): (r: bool)
    ensures r <==> a.startTime <= b.startTime
  {
    Value(a, now) >= Value(b, now)
  }

  /** The value never decreases while the clock moves forward. */
  lemma ValueMonotone(t: Elapsed, n1: TimePoint, n2: TimePoint)
    requires n1 <= n2
    ensures Value(t, n1) <= Value(t, n2)
    ensures Value(t, n2) - Value(t, n1) == n2 - n1
  {
  }

  /** No operation stops the timer. */
  lemma AlwaysRunning(t: Elapsed, other: Elapsed, now: TimePoint)
    ensures IsRunning(New(now)) && IsRunning(Copy(t)) && IsRunning(Assign(t, other))
    ensures IsRunning(Restart(t, now))
  {
  }

  /** The six operators agree with one another at any single reading. */
  lemma ComparisonsConsistent(a: Elapsed, b: Elapsed, now: TimePoint)
    ensures NotEqual(a, b, now) <==> !Equal(a, b, now)
    ensures Greater(a, b, now) <==> Less(b, a, now)
    ensures GreaterEq(a, b, now) <==> LessEq(b, a, now)
    ensures LessEq(a, b, now) <==> Less(a, b, now) || Equal(a, b, now)
    ensures Equal(a, a, now) && LessEq(a, a, now) && GreaterEq(a, a, now)
    ensures !Less(a, a, now) && !Greater(a, a, now)
  {
  }

  /** A copy, or a copy-assigned timer, compares equal to its source at every
      reading until one of the two is restarted. */
  lemma CopyComparesEqual(a: Elapsed, lhs: Elapsed, now: TimePoint)
    ensures Equal(Copy(a), a, now) && Equal(a, Copy(a), now)
    ensures Equal(Assign(lhs, a), a, now)
  {
  }

  /** A timer constructed later compares less than an earlier one, at every
      reading. */
  lemma LaterConstructedComparesLess(n1: TimePoint, n2: TimePoint, now: TimePoint)
    requires n1 < n2
    ensures Less(New(n2), New(n1), now) && Greater(New(n1), New(n2), now)
    ensures NotEqual(New(n1), New(n2), now)
  {
  }
}
