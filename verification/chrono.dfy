/**
  Integer stand-ins for the steady clock's types. Every timer operation that
  reads the clock takes the reading as an explicit `now` argument, counted in
  ticks of the clock's native period; a duration is a signed tick count.
 */
module Chrono {

  /** A reading of the steady clock (`time_point`), in ticks. */
  type TimePoint = int

  /** A signed difference of two readings (`duration`), in ticks. */
  type Duration = int
}
