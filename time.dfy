/**
 * Wall-clock values. The service reads the clock (`DateTime.Now`); the model
 * takes the current time as a parameter instead. Both .NET types count
 * ticks of 100 nanoseconds.
 */
module Time {

  const TicksPerMinute: int := 600_000_000

  datatype DateTime = DateTime(ticks: int)

  datatype TimeSpan = TimeSpan(ticks: int) {

    /** The length of the span in minutes, as an exact real number. */
    function TotalMinutes(): (m: real)
      ensures m * TicksPerMinute as real == ticks as real
      ensures m > 0.0 <==> ticks > 0
    {
      ticks as real / TicksPerMinute as real
    }
  }

  const Zero: TimeSpan := TimeSpan(0)
}
