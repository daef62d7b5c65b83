/** The selectable time intervals and the day counter derived from them. */
module TimeStep {

  /** A time interval: code, label, duration in whole hours, and volatility factor. */
  datatype TimeInterval = TimeInterval(name: string, display: string, hours: nat, factor: real)

  /** The interval table offered to the user. */
  const TimeIntervals: seq<TimeInterval> := [
    TimeInterval("1H", "1 Hour", 1, 0.2),
    TimeInterval("4H", "4 Hours", 4, 0.4),
    TimeInterval("1D", "1 Day", 24, 1.0),
    TimeInterval("1W", "1 Week", 7 * 24, 2.5),
    TimeInterval("1M", "1 Month", 30 * 24, 5.0)
  ]

  /**
   * Days the counter advances for an interval of `hours`: the whole days
   * it spans (the source truncates hours / 24), but at least one.
   */
  function DaysElapsed(hours: nat): (r: nat)
    ensures r >= 1
    ensures hours >= 24 ==> r * 24 <= hours < (r + 1) * 24
    ensures hours < 24 ==> r == 1
  {
    var days := hours / 24;
    if days < 1 then 1 else days
  }

  /** Longer intervals never advance the counter by fewer days. */
  lemma DaysElapsedMonotonic(h1: nat, h2: nat)
    requires h1 <= h2
    ensures DaysElapsed(h1) <= DaysElapsed(h2)
  {
    if h2 >= 24 {
      assert DaysElapsed(h1) * 24 <= h2;
    }
  }

  /** The table advances the counter by 1, 1, 1, 7 and 30 days, and every factor is positive. */
  lemma IntervalTableDays()
    ensures |TimeIntervals| == 5
    ensures DaysElapsed(TimeIntervals[0].hours) == 1
    ensures DaysElapsed(TimeIntervals[1].hours) == 1
    ensures DaysElapsed(TimeIntervals[2].hours) == 1
    ensures DaysElapsed(TimeIntervals[3].hours) == 7
    ensures DaysElapsed(TimeIntervals[4].hours) == 30
    ensures forall i :: 0 <= i < |TimeIntervals| ==> TimeIntervals[i].factor > 0.0
  {
  }
}
