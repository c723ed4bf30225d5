/**
 * KeQueryPerformanceCounter: the call returns the current counter value and
 * writes the counter frequency through its optional argument. The driver
 * passes `&LastReportTime` as that argument, so as written the field receives
 * the frequency; the evidently intended value is the counter.
 */
module Clock {

  /** What one call of KeQueryPerformanceCounter gives: its return value and what it writes through its argument. */
  datatype CounterQuery = CounterQuery(counter: int, frequency: nat)

  /** The value the source stores in LastReportTime: the frequency written through the argument. */
  function ReportTimeAsWritten(q: CounterQuery): (t: int) {
    q.frequency
  }

  /** The value LastReportTime is meant to hold: the counter the call returns. */
  function ReportTime(q: CounterQuery): (t: int) {
    q.counter
  }

  /**
   * As written the stored time never moves: the frequency is fixed at boot,
   * so two queries at different instants store the same value.
   */
  lemma ReportTimeAsWrittenIsStale(earlier: CounterQuery, later: CounterQuery)
    requires earlier.frequency == later.frequency && earlier.counter < later.counter
    ensures ReportTimeAsWritten(earlier) == ReportTimeAsWritten(later)
  {
  }

  /** Intended: a later query stores a later time. */
  lemma ReportTimeAdvances(earlier: CounterQuery, later: CounterQuery)
    requires earlier.counter < later.counter
    ensures ReportTime(earlier) < ReportTime(later)
  {
  }
}
