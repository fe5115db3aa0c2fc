/**
 A monitored service and its adaptive schedule. Times are seconds on a
 common real-valued clock; a `datetime` difference's `total_seconds()` is
 plain subtraction here.
 */
module Services {
  import opened Wrappers
  import opened Builtins

  /** Seconds on the agent's clock (the value `datetime.utcnow()` would give). */
  type Time = real

  /** A service: fixed identity and nominal period, plus the measured lag and
      the stamp of the last check, which only the monitor rewrites. */
  datatype Service = Service(
    period: real,
    name: string,
    cwd: string,
    command: string,
    lag: real,
    lastTested: Option<Time>)

  /** A freshly constructed service: no lag measured yet, never tested. */
  function NewService(period: real, name: string, cwd: string, command: string): (s: Service)
    ensures s.period == period && s.name == name && s.cwd == cwd && s.command == command
    ensures s.lag == 0.0 && s.lastTested.None?
  {
    Service(period, name, cwd, command, 0.0, None)
  }

  /** The effective period: 20% of the nominal period and three times the lag
      are held back, and the result is clamped at zero. */
  function RealPeriod(s: Service): (r: real)
    ensures r >= 0.0
    ensures s.period * 0.8 <= s.lag * 3.0 ==> r == 0.0
  {
    Max(s.period * 0.8 - s.lag * 3.0, 0.0)
  }

  /** Seconds left before the service is due at `now`; zero when it was never
      tested or is overdue. */
  function NextUpdateIn(s: Service, now: Time): (r: real)
    ensures r >= 0.0
    ensures s.lastTested.None? ==> r == 0.0
    ensures s.lastTested.Some? && RealPeriod(s) - (now - s.lastTested.value) > 0.0 ==>
      r == RealPeriod(s) - (now - s.lastTested.value)
  {
    match s.lastTested
    case None => 0.0
    case Some(tested) => Max(RealPeriod(s) - (now - tested), 0.0)
  }

  /** With a non-negative period and lag, the effective period lies between
      zero and 80% of the nominal one, and equals `0.8*period - 3*lag` while
      that is positive. */
  lemma RealPeriodBounds(s: Service)
    requires s.period >= 0.0 && s.lag >= 0.0
    ensures 0.0 <= RealPeriod(s) <= s.period * 0.8
    ensures s.period * 0.8 > s.lag * 3.0 ==> RealPeriod(s) == s.period * 0.8 - s.lag * 3.0
  {
  }

  /** A larger lag never lengthens the effective period. */
  lemma RealPeriodAntitone(s: Service, lag1: real, lag2: real)
    requires lag1 <= lag2
    ensures RealPeriod(s.(lag := lag2)) <= RealPeriod(s.(lag := lag1))
  {
  }

  /** A service is due (zero delay) exactly when it was never tested or its
      effective period has elapsed since the last test. */
  lemma DueIff(s: Service, now: Time)
    ensures NextUpdateIn(s, now) == 0.0 <==>
      s.lastTested.None? || now - s.lastTested.value >= RealPeriod(s)
  {
  }

  /** The delay never grows as the clock advances. */
  lemma NextUpdateInAntitone(s: Service, now1: Time, now2: Time)
    requires now1 <= now2
    ensures NextUpdateIn(s, now2) <= NextUpdateIn(s, now1)
  {
  }

  /** Sleeping for the reported delay (or longer) makes the service due. */
  lemma NextUpdateInElapses(s: Service, now: Time, later: Time)
    requires later >= now + NextUpdateIn(s, now)
    ensures NextUpdateIn(s, later) == 0.0
  {
  }

  /** Right after being stamped, the delay is the whole effective period. */
  lemma NextUpdateInAtStamp(s: Service, stamp: Time)
    ensures NextUpdateIn(s.(lastTested := Some(stamp)), stamp) == RealPeriod(s)
  {
  }

  /** A new service is due at any time. */
  lemma NewServiceIsDue(period: real, name: string, cwd: string, command: string, now: Time)
    ensures NextUpdateIn(NewService(period, name, cwd, command), now) == 0.0
  {
  }
}
