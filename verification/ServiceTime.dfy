/** GTFS service days (internal/servicetime/servicetime.go), which begin twelve elapsed hours
    before clocks show noon. */
module ServiceTime {
  import opened Instants
  import opened Zones
  import opened Sydney

  function ServiceDayStart(loc: Zone, d: Date): Instant {
    loc.AtReading(Days(d) + Hours(12)) - Hours(12)
  }

  function AtServiceOffset(loc: Zone, d: Date, seconds: int): Instant {
    ServiceDayStart(loc, d) + Seconds(seconds)
  }

  lemma {:induction false} StartIs(loc: Zone, d: Date)
    ensures ServiceDayStart(loc, d) == Days(d) - loc.Ahead(d)
  {}

  /** The start is twelve real hours before the one instant at which clocks show noon on d. */
  lemma {:induction false} StartPrecedesNoon(loc: Zone, d: Date, t: Instant)
    ensures loc.Reading(t) == Days(d) + Hours(12) <==> t == ServiceDayStart(loc, d) + Hours(12)
  {
    StartIs(loc, d);
  }

  /** How far apart the starts of two service days are, to within the hour of a clock change. */
  lemma {:induction false} StartsAscend(loc: Zone, d: Date, e: Date)
    requires d < e
    ensures Days(e - d) - Hours(1) <= ServiceDayStart(loc, e) - ServiceDayStart(loc, d) <= Days(e - d) + Hours(1)
    ensures ServiceDayStart(loc, d) < ServiceDayStart(loc, e)
  {
    StartIs(loc, d);
    StartIs(loc, e);
  }

  /** In Sydney a service day lasts 24 hours, but 23 on the Saturday before the October change
      and 25 on the Saturday before the April one: the Sunday's service starts at 23:00 or 01:00. */
  lemma {:induction false} ServiceDayLength(d: Date)
    ensures var length := ServiceDayStart(SYDNEY, d + 1) - ServiceDayStart(SYDNEY, d);
            length == Hours(
              if d + 1 == FirstSundayOfOctober(YearOf(d + 1)) then 23
              else if d + 1 == FirstSundayOfApril(YearOf(d + 1)) then 25
              else 24)
  {
    StartIs(SYDNEY, d);
    StartIs(SYDNEY, d + 1);
    DaylightChanges(d + 1);
  }

  /** The service day whose start is the last at or before t. */
  ghost function OwningDay(loc: Zone, t: Instant): (d: Date)
    ensures ServiceDayStart(loc, d) <= t < ServiceDayStart(loc, d + 1)
  {
    CalendarDateIsNear(loc, t);
    var d :| ServiceDayStart(loc, d) <= t < ServiceDayStart(loc, d + 1);
    d
  }

  /** The service day an instant belongs to is at most one off its calendar date. */
  lemma {:induction false} CalendarDateIsNear(loc: Zone, t: Instant)
    ensures var today := loc.DateAt(t);
            ServiceDayStart(loc, today - 1) <= t < ServiceDayStart(loc, today + 2)
    ensures exists d :: ServiceDayStart(loc, d) <= t < ServiceDayStart(loc, d + 1)
  {
    var today := loc.DateAt(t);
    StartIs(loc, today - 1);
    StartIs(loc, today + 2);
    var d := if ServiceDayStart(loc, today + 1) <= t then today + 1
             else if ServiceDayStart(loc, today) <= t then today
             else today - 1;
    assert ServiceDayStart(loc, d) <= t < ServiceDayStart(loc, d + 1);
  }

  lemma {:induction false} OwningDayIsUnique(loc: Zone, t: Instant, d: Date)
    requires ServiceDayStart(loc, d) <= t < ServiceDayStart(loc, d + 1)
    ensures d == OwningDay(loc, t)
  {
    var owner := OwningDay(loc, t);
    if d < owner {
      StartIs(loc, d + 1);
      StartIs(loc, owner);
    } else if owner < d {
      StartIs(loc, owner + 1);
      StartIs(loc, d);
    }
  }

  lemma {:induction false} OwningDayMonotonic(loc: Zone, t: Instant, u: Instant)
    requires t <= u
    ensures OwningDay(loc, t) <= OwningDay(loc, u)
  {
    var d, e := OwningDay(loc, t), OwningDay(loc, u);
    if e + 1 < d {
      StartsAscend(loc, e + 1, d);
    }
  }

  /** The owner of the instant and, if it began less than overlap before, also the day that precedes
      it. */
  ghost function Candidates(loc: Zone, t: Instant, overlap: Duration): (dates: seq<Date>) {
    var owner := OwningDay(loc, t);
    if t - ServiceDayStart(loc, owner) < overlap then [owner, owner - 1] else [owner]
  }

  /** Tries tomorrow, today and yesterday by calendar date. Nothing in the loop itself stops it:
      the third start always lies at or before t. */
  method CandidateServiceDates(loc: Zone, t: Instant, overlap: Duration) returns (dates: seq<Date>)
    ensures dates == Candidates(loc, t, overlap)
  {
    var today := loc.DateAt(t);
    CalendarDateIsNear(loc, t);
    var i := 1;
    while true
      invariant -1 <= i <= 1
      invariant t < ServiceDayStart(loc, today + i + 1)
      decreases i
    {
      var owner := today + i;
      var start := ServiceDayStart(loc, owner);
      if start > t {
        i := i - 1;
        continue;
      }
      OwningDayIsUnique(loc, t, owner);
      if t - start < overlap {
        return [owner, owner - 1];
      }
      return [owner];
    }
  }
}
