/** Zones like Australia/Sydney: ten hours ahead of UTC, or eleven, changing at 02:00 standard
    time. Which days daylight time holds on is a parameter; module Sydney gives the actual rule. */
module Zones {
  import opened Instants

  /** daylight(d) says whether clocks show daylight time from 02:00 standard time on d until
      02:00 standard time on d + 1. */
  datatype Zone = Zone(daylight: Date -> bool) {

    function Ahead(d: Date): (ahead: Duration)
      ensures ahead == Hours(10) || ahead == Hours(11)
    {
      Hours(if daylight(d) then 11 else 10)
    }

    /** How far ahead of UTC the zone is at t: 02:00 standard time is 16:00 UTC the day before. */
    function OffsetAt(t: Instant): Duration { Ahead(UtcDay(t + Hours(8))) }

    /** What a clock in the zone shows at t, as the instant at which a UTC clock shows the same. */
    function Reading(t: Instant): Instant { t + OffsetAt(t) }

    function DateAt(t: Instant): Date { UtcDay(Reading(t)) }

    /** time.Date: the instant at which a clock in the zone shows a reading. It looks the offset
        up at the reading as if that were UTC, and again at the instant this first guess gives. */
    function AtReading(reading: Instant): Instant {
      reading - OffsetAt(reading - OffsetAt(reading))
    }

    /** The start of a calendar day. */
    function Midnight(d: Date): Instant { AtReading(Days(d)) }

    function MidnightBefore(t: Instant): Instant { Midnight(DateAt(t)) }

    /** A calendar day starts at its midnight: a change at two in the morning never moves an
        instant to another date, whichever way the clock goes. */
    lemma {:induction false} MidnightStartsDate(t: Instant, d: Date)
      ensures Midnight(d) <= t <==> d <= DateAt(t)
    {
      assert Midnight(d) == Days(d) - Ahead(d - 1);
    }

    lemma {:induction false} MidnightBeforeMonotonic(t: Instant, u: Instant)
      requires t <= u
      ensures MidnightBefore(t) <= MidnightBefore(u)
      ensures MidnightBefore(t) == MidnightBefore(u) <==> DateAt(t) == DateAt(u)
    {
      forall d, x | d in {DateAt(t), DateAt(u)} && x in {t, u, MidnightBefore(u), MidnightBefore(t)}
        ensures Midnight(d) <= x <==> d <= DateAt(x)
      {
        MidnightStartsDate(x, d);
      }
    }
  }
}
