/** The rollup's queries (internal/rollup/rollup.go) by their relational meaning. */
module RollupQuery {
  import opened Instants
  import opened Zones
  import opened Sydney
  import opened ServiceTime
  import opened Options
  import opened Observations

  // Which visits a run counts.

  /** The hours a run rolls up: [from, to). */
  datatype Window = Window(from: Instant, to: Instant) {
    predicate Has(t: Instant) { from <= t < to }
  }

  /** coalesce(scheduled_at, feed_ts). */
  function BucketTime(o: Observation): Instant { o.scheduledAt.GetOr(o.feedTs) }

  /** The service dates a query reads, both included. */
  datatype DateRange = DateRange(oldest: Date, newest: Date) {
    predicate Has(d: Date) { oldest <= d <= newest }
  }

  /** The inner WHERE clause: the rows that are read at all. */
  predicate Reads(dates: DateRange, w: Window, o: Observation) {
    && dates.Has(o.serviceDate)
    && match o.scheduledAt
       case Some(at) => w.Has(at)
       case None => w.from <= o.feedTs
  }

  function RowsRead(dates: DateRange, w: Window, rows: set<Observation>): set<Observation> {
    set o | o in rows && Reads(dates, w, o)
  }

  /** SELECT DISTINCT ON (visit) ... ORDER BY visit, feed_ts DESC. */
  function LastWords(rows: set<Observation>): set<Observation> {
    set o | o in rows && IsLastWord(rows, o)
  }

  function Within(w: Window, rows: set<Observation>): set<Observation> {
    set o | o in rows && w.Has(BucketTime(o))
  }

  /** The temporary table final: last words among the rows read, bucketed in the window. */
  function Finals(dates: DateRange, w: Window, rows: set<Observation>): set<Observation> {
    Within(w, LastWords(RowsRead(dates, w, rows)))
  }

  // The service-date bounds.

  /** The service dates the rollup reads for a window. */
  ghost function DatesFor(loc: Zone, w: Window): DateRange {
    DateRange(Candidates(loc, w.from, 0)[0] - 2, Candidates(loc, w.to, 0)[0] + 1)
  }

  /** Whether a row is dated as the matcher dates rows by itself: a scheduled time lies at most
      maxSeconds after its service day's start, and an unscheduled row is dated by
      CandidateServiceDates at its feed timestamp. */
  ghost predicate Dated(loc: Zone, maxSeconds: int, o: Observation) {
    match o.scheduledAt
    case Some(at) => 0 <= at - ServiceDayStart(loc, o.serviceDate) <= Seconds(maxSeconds)
    case None => OwningDay(loc, o.feedTs) - 1 <= o.serviceDate <= OwningDay(loc, o.feedTs)
  }

  /** The hour a row is bucketed in, as a window. */
  function HourOf(o: Observation): (w: Window)
    ensures w.Has(BucketTime(o)) && IsHours(w)
  {
    Window(TruncateHour(BucketTime(o)), TruncateHour(BucketTime(o)) + Hours(1))
  }

  /** The windows of the rollup are whole hours. */
  predicate IsHours(w: Window) { HourAligned(w.from) && HourAligned(w.to) }

  /** The row's service date lies within the bounds for the row's own hour. */
  ghost predicate WellDated(loc: Zone, o: Observation) { DatesFor(loc, HourOf(o)).Has(o.serviceDate) }

  /** Windows with an instant have all of its hour. */
  lemma {:induction false} HourWithin(w: Window, t: Instant)
    requires IsHours(w) && w.Has(t)
    ensures w.from <= TruncateHour(t) && TruncateHour(t) + Hours(1) <= w.to
  {}

  lemma {:induction false} DatesWiden(loc: Zone, w: Window, v: Window, d: Date)
    requires w.from <= v.from && v.to <= w.to && DatesFor(loc, v).Has(d)
    ensures DatesFor(loc, w).Has(d)
  {
    OwningDayMonotonic(loc, w.from, v.from);
    OwningDayMonotonic(loc, v.to, w.to);
  }

  /** The date is no earlier than two service days before the one the instant's hour begins in, and
      no later than one after the one its hour ends in. */
  ghost predicate InReach(loc: Zone, d: Date, t: Instant) {
    var hour := TruncateHour(t);
    OwningDay(loc, hour) - 2 <= d <= OwningDay(loc, hour + Hours(1)) + 1
  }

  /** Every window that has a row reads its service date exactly when the date is in reach of the
      time the row is bucketed by. */
  lemma {:induction false} DatedToBeRead(loc: Zone, o: Observation)
    ensures AlwaysReads(loc, o) <==> InReach(loc, o.serviceDate, BucketTime(o))
  {
    AlwaysReadsExactly(loc, o);
    WellDatedIs(loc, o);
  }

  lemma {:induction false} WellDatedIs(loc: Zone, o: Observation)
    ensures WellDated(loc, o) <==> InReach(loc, o.serviceDate, BucketTime(o))
  {}

  lemma {:induction false} AlwaysReadsExactly(loc: Zone, o: Observation)
    ensures AlwaysReads(loc, o) <==> WellDated(loc, o)
  {
    var hour := HourOf(o);
    if WellDated(loc, o) {
      forall w: Window | IsHours(w) && w.Has(BucketTime(o)) ensures DatesFor(loc, w).Has(o.serviceDate) {
        EveryWindowReads(loc, w, o);
      }
    }
  }

  ghost predicate AlwaysReads(loc: Zone, o: Observation) {
    forall w: Window | IsHours(w) && w.Has(BucketTime(o)) :: DatesFor(loc, w).Has(o.serviceDate)
  }

  lemma {:induction false} EveryWindowReads(loc: Zone, w: Window, o: Observation)
    requires WellDated(loc, o) && IsHours(w) && w.Has(BucketTime(o))
    ensures DatesFor(loc, w).Has(o.serviceDate)
  {
    HourWithin(w, BucketTime(o));
    DatesWiden(loc, w, HourOf(o), o.serviceDate);
  }

  const SEVENTY_ONE_HOURS_S := 255_600

  /** The bounds exclude no row that the matcher dated and that is bucketed in the window, in any
      zone, as long as no stop time reaches 71 hours; the configured default is 48. */
  lemma {:induction false} DatesReadSuffice(loc: Zone, w: Window, maxSeconds: int, o: Observation)
    requires maxSeconds < SEVENTY_ONE_HOURS_S
    requires Dated(loc, maxSeconds, o) && w.Has(BucketTime(o))
    ensures DatesFor(loc, w).Has(o.serviceDate)
  {
    var oldest, newest := OwningDay(loc, w.from), OwningDay(loc, w.to);
    if o.scheduledAt.Some? {
      if o.serviceDate < oldest - 2 {
        StartsAscend(loc, o.serviceDate, oldest);
      }
      if newest + 1 < o.serviceDate {
        StartsAscend(loc, newest + 1, o.serviceDate);
      }
    } else {
      OwningDayMonotonic(loc, w.from, o.feedTs);
      OwningDayMonotonic(loc, o.feedTs, w.to);
    }
  }

  /** What the matcher dates is always read. */
  ghost predicate DatesAlwaysSuffice(loc: Zone, maxSeconds: int) {
    forall o: Observation | Dated(loc, maxSeconds, o) :: WellDated(loc, o)
  }

  /** In Sydney 71 hours is exactly the limit. */
  lemma {:induction false} DatesReadExactly(maxSeconds: int)
    ensures DatesAlwaysSuffice(SYDNEY, maxSeconds) <==> maxSeconds < SEVENTY_ONE_HOURS_S
  {
    if maxSeconds < SEVENTY_ONE_HOURS_S {
      forall o: Observation | Dated(SYDNEY, maxSeconds, o) ensures WellDated(SYDNEY, o) {
        DatesReadSuffice(SYDNEY, HourOf(o), maxSeconds, o);
      }
    } else {
      DaylightIn2026(OCTOBER_4_2026);
      DaylightIn2026(OCTOBER_4_2026 + 1);
      DaylightIn2026(OCTOBER_4_2026 - 2);
      DayThreeBack(SYDNEY, OCTOBER_4_2026 + 1, maxSeconds);
    }
  }

  /** A stop time of 71:00:00 three service days before one that clocks reach an hour early is
      the start of that one, whose window does not read so far back. */
  lemma {:induction false} DayThreeBack(loc: Zone, d: Date, maxSeconds: int)
    requires !loc.daylight(d - 3) && loc.daylight(d)
    requires SEVENTY_ONE_HOURS_S <= maxSeconds
    ensures !DatesAlwaysSuffice(loc, maxSeconds)
  {
    ThreeDaysLater(loc, d);
    var o := RowFor(d - 3, ServiceDayStart(loc, d));
    assert Dated(loc, maxSeconds, o) && !WellDated(loc, o);
  }

  function RowFor(d: Date, at: Instant): (o: Observation)
    ensures o.serviceDate == d && o.scheduledAt == Some(at) && BucketTime(o) == at
  {
    Observation(d, "", "", "", at, None, "", None, None, None, None, 0, 0, true, "", Some(at))
  }

  lemma {:induction false} ThreeDaysLater(loc: Zone, d: Date)
    requires !loc.daylight(d - 3) && loc.daylight(d)
    ensures ServiceDayStart(loc, d) - ServiceDayStart(loc, d - 3) == Seconds(SEVENTY_ONE_HOURS_S)
    ensures TruncateHour(ServiceDayStart(loc, d)) == ServiceDayStart(loc, d)
    ensures forall to :: !DatesFor(loc, Window(ServiceDayStart(loc, d), to)).Has(d - 3)
  {
    StartIs(loc, d - 3);
    StartIs(loc, d);
    WholeHours(d, if loc.daylight(d) then 11 else 10);
    StartsAscend(loc, d, d + 1);
    OwningDayIsUnique(loc, ServiceDayStart(loc, d), d);
  }

  lemma {:induction false} WholeHours(d: Date, hours: int)
    ensures HourAligned(Days(d) - Hours(hours))
  {
    assert Days(d) - Hours(hours) == 3_600_000_000_000 * (24 * d - hours);
  }

  // Exactness, visit by visit.

  /** A later row of the visit that every window with the first row reads too. */
  predicate Overtakes(o: Observation, p: Observation) {
    && p.Key() == o.Key() && o.feedTs < p.feedTs
    && match p.scheduledAt
       case Some(at) => TruncateHour(at) == TruncateHour(BucketTime(o))
       case None => TruncateHour(BucketTime(o)) <= p.feedTs
  }

  lemma {:induction false} OvertakerIsRead(loc: Zone, w: Window, o: Observation, p: Observation)
    requires IsHours(w) && w.Has(BucketTime(o)) && DatesFor(loc, w).Has(o.serviceDate) && Overtakes(o, p)
    ensures Reads(DatesFor(loc, w), w, p) && w.from <= BucketTime(p)
  {
    HourWithin(w, BucketTime(o));
  }

  /** Every row of the visit but the last is overtaken. */
  ghost predicate EachOvertaken(rows: set<Observation>, k: Key) {
    forall o | o in rows && o.Key() == k && !IsLastWord(rows, o) :: exists p :: p in rows && Overtakes(o, p)
  }

  ghost predicate VisitIsWellDated(loc: Zone, rows: set<Observation>, k: Key) {
    forall o | o in rows && o.Key() == k :: WellDated(loc, o)
  }

  /** In every window the query finds of the visit just the last of all its rows, bucketed. */
  ghost predicate QueriedExactly(loc: Zone, rows: set<Observation>, k: Key) {
    forall w: Window, o: Observation | IsHours(w) && o.Key() == k ::
      o in Finals(DatesFor(loc, w), w, rows) <==> o in Within(w, LastWords(rows))
  }

  /** Reading only the rows that can matter is exact for a visit, whatever the others are like,
      exactly when each of its rows but the last is overtaken. */
  lemma {:induction false} PrunedQueryIsExactly(loc: Zone, rows: set<Observation>, k: Key)
    requires VisitIsWellDated(loc, rows, k)
    ensures QueriedExactly(loc, rows, k) <==> EachOvertaken(rows, k)
  {
    if EachOvertaken(rows, k) {
      forall w: Window, o: Observation | IsHours(w) && o.Key() == k
        ensures o in Finals(DatesFor(loc, w), w, rows) <==> o in Within(w, LastWords(rows))
      {
        ForgottenRowsDoNotMatter(loc, w, rows, rows, o);
      }
    } else {
      var o :| o in rows && o.Key() == k && !IsLastWord(rows, o) && forall p | p in rows :: !Overtakes(o, p);
      CountedThoughNotLast(loc, rows, o);
    }
  }

  lemma {:induction false} CountedThoughNotLast(loc: Zone, rows: set<Observation>, o: Observation)
    requires o in rows && WellDated(loc, o) && !IsLastWord(rows, o) && forall p | p in rows :: !Overtakes(o, p)
    ensures !QueriedExactly(loc, rows, o.Key())
  {
    var w := HourOf(o);
    LastOfThoseRead(loc, rows, o);
    assert o in Finals(DatesFor(loc, w), w, rows);
    assert o !in Within(w, LastWords(rows));
  }

  lemma {:induction false} LastOfThoseRead(loc: Zone, rows: set<Observation>, o: Observation)
    requires o in rows && WellDated(loc, o) && forall p | p in rows :: !Overtakes(o, p)
    ensures IsLastWord(RowsRead(DatesFor(loc, HourOf(o)), HourOf(o), rows), o)
  {
    forall p | p in rows && p.Key() == o.Key() && Reads(DatesFor(loc, HourOf(o)), HourOf(o), p) ensures p.feedTs <= o.feedTs {
      assert !Overtakes(o, p);
      HourOfTime(o, p);
    }
  }

  lemma {:induction false} HourOfTime(o: Observation, p: Observation)
    ensures p.scheduledAt.Some? ==> (HourOf(o).Has(p.scheduledAt.value) <==> TruncateHour(p.scheduledAt.value) == TruncateHour(BucketTime(o)))
  {}

  /** The same when rows of the visit bucketed before the window have been dropped. */
  lemma {:induction false} ForgottenRowsDoNotMatter(loc: Zone, w: Window, kept: set<Observation>, stored: set<Observation>, o: Observation)
    requires IsHours(w) && VisitIsWellDated(loc, stored, o.Key()) && EachOvertaken(stored, o.Key())
    requires forall p: Observation | p.Key() == o.Key() ::
               (p in kept ==> p in stored) && (p in stored && p !in kept ==> BucketTime(p) < w.from)
    ensures o in Finals(DatesFor(loc, w), w, kept) <==> o in Within(w, LastWords(stored))
  {
    var dates := DatesFor(loc, w);
    var read := RowsRead(dates, w, kept);
    if o in stored && w.Has(BucketTime(o)) {
      EveryWindowReads(loc, w, o);
      assert o in read;
      if !IsLastWord(stored, o) {
        var p :| p in stored && Overtakes(o, p);
        OvertakerIsRead(loc, w, o, p);
        assert p in read;
      }
    }
  }

  /** All rows of a visit agree on its scheduled time: they share one, or none has one. */
  ghost predicate Agrees(rows: set<Observation>, k: Key) {
    forall o, p | o in rows && p in rows && o.Key() == k && p.Key() == k :: o.scheduledAt == p.scheduledAt
  }

  /** All rows of a visit are bucketed in one hour. */
  ghost predicate KeepsToOneHour(rows: set<Observation>, k: Key) {
    forall o, p | o in rows && p in rows && o.Key() == k && p.Key() == k :: TruncateHour(BucketTime(o)) == TruncateHour(BucketTime(p))
  }

  /** Agreeing on a scheduled time, or keeping to one hour, is enough. */
  lemma {:induction false} AgreeingIsEnough(rows: set<Observation>, k: Key)
    ensures Agrees(rows, k) ==> EachOvertaken(rows, k)
    ensures KeepsToOneHour(rows, k) ==> EachOvertaken(rows, k)
  {
    if Agrees(rows, k) || KeepsToOneHour(rows, k) {
      forall o | o in rows && o.Key() == k && !IsLastWord(rows, o) ensures exists p :: p in rows && Overtakes(o, p) {
        var p :| p in rows && p.Key() == o.Key() && o.feedTs < p.feedTs;
        assert Overtakes(o, p);
      }
    }
  }

  /** When all visits are like that the query's answer is the last words, bucketed. */
  lemma {:induction false} PrunedQueryIsExact(loc: Zone, w: Window, rows: set<Observation>)
    requires IsHours(w) && forall o | o in rows :: VisitIsWellDated(loc, rows, o.Key()) && EachOvertaken(rows, o.Key())
    ensures Finals(DatesFor(loc, w), w, rows) == Within(w, LastWords(rows))
  {
    forall o | o in rows ensures o in Finals(DatesFor(loc, w), w, rows) <==> o in Within(w, LastWords(rows)) {
      ForgottenRowsDoNotMatter(loc, w, rows, rows, o);
    }
  }
}
