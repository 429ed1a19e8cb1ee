/** Rows that the producer, and not the timetable, dates: whether any rollup counts them. */
module GivenDates {
  import opened Instants
  import opened Options
  import opened Zones
  import opened ServiceTime
  import opened Observations
  import opened RollupQuery
  import opened Dating
  import opened Timetable
  import opened Matcher
  import opened MatchedRows
  import opened RollupTables
  import opened Rollup
  import opened RollupRuns
  import opened RollupCounts

  /** An unscheduled row that the producer dated is read in every window it is bucketed in exactly
      when that date is in reach of the feed's timestamp. */
  lemma {:induction false} GivenDateIsReadExactly(m: Settings, sched: Option<Schedule>, u: Update, o: Observation)
    requires o in Produced(m, sched, u) && o.scheduledAt.None? && u.startDate.Given?
    ensures AlwaysReads(m.loc, o) <==> InReach(m.loc, u.startDate.d, u.headerTs)
  {
    RowIsDated(m, sched, u, o);
    assert o.serviceDate == u.startDate.d && BucketTime(o) == u.headerTs;
    DatedToBeRead(m.loc, o);
  }

  /** The row comes to an empty database, and the first rollup is the one due at the end of its hour. */
  ghost predicate StoresAndRollsUp(cfg: Config, jobs: seq<Event>, o: Observation) {
    && 2 <= |jobs| && jobs[0] == Store([o]) && jobs[1] == RollUp(Hour(o) + Hours(1) + cfg.settle)
    && PastSentinel(cfg, jobs) && SENTINEL <= BucketTime(o)
  }

  /** Such a row, stored and its hour rolled up, is counted then if its date is in reach, and
      otherwise never, however the run goes on. */
  lemma {:induction false} GivenDateIsCountedExactly(m: Settings, sched: Option<Schedule>, u: Update, o: Observation, cfg: Config, jobs: seq<Event>)
    requires o in Produced(m, sched, u) && o.scheduledAt.None? && u.startDate.Given?
    requires cfg.loc == m.loc && StoresAndRollsUp(cfg, jobs, Narrowed(o))
    ensures (exists i :: 0 <= i < |jobs| && Narrowed(o) in CountedAt(cfg, jobs, i)) <==> InReach(m.loc, u.startDate.d, u.headerTs)
  {
    RowIsDated(m, sched, u, o);
    WellDatedIs(m.loc, Narrowed(o));
    CountedExactly(cfg, jobs, Narrowed(o));
  }

  lemma {:induction false} CountedExactly(cfg: Config, jobs: seq<Event>, o: Observation)
    requires StoresAndRollsUp(cfg, jobs, o)
    ensures (exists i :: 0 <= i < |jobs| && o in CountedAt(cfg, jobs, i)) <==> WellDated(cfg.loc, o)
  {
    OwnHourIsDue(cfg, jobs, o);
    CountedIn(cfg, jobs, 1);
    if WellDated(cfg.loc, o) {
      var first := EMPTY.(rows := {o});
      CountsNewest(cfg, first, o, jobs[1].now);
      assert o in CountedAt(cfg, jobs, 1);
    }
    forall i | 0 <= i < |jobs| && o in CountedAt(cfg, jobs, i) ensures WellDated(cfg.loc, o) {
      CountedIn(cfg, jobs, i);
      WindowsDisjoint(cfg, jobs, i, 1, BucketTime(o));
    }
  }

  lemma {:induction false} OwnHourIsDue(cfg: Config, jobs: seq<Event>, o: Observation)
    requires StoresAndRollsUp(cfg, jobs, o)
    ensures Run(cfg, true, jobs[..1]) == EMPTY.(rows := {o}) && WindowAt(cfg, jobs, 1) == Some(HourOf(o))
  {
    RunAt(cfg, true, jobs, 0);
    InsertOne({}, o);
    assert jobs[..0] == [];
    assert FirstHour({o}) == Hour(o);
  }

  /** An update, unmatched, of a trip that the producer says starts four days later. */
  function EarlyWord(loc: Zone, feedId: string, ts: Instant): Update {
    Update(feedId, ts, "t", "", Given(loc.DateAt(ts) + 4), None, "", 0, false, None, "s", 0, None, None, None, None)
  }

  /** Some dates are not in reach, at whatever instant a feed gives them: a trip announced four days
      ahead is in no statistic. */
  lemma {:induction false} GivenDateCanBeMissed(m: Settings, feedId: string, ts: Instant, cfg: Config, jobs: seq<Event>)
    requires cfg.loc == m.loc && StoresAndRollsUp(cfg, jobs, Base(EarlyWord(m.loc, feedId, ts), m.loc.DateAt(ts) + 4))
    ensures exists o :: Produced(m, None, EarlyWord(m.loc, feedId, ts)) == [o] && jobs[0] == Store([o]) &&
                        forall i | 0 <= i < |jobs| :: o !in CountedAt(cfg, jobs, i)
  {
    var o := Base(EarlyWord(m.loc, feedId, ts), m.loc.DateAt(ts) + 4);
    EarlyWordIs(m, feedId, ts);
    StartsAfter(m.loc, ts);
    WellDatedIs(m.loc, o);
    CountedExactly(cfg, jobs, o);
  }

  lemma {:induction false} EarlyWordIs(m: Settings, feedId: string, ts: Instant)
    ensures var u, o := EarlyWord(m.loc, feedId, ts), Base(EarlyWord(m.loc, feedId, ts), m.loc.DateAt(ts) + 4);
            Produced(m, None, u) == [o] && Narrowed(o) == o && o.serviceDate == m.loc.DateAt(ts) + 4 && BucketTime(o) == ts
  {}

  lemma {:induction false} StartsAfter(loc: Zone, ts: Instant)
    ensures !InReach(loc, loc.DateAt(ts) + 4, ts)
  {
    CalendarDateIsNear(loc, ts);
    var owner := OwningDay(loc, TruncateHour(ts) + Hours(1));
    StartsAscend(loc, loc.DateAt(ts) + 2, loc.DateAt(ts) + 3);
    if loc.DateAt(ts) + 3 < owner {
      StartsAscend(loc, loc.DateAt(ts) + 3, owner);
    }
  }
}
