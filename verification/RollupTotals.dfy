/** The hourly tables a whole run leaves: which rollup each row comes from, and their totals. */
module RollupTotals {
  import opened Instants
  import opened Observations
  import opened RollupQuery
  import opened RollupTables
  import opened Rollup
  import opened RollupRuns
  import RollupCounts

  /** Every row added for a set of finals is for an hour of theirs. */
  lemma {:induction false} RowsAreForTheirHours(t: Thresholds, finals: set<Observation>, w: Window)
    requires forall o | o in finals :: w.Has(Hour(o))
    ensures forall k | k in StopRows(t, finals) :: w.Has(k.bucketStart)
    ensures forall k | k in AllRoutesRows(t, finals) :: w.Has(k.bucketStart)
    ensures forall k | k in RouteRows(t, finals) :: w.Has(k.bucketStart)
  {}

  /** The tables hold hours the watermark has passed, and nothing before the first rollup. */
  ghost predicate Settled(s: State) {
    && (forall k | k in s.stops :: k.bucketStart < s.watermark != SENTINEL)
    && (forall k | k in s.routes :: k.bucketStart < s.watermark != SENTINEL)
  }

  /** A rollup now would end past the sentinel. */
  ghost predicate EndsPastSentinel(cfg: Config, s: State, now: Instant) {
    && SENTINEL <= s.watermark && HourAligned(s.watermark)
    && (Due(cfg, s, now).Some? ==> SENTINEL < Due(cfg, s, now).value.to)
  }

  lemma {:induction false} CountedHours(cfg: Config, s: State, now: Instant)
    requires HourAligned(s.watermark)
    ensures forall o | o in Counted(cfg, s, now) :: Due(cfg, s, now).Some? && Due(cfg, s, now).value.Has(Hour(o))
  {
    DueIs(cfg, s, now);
    forall o | o in Counted(cfg, s, now) ensures Due(cfg, s, now).value.Has(Hour(o)) {
      RollupCounts.HourInWindow(Due(cfg, s, now).value, BucketTime(o));
    }
  }

  /** A rollup adds rows to the tables and replaces none. */
  lemma {:induction false} RollupOnlyAdds(cfg: Config, s: State, now: Instant)
    requires EndsPastSentinel(cfg, s, now) && Settled(s)
    ensures var finals, s' := Counted(cfg, s, now), RolledUp(cfg, s, now);
            && Settled(s')
            && s'.routes == s.routes + RouteRows(cfg.onTime, finals)
            && s.routes.Keys !! RouteRows(cfg.onTime, finals).Keys
            && s'.stops == s.stops + StopRows(cfg.onTime, finals) + AllRoutesRows(cfg.onTime, finals)
            && s.stops.Keys !! StopRows(cfg.onTime, finals).Keys
            && s.stops.Keys !! AllRoutesRows(cfg.onTime, finals).Keys
  {
    DueIs(cfg, s, now);
    CountedHours(cfg, s, now);
    var finals := Counted(cfg, s, now);
    match Due(cfg, s, now)
    case None =>
      assert finals == {};
    case Some(w) =>
      RowsAreForTheirHours(cfg.onTime, finals, w);
  }

  /** How many visits the rollups of a run counted, all together. */
  ghost function TotalCounted(cfg: Config, run: seq<Event>): nat {
    if run == [] then 0
    else TotalCounted(cfg, run[..|run| - 1]) + |RollupCounts.CountedAt(cfg, run, |run| - 1)|
  }

  /** No route is called what the rows for all routes are. */
  ghost predicate NoRouteNamedAll(catalogue: set<Observation>) {
    forall o | o in catalogue :: o.routeId != ALL_ROUTES
  }

  /** Nothing is lost between the rows and the tables: a route's rows add up to the visits
      counted, and a stop's count each of them once by route and once for all routes. */
  lemma {:induction false} TablesCountEveryVisit(cfg: Config, catalogue: set<Observation>, run: seq<Event>)
    requires PastSentinel(cfg, run) && StoresFrom(catalogue, run)
    ensures Run(cfg, true, run).rows <= catalogue
    ensures CountEveryVisit(catalogue, Run(cfg, true, run), TotalCounted(cfg, run))
  {
    if run != [] {
      var before, last := run[..|run| - 1], |run| - 1;
      assert run[last] in run && forall e | e in before :: e in run;
      TablesCountEveryVisit(cfg, catalogue, before);
      WatermarkIs(cfg, before);
      StepKeepsToCatalogue(cfg, catalogue, Run(cfg, true, before), run[last]);
      StepCountsEveryVisit(cfg, catalogue, Run(cfg, true, before), run[last], TotalCounted(cfg, before));
    }
  }

  lemma {:induction false} StepKeepsToCatalogue(cfg: Config, catalogue: set<Observation>, s: State, e: Event)
    requires s.rows <= catalogue && (e.Store? ==> forall o | o in e.batch :: o in catalogue)
    ensures Step(cfg, true, s, e).rows <= catalogue
  {
    match e
    case Store(batch) => InsertAddsOnly(s.rows, batch);
    case RollUp(now) => RolledUpIs(cfg, s, now);
    case Ensure(_, _, _) =>
    case Drop(_, _) =>
  }

  ghost predicate CountEveryVisit(catalogue: set<Observation>, s: State, total: nat) {
    && Settled(s)
    && Visits(s.routes) == total
    && (NoRouteNamedAll(catalogue) ==> Visits(s.stops) == 2 * total)
  }

  lemma {:induction false} StepCountsEveryVisit(cfg: Config, catalogue: set<Observation>, s: State, e: Event, total: nat)
    requires s.rows <= catalogue && (e.RollUp? ==> EndsPastSentinel(cfg, s, e.now))
    requires CountEveryVisit(catalogue, s, total)
    ensures CountEveryVisit(catalogue, Step(cfg, true, s, e),
              total + if e.RollUp? then |Counted(cfg, s, e.now)| else 0)
  {
    if e.RollUp? {
      RouteVisitsAdd(cfg, s, e.now);
      if NoRouteNamedAll(catalogue) {
        StopVisitsAdd(cfg, catalogue, s, e.now);
      }
    }
  }

  lemma {:induction false} RouteVisitsAdd(cfg: Config, s: State, now: Instant)
    requires EndsPastSentinel(cfg, s, now) && Settled(s)
    ensures Settled(RolledUp(cfg, s, now))
    ensures Visits(RolledUp(cfg, s, now).routes) == Visits(s.routes) + |Counted(cfg, s, now)|
  {
    RollupOnlyAdds(cfg, s, now);
    RoutesAddCounted(cfg, s, now);
  }

  lemma {:induction false} StopVisitsAdd(cfg: Config, catalogue: set<Observation>, s: State, now: Instant)
    requires EndsPastSentinel(cfg, s, now) && Settled(s)
    requires NoRouteNamedAll(catalogue) && s.rows <= catalogue
    ensures Visits(RolledUp(cfg, s, now).stops) == Visits(s.stops) + 2 * |Counted(cfg, s, now)|
  {
    RollupOnlyAdds(cfg, s, now);
    StopsAddCounted(cfg, s, now);
  }

  lemma {:induction false} RoutesAddCounted(cfg: Config, s: State, now: Instant)
    requires s.routes.Keys !! RouteRows(cfg.onTime, Counted(cfg, s, now)).Keys
    ensures Visits(s.routes + RouteRows(cfg.onTime, Counted(cfg, s, now))) == Visits(s.routes) + |Counted(cfg, s, now)|
  {
    VisitsOfDisjoint(s.routes, RouteRows(cfg.onTime, Counted(cfg, s, now)));
    GroupsCountVisits(cfg.onTime, Counted(cfg, s, now), RouteKeyOf);
  }

  lemma {:induction false} StopsAddCounted(cfg: Config, s: State, now: Instant)
    requires NoRouteNamedAll(s.rows)
    requires s.stops.Keys !! StopRows(cfg.onTime, Counted(cfg, s, now)).Keys
    requires s.stops.Keys !! AllRoutesRows(cfg.onTime, Counted(cfg, s, now)).Keys
    ensures var finals := Counted(cfg, s, now);
            Visits(s.stops + StopRows(cfg.onTime, finals) + AllRoutesRows(cfg.onTime, finals)) ==
            Visits(s.stops) + 2 * |finals|
  {
    var finals := Counted(cfg, s, now);
    var byRoute, all := StopRows(cfg.onTime, finals), AllRoutesRows(cfg.onTime, finals);
    forall k | k in byRoute ensures k.routeId != ALL_ROUTES {
      var o :| o in finals && StopKeyOf(o) == k;
      assert o in s.rows;
    }
    VisitsOfDisjoint(s.stops, byRoute);
    VisitsOfDisjoint(s.stops + byRoute, all);
    GroupsCountVisits(cfg.onTime, finals, StopKeyOf);
    GroupsCountVisits(cfg.onTime, finals, AllRoutesKeyOf);
  }

  /** A row of an hourly table is what the one rollup of its hour made it: no later run ever
      overwrites it. */
  lemma {:induction false} RowsAreNeverOverwritten(cfg: Config, run: seq<Event>, i: nat, j: nat)
    requires PastSentinel(cfg, run) && i <= j <= |run|
    ensures Keeps(Run(cfg, true, run[..i]), Run(cfg, true, run[..j]))
    decreases j
  {
    if i < j {
      RowsAreNeverOverwritten(cfg, run, i, j - 1);
      StepKeeps(cfg, run, j - 1);
    }
  }

  /** The later tables have every row of the earlier as it was. */
  ghost predicate Keeps(s: State, t: State) {
    && (forall k | k in s.routes :: k in t.routes && t.routes[k] == s.routes[k])
    && (forall k | k in s.stops :: k in t.stops && t.stops[k] == s.stops[k])
  }

  lemma {:induction false} StepKeeps(cfg: Config, run: seq<Event>, i: nat)
    requires PastSentinel(cfg, run) && i < |run|
    ensures Keeps(Run(cfg, true, run[..i]), Run(cfg, true, run[..i + 1]))
  {
    RunAt(cfg, true, run, i);
    var before := run[..i];
    PastSentinelUntil(cfg, run, i);
    PastSentinelUntil(cfg, run, i + 1);
    assert run[..i + 1][..i] == before;
    RunIsSettled(cfg, before);
    if run[i].RollUp? {
      RollupOnlyAdds(cfg, Run(cfg, true, before), run[i].now);
    }
  }

  lemma {:induction false} RunIsSettled(cfg: Config, run: seq<Event>)
    requires PastSentinel(cfg, run)
    ensures var s := Run(cfg, true, run); Settled(s) && SENTINEL <= s.watermark && HourAligned(s.watermark)
  {
    WatermarkIs(cfg, run);
    var catalogue := set e, o | e in run && e.Store? && o in e.batch :: o;
    TablesCountEveryVisit(cfg, catalogue, run);
  }
}
