/** What each row of the hourly tables says, over whole runs. */
module TableRows {
  import opened Instants
  import opened Options
  import opened Observations
  import opened RollupQuery
  import opened RollupTables
  import opened Rollup
  import opened RollupRuns
  import opened RollupCounts
  import opened RollupTotals

  /** A visit's route and direction, in the tables' terms: for an unmatched visit, or for a
      direction not known, they have words of their own. */
  predicate Goes(o: Observation, routeId: string, directionId: int) {
    && routeId == (if o.routeId == "" then "~unmatched" else o.routeId)
    && (o.directionId == Some(directionId) || (o.directionId.None? && directionId == -1))
  }

  /** The visits counted that are of the key's hour, route and direction. */
  ghost function OnRoute(finals: set<Observation>, k: RouteKey): set<Observation> {
    set o | o in finals && TruncateHour(BucketTime(o)) == k.bucketStart && Goes(o, k.routeId, k.directionId)
  }

  /** The visits counted that are of the key's hour and stop and, unless the key is for all routes,
      of its route and direction. */
  ghost function AtStop(finals: set<Observation>, k: StopKey): set<Observation> {
    set o | o in finals && TruncateHour(BucketTime(o)) == k.bucketStart && o.stopId == k.stopId &&
            ((k.routeId == "~all" && k.directionId == -1) || Goes(o, k.routeId, k.directionId))
  }

  /** A table gains a row for a key exactly when there are visits for it, and it describes them. */
  ghost predicate Gains<K>(t: Thresholds, group: set<Observation>, table: map<K, Stats>, more: map<K, Stats>, k: K) {
    && (k in more <==> k in table || group != {})
    && (k in table ==> group == {} && more[k] == table[k])
    && (group != {} ==> Describes(t, more[k], group))
  }

  ghost predicate GainsRoutes(t: Thresholds, finals: set<Observation>, table: map<RouteKey, Stats>, more: map<RouteKey, Stats>) {
    forall k :: Gains(t, OnRoute(finals, k), table, more, k)
  }

  ghost predicate GainsStops(t: Thresholds, finals: set<Observation>, table: map<StopKey, Stats>, more: map<StopKey, Stats>) {
    forall k :: Gains(t, AtStop(finals, k), table, more, k)
  }

  lemma {:induction false} GainsBoth<K>(t: Thresholds, some: set<Observation>, others: set<Observation>,
                                        table: map<K, Stats>, more: map<K, Stats>, k: K)
    requires Gains(t, some, map[], table, k) && Gains(t, others, table, more, k)
    ensures Gains(t, some + others, map[], more, k)
  {
    assert some == {} || others == {};
    assert some + {} == some && {} + others == others;
  }

  lemma {:induction false} RouteRowIs(t: Thresholds, finals: set<Observation>, k: RouteKey)
    requires t.Ordered()
    ensures k in RouteRows(t, finals) <==> OnRoute(finals, k) != {}
    ensures k in RouteRows(t, finals) ==> Describes(t, RouteRows(t, finals)[k], OnRoute(finals, k))
  {
    assert Group(finals, RouteKeyOf, k) == OnRoute(finals, k);
    RowIs(t, finals, RouteKeyOf, k);
  }

  /** Aggregated by any key, a key has a row when it has visits, and the row describes them. */
  lemma {:induction false} RowIs<K>(t: Thresholds, finals: set<Observation>, key: Observation -> K, k: K)
    requires t.Ordered()
    ensures var rows, group := Aggregated(t, GroupBy(finals, key)), Group(finals, key, k);
            && (k in rows <==> group != {})
            && (k in rows ==> Describes(t, rows[k], group))
  {
    var group := Group(finals, key, k);
    if o :| o in group {
      assert key(o) in Keys(finals, key);
      AggregateDescribes(t, group);
    }
  }

  lemma {:induction false} StopRowIs(t: Thresholds, finals: set<Observation>, k: StopKey)
    requires t.Ordered()
    ensures var rows := StopRows(t, finals) + AllRoutesRows(t, finals);
            && (k in rows <==> AtStop(finals, k) != {})
            && (k in rows ==> Describes(t, rows[k], AtStop(finals, k)))
  {
    StopGroups(finals, k);
    RowIs(t, finals, StopKeyOf, k);
    RowIs(t, finals, AllRoutesKeyOf, k);
    Overlaid(StopRows(t, finals), AllRoutesRows(t, finals), k);
  }

  lemma {:induction false} Overlaid<K, V>(table: map<K, V>, over: map<K, V>, k: K)
    ensures k in table + over <==> k in table || k in over
    ensures k in over ==> (table + over)[k] == over[k]
    ensures k in table && k !in over ==> (table + over)[k] == table[k]
  {}

  lemma {:induction false} StopGroups(finals: set<Observation>, k: StopKey)
    ensures if k.routeId == ALL_ROUTES && k.directionId == -1
            then Group(finals, AllRoutesKeyOf, k) == AtStop(finals, k) && Group(finals, StopKeyOf, k) <= AtStop(finals, k)
            else Group(finals, AllRoutesKeyOf, k) == {} && Group(finals, StopKeyOf, k) == AtStop(finals, k)
  {}

  lemma {:induction false} RowGained<K>(t: Thresholds, group: set<Observation>, table: map<K, Stats>, rows: map<K, Stats>, k: K)
    requires k in table ==> k !in rows
    requires (k in rows <==> group != {}) && (k in rows ==> Describes(t, rows[k], group))
    ensures Gains(t, group, table, table + rows, k)
  {
    Overlaid(table, rows, k);
  }

  /** A rollup gains the tables the rows that describe what it counts, and changes no other row. */
  lemma {:induction false} RollupDescribes(cfg: Config, s: State, now: Instant)
    requires cfg.onTime.Ordered() && EndsPastSentinel(cfg, s, now) && Settled(s)
    ensures GainsRoutes(cfg.onTime, Counted(cfg, s, now), s.routes, RolledUp(cfg, s, now).routes)
    ensures GainsStops(cfg.onTime, Counted(cfg, s, now), s.stops, RolledUp(cfg, s, now).stops)
  {
    RollupOnlyAdds(cfg, s, now);
    var finals := Counted(cfg, s, now);
    forall k ensures Gains(cfg.onTime, OnRoute(finals, k), s.routes, RolledUp(cfg, s, now).routes, k) {
      RouteRowIs(cfg.onTime, finals, k);
      RowGained(cfg.onTime, OnRoute(finals, k), s.routes, RouteRows(cfg.onTime, finals), k);
    }
    StopsGain(cfg.onTime, finals, s.stops);
  }

  lemma {:induction false} StopsGain(t: Thresholds, finals: set<Observation>, table: map<StopKey, Stats>)
    requires t.Ordered() && table.Keys !! StopRows(t, finals).Keys && table.Keys !! AllRoutesRows(t, finals).Keys
    ensures GainsStops(t, finals, table, table + StopRows(t, finals) + AllRoutesRows(t, finals))
  {
    forall k ensures Gains(t, AtStop(finals, k), table, table + StopRows(t, finals) + AllRoutesRows(t, finals), k) {
      StopGained(t, finals, table, k);
    }
  }

  lemma {:induction false} StopGained(t: Thresholds, finals: set<Observation>, table: map<StopKey, Stats>, k: StopKey)
    requires t.Ordered() && table.Keys !! StopRows(t, finals).Keys && table.Keys !! AllRoutesRows(t, finals).Keys
    ensures Gains(t, AtStop(finals, k), table, table + StopRows(t, finals) + AllRoutesRows(t, finals), k)
  {
    var byRoute, all := StopRows(t, finals), AllRoutesRows(t, finals);
    StopRowIs(t, finals, k);
    OverlaidTwice(table, byRoute, all);
    Overlaid(byRoute, all, k);
    RowGained(t, AtStop(finals, k), table, byRoute + all, k);
  }

  lemma {:induction false} OverlaidTwice<K, V>(table: map<K, V>, over: map<K, V>, more: map<K, V>)
    ensures table + over + more == table + (over + more)
  {}

  /** The rows a rollup writes are the rows its tables gain, by number, but that a route called what
      the rows for all routes are may share some with them. */
  lemma {:induction false} WrittenAreGained(cfg: Config, s: State, now: Instant)
    requires EndsPastSentinel(cfg, s, now) && Settled(s)
    ensures var finals, s' := Counted(cfg, s, now), RolledUp(cfg, s, now);
            && |s'.routes| == |s.routes| + |RouteRows(cfg.onTime, finals)|
            && |s'.stops| <= |s.stops| + |StopRows(cfg.onTime, finals)| + |AllRoutesRows(cfg.onTime, finals)|
            && (NoRouteNamedAll(finals) ==> |s'.stops| == |s.stops| + |StopRows(cfg.onTime, finals)| + |AllRoutesRows(cfg.onTime, finals)|)
  {
    RollupOnlyAdds(cfg, s, now);
    var finals := Counted(cfg, s, now);
    var byRoute, all := StopRows(cfg.onTime, finals), AllRoutesRows(cfg.onTime, finals);
    SizeOverlaid(s.routes, RouteRows(cfg.onTime, finals));
    SizeOverlaid(s.stops, byRoute);
    SizeOverlaid(s.stops + byRoute, all);
    if NoRouteNamedAll(finals) {
      NamedApart(cfg.onTime, finals);
    }
  }

  lemma {:induction false} NamedApart(t: Thresholds, finals: set<Observation>)
    requires NoRouteNamedAll(finals)
    ensures StopRows(t, finals).Keys !! AllRoutesRows(t, finals).Keys
  {
    forall k | k in StopRows(t, finals) ensures k.routeId != ALL_ROUTES {
      var o :| o in finals && StopKeyOf(o) == k;
    }
  }

  lemma {:induction false} SizeOverlaid<K, V>(table: map<K, V>, over: map<K, V>)
    ensures |table + over| <= |table| + |over|
    ensures table.Keys !! over.Keys ==> |table + over| == |table| + |over|
  {
    assert (table + over).Keys == table.Keys + over.Keys;
    Complements((table + over).Keys, table.Keys, over.Keys - table.Keys);
    Smaller(over.Keys - table.Keys, over.Keys);
    assert table.Keys !! over.Keys ==> over.Keys - table.Keys == over.Keys;
  }

  /** All that the rollups of a run count. */
  ghost function AllCounted(cfg: Config, run: seq<Event>): set<Observation> {
    if run == [] then {} else AllCounted(cfg, run[..|run| - 1]) + CountedAt(cfg, run, |run| - 1)
  }

  /** After any run the tables have a row for each hour, stop or route with a visit counted, and for
      no other; each describes the visits counted by the run that are its own. */
  lemma {:induction false} TablesDescribeRun(cfg: Config, run: seq<Event>)
    requires cfg.onTime.Ordered() && PastSentinel(cfg, run)
    ensures GainsRoutes(cfg.onTime, AllCounted(cfg, run), map[], Run(cfg, true, run).routes)
    ensures GainsStops(cfg.onTime, AllCounted(cfg, run), map[], Run(cfg, true, run).stops)
  {
    if run != [] {
      var before, e := run[..|run| - 1], run[|run| - 1];
      TablesDescribeRun(cfg, before);
      RunIsSettled(cfg, before);
      StepDescribes(cfg, Run(cfg, true, before), e, AllCounted(cfg, before));
    }
  }

  lemma {:induction false} StepDescribes(cfg: Config, s: State, e: Event, all: set<Observation>)
    requires cfg.onTime.Ordered() && Settled(s) && (e.RollUp? ==> EndsPastSentinel(cfg, s, e.now))
    requires GainsRoutes(cfg.onTime, all, map[], s.routes) && GainsStops(cfg.onTime, all, map[], s.stops)
    ensures var more := all + if e.RollUp? then Counted(cfg, s, e.now) else {};
            && GainsRoutes(cfg.onTime, more, map[], Step(cfg, true, s, e).routes)
            && GainsStops(cfg.onTime, more, map[], Step(cfg, true, s, e).stops)
  {
    if e.RollUp? {
      RollupDescribes(cfg, s, e.now);
      RoutesGainBoth(cfg.onTime, all, Counted(cfg, s, e.now), s.routes, RolledUp(cfg, s, e.now).routes);
      StopsGainBoth(cfg.onTime, all, Counted(cfg, s, e.now), s.stops, RolledUp(cfg, s, e.now).stops);
    } else {
      assert all + {} == all;
    }
  }

  lemma {:induction false} RoutesGainBoth(t: Thresholds, all: set<Observation>, finals: set<Observation>,
                                          table: map<RouteKey, Stats>, more: map<RouteKey, Stats>)
    requires GainsRoutes(t, all, map[], table) && GainsRoutes(t, finals, table, more)
    ensures GainsRoutes(t, all + finals, map[], more)
  {
    forall k ensures Gains(t, OnRoute(all + finals, k), map[], more, k) {
      assert OnRoute(all + finals, k) == OnRoute(all, k) + OnRoute(finals, k);
      GainsBoth(t, OnRoute(all, k), OnRoute(finals, k), table, more, k);
    }
  }

  lemma {:induction false} StopsGainBoth(t: Thresholds, all: set<Observation>, finals: set<Observation>,
                                         table: map<StopKey, Stats>, more: map<StopKey, Stats>)
    requires GainsStops(t, all, map[], table) && GainsStops(t, finals, table, more)
    ensures GainsStops(t, all + finals, map[], more)
  {
    forall k ensures Gains(t, AtStop(all + finals, k), map[], more, k) {
      assert AtStop(all + finals, k) == AtStop(all, k) + AtStop(finals, k);
      GainsBoth(t, AtStop(all, k), AtStop(finals, k), table, more, k);
    }
  }
}
