/** The maintenance job over the partitioned database (internal/rollup/job.go, rollup.go). */
module RollupJob {
  import opened Instants
  import opened Zones
  import ServiceTime
  import opened Options
  import opened Observations
  import opened RollupQuery
  import opened RollupTables
  import opened Rollup
  import opened RollupRuns

  ghost predicate Ascending(dates: seq<Date>) {
    forall i, j | 0 <= i < j < |dates| :: dates[i] < dates[j]
  }

  // The partitions of one table. A row is in its service date's partition or in the default one.

  ghost predicate WellPartitioned(fallback: set<Observation>, daily: map<Date, set<Observation>>) {
    && (forall o | o in fallback :: o.serviceDate !in daily)
    && (forall d, o | d in daily && o in daily[d] :: o.serviceDate == d)
  }

  function RowsOf(fallback: set<Observation>, daily: map<Date, set<Observation>>): set<Observation> {
    fallback + set d, o | d in daily && o in daily[d] :: o
  }

  lemma {:induction false} RowsAre(fallback: set<Observation>, daily: map<Date, set<Observation>>, o: Observation)
    requires WellPartitioned(fallback, daily)
    ensures o in RowsOf(fallback, daily) <==>
            if o.serviceDate in daily then o in daily[o.serviceDate] else o in fallback
  {}

  /** A conflict can only be with a row of the same partition. */
  lemma {:induction false} ConflictsAreLocal(fallback: set<Observation>, daily: map<Date, set<Observation>>, k: RowKey)
    requires WellPartitioned(fallback, daily)
    ensures Holds(RowsOf(fallback, daily), k) <==>
            Holds(if k.key.serviceDate in daily then daily[k.key.serviceDate] else fallback, k)
  {
    var rows := RowsOf(fallback, daily);
    forall o: Observation | o.RowKey() == k ensures o in rows <==>
        o in (if k.key.serviceDate in daily then daily[k.key.serviceDate] else fallback)
    {
      RowsAre(fallback, daily, o);
    }
  }

  lemma {:induction false} RoutedIntoDaily(fallback: set<Observation>, daily: map<Date, set<Observation>>, o: Observation)
    requires WellPartitioned(fallback, daily) && o.serviceDate in daily
    ensures var daily' := daily[o.serviceDate := daily[o.serviceDate] + {o}];
            WellPartitioned(fallback, daily') && RowsOf(fallback, daily') == RowsOf(fallback, daily) + {o}
  {
    var daily' := daily[o.serviceDate := daily[o.serviceDate] + {o}];
    forall p ensures p in RowsOf(fallback, daily') <==> p in RowsOf(fallback, daily) + {o} {
      RowsAre(fallback, daily, p);
      RowsAre(fallback, daily', p);
    }
  }

  lemma {:induction false} MovedIntoDaily(fallback: set<Observation>, daily: map<Date, set<Observation>>, d: Date, stranded: set<Observation>)
    requires WellPartitioned(fallback, daily) && d !in daily
    requires stranded == set o | o in fallback && o.serviceDate == d
    ensures WellPartitioned(fallback - stranded, daily[d := stranded])
    ensures RowsOf(fallback - stranded, daily[d := stranded]) == RowsOf(fallback, daily)
  {
    forall p ensures p in RowsOf(fallback - stranded, daily[d := stranded]) <==> p in RowsOf(fallback, daily) {
      RowsAre(fallback, daily, p);
      RowsAre(fallback - stranded, daily[d := stranded], p);
    }
  }

  lemma {:induction false} DroppedFromDaily(fallback: set<Observation>, daily: map<Date, set<Observation>>, dropped: set<Date>)
    requires WellPartitioned(fallback, daily) && dropped <= daily.Keys
    ensures WellPartitioned(fallback, daily - dropped)
    ensures RowsOf(fallback, daily - dropped) == RowsOutside(RowsOf(fallback, daily), dropped)
  {
    forall p ensures p in RowsOf(fallback, daily - dropped) <==>
                     p in RowsOf(fallback, daily) && p.serviceDate !in dropped {
      RowsAre(fallback, daily, p);
      RowsAre(fallback, daily - dropped, p);
    }
  }

  ghost function Elements(dates: seq<Date>): set<Date> { set d | d in dates }

  lemma {:induction false} Appended(dates: seq<Date>, d: Date)
    requires Ascending(dates) && forall e | e in Elements(dates) :: e < d
    ensures Ascending(dates + [d]) && Elements(dates + [d]) == Elements(dates) + {d}
  {
    assert forall i | 0 <= i < |dates| :: dates[i] in Elements(dates);
    assert forall e | e in dates + [d] :: e in dates || e == d;
  }

  /** Of the visits whose rows are read where they lie and overtaken by their last, the rows are the
      last words bucketed in the window. */
  ghost predicate HasLastWords(loc: Zone, w: Window, rows: set<Observation>, finals: set<Observation>) {
    forall o: Observation | VisitIsWellDated(loc, rows, o.Key()) && EachOvertaken(rows, o.Key()) ::
      o in finals <==> IsLastWord(rows, o) && w.Has(BucketTime(o))
  }

  lemma {:induction false} FinalsAreLastWords(loc: Zone, w: Window, rows: set<Observation>)
    ensures IsHours(w) ==> HasLastWords(loc, w, rows, Finals(DatesFor(loc, w), w, rows))
  {
    if IsHours(w) {
      forall o: Observation | VisitIsWellDated(loc, rows, o.Key()) && EachOvertaken(rows, o.Key())
        ensures o in Finals(DatesFor(loc, w), w, rows) <==> IsLastWord(rows, o) && w.Has(BucketTime(o))
      {
        ForgottenRowsDoNotMatter(loc, w, rows, rows, o);
      }
    }
  }

  datatype DropOutcome = Dropped | NotRolledUp | Failed

  /** What one rollup did; an empty range of hours if it had nothing to do. */
  datatype Report = Report(from: Instant, to: Instant, finals: nat, stopRows: nat, routeRows: nat)

  /** It counts the finals, and the rows each of the three statements writes for them. */
  predicate Reports(report: Report, t: Thresholds, finals: set<Observation>) {
    && report.finals == |finals|
    && report.stopRows == |StopRows(t, finals)| + |AllRoutesRows(t, finals)|
    && report.routeRows == |RouteRows(t, finals)|
  }

  class Job {
    const cfg: Config
    var fallback: set<Observation>          // observations_default
    var daily: map<Date, set<Observation>>  // observations_YYYY_MM_DD
    var stops: map<StopKey, Stats>          // otp_stop_hourly
    var routes: map<RouteKey, Stats>        // otp_route_hourly
    var watermark: Instant                  // rollup_state

    ghost predicate Valid()
      reads this
    {
      WellPartitioned(fallback, daily)
    }

    /** The rows of observations, whatever partition they are in. */
    function Rows(): set<Observation>
      reads this
    {
      RowsOf(fallback, daily)
    }

    function View(): State
      reads this
    {
      State(Rows(), daily.Keys, stops, routes, watermark)
    }

    /** The database as the migrations leave it. */
    constructor (cfg: Config)
      ensures Valid() && View() == EMPTY && this.cfg == cfg
    {
      this.cfg := cfg;
      fallback, daily, stops, routes, watermark := {}, map[], map[], map[], SENTINEL;
    }

    /** Postgres's tuple routing: each row goes to its date's partition, or else to the default. */
    method Store(batch: seq<Observation>)
      requires Valid()
      modifies this
      ensures Valid() && View() == WithRows(old(View()), batch)
    {
      for i := 0 to |batch|
        invariant Valid() && View() == WithRows(old(View()), batch[..i])
      {
        var o := batch[i];
        ConflictsAreLocal(fallback, daily, o.RowKey());
        assert batch[..i + 1][..i] == batch[..i];
        if o.serviceDate in daily {
          if !Holds(daily[o.serviceDate], o.RowKey()) {
            RoutedIntoDaily(fallback, daily, o);
            daily := daily[o.serviceDate := daily[o.serviceDate] + {o}];
          }
        } else if !Holds(fallback, o.RowKey()) {
          fallback := fallback + {o};
        }
      }
      assert batch[..|batch|] == batch;
    }

    /** The rows the window's visits are counted by, read through the service-date bounds: of each
        visit fit to be queried the last row there is, if that is bucketed in the window. */
    method SelectFinals(w: Window) returns (finals: set<Observation>)
      ensures finals == Finals(DatesFor(cfg.loc, w), w, Rows())
      ensures IsHours(w) ==> HasLastWords(cfg.loc, w, Rows(), finals)
    {
      FinalsAreLastWords(cfg.loc, w, Rows());
      var first := ServiceTime.CandidateServiceDates(cfg.loc, w.from, 0);
      var last := ServiceTime.CandidateServiceDates(cfg.loc, w.to, 0);
      finals := Finals(DateRange(first[0] - 2, last[0] + 1), w, Rows());
    }

    /** Counts the final rows of the window due, if one is, into both tables, and moves the
        watermark to its end. */
    method RollUp(now: Instant) returns (report: Report)
      requires Valid()
      modifies this`stops, this`routes, this`watermark
      ensures Valid() && View() == RolledUp(cfg, old(View()), now)
      ensures match Due(cfg, old(View()), now)
              case None => report.from == report.to && report.finals == report.stopRows == report.routeRows == 0
              case Some(w) => report.from == w.from && report.to == w.to && Reports(report, cfg.onTime, Counted(cfg, old(View()), now))
    {
      var w, due := WindowDue(now);
      if !due {
        return Report(w.from, w.to, 0, 0, 0);
      }
      var finals := RollUpTo(w, now);
      report := ReportOf(w, finals);
    }

    /** The transaction for a window that is due. */
    method RollUpTo(w: Window, ghost now: Instant) returns (finals: set<Observation>)
      requires Valid() && Due(cfg, View(), now) == Some(w)
      modifies this`stops, this`routes, this`watermark
      ensures Valid() && View() == RolledUp(cfg, old(View()), now) && finals == Counted(cfg, old(View()), now)
    {
      finals := SelectFinals(w);
      var byRoute := StopRows(cfg.onTime, finals);
      var all := AllRoutesRows(cfg.onTime, finals);
      var byLine := RouteRows(cfg.onTime, finals);
      stops := stops + byRoute + all;
      routes := routes + byLine;
      watermark := w.to;
    }

    /** How many rows the transaction selects, and writes to each table. */
    method ReportOf(w: Window, finals: set<Observation>) returns (report: Report)
      ensures report.from == w.from && report.to == w.to && Reports(report, cfg.onTime, finals)
    {
      report := Report(w.from, w.to, |finals|, |StopRows(cfg.onTime, finals)| + |AllRoutesRows(cfg.onTime, finals)|, |RouteRows(cfg.onTime, finals)|);
    }

    /** The hours between the watermark, or the first observation, and the last settled hour. */
    method WindowDue(now: Instant) returns (w: Window, due: bool)
      ensures Due(cfg, View(), now) == if due then Some(w) else None
      ensures !due ==> w.from == w.to
    {
      var from := watermark;
      if from == SENTINEL {
        if Rows() == {} {
          return Window(watermark, watermark), false;
        }
        from := FirstHour(Rows());
      }
      var to := TruncateHour(now - cfg.settle);
      if to <= from {
        return Window(from, from), false;
      }
      return Window(from, to), true;
    }

    /** The dates that have a partition of their own, ascending. */
    method Partitions() returns (dates: seq<Date>)
      ensures Ascending(dates) && Elements(dates) == daily.Keys
    {
      dates := [];
      var rest := daily.Keys;
      while exists d :: d in rest
        invariant Ascending(dates) && Elements(dates) + rest == daily.Keys
        invariant forall d, e | d in Elements(dates) && e in rest :: d < e
        decreases rest
      {
        LeastExists(rest);
        var d :| d in rest && forall e | e in rest :: d <= e;
        Appended(dates, d);
        dates := dates + [d];
        rest := rest - {d};
      }
    }

    /** Gives each date from one to the other a partition, with the rows of the default one that
        belong there, up to the first date whose transaction fails. */
    method EnsurePartitions(from: Date, until: Date, refused: set<Date>) returns (created: seq<Date>, ok: bool)
      requires Valid()
      modifies this`fallback, this`daily
      ensures Valid() && View() == WithPartitions(old(View()), Creatable(old(View()), from, until, refused))
      ensures Ascending(created) && Elements(created) == Creatable(old(View()), from, until, refused)
      ensures ok <==> CreatesAll(old(View()), from, until, refused)
    {
      var have := daily.Keys;
      created := [];
      var d := from;
      while d <= until
        invariant from <= d
        invariant Valid() && Rows() == old(Rows())
        invariant daily.Keys == have + Elements(created)
        invariant Ascending(created)
        invariant forall e :: e in Elements(created) <==> from <= e < d && e <= until && e !in have
        invariant forall e :: from <= e < d && e <= until && e in refused ==> e in have
        decreases until - d
      {
        if d !in have {
          if d in refused {
            return created, false;
          }
          var stranded := set o | o in fallback && o.serviceDate == d;
          MovedIntoDaily(fallback, daily, d, stranded);
          if stranded == {} {
            daily := daily[d := {}];
          } else {
            daily := daily[d := stranded];
            fallback := fallback - stranded;
          }
          Appended(created, d);
          created := created + [d];
        }
        d := d + 1;
      }
      ok := true;
    }

    /** One transaction: drops a partition, unless the rollup has not passed it or the drop fails. */
    method DropPartition(d: Date, fails: bool) returns (outcome: DropOutcome)
      requires d in daily
      modifies this`daily
      ensures outcome == if exists o | o in old(daily)[d] :: watermark <= BucketTime(o) then NotRolledUp
                         else if fails then Failed else Dropped
      ensures daily == if outcome == Dropped then old(daily) - {d} else old(daily)
    {
      if exists o | o in daily[d] :: watermark <= BucketTime(o) {
        return NotRolledUp;
      }
      if fails {
        return Failed;
      }
      daily := daily - {d};
      outcome := Dropped;
    }

    /** Drops daily partitions before cutoff that hold nothing at or past the watermark, oldest
        first, until a drop fails. */
    method DropPartitionsBefore(cutoff: Date, refused: set<Date>) returns (dropped: seq<Date>, ok: bool)
      requires Valid()
      modifies this`daily
      ensures Valid() && View() == WithoutPartitions(old(View()), Droppable(old(View()), cutoff, refused))
      ensures Ascending(dropped) && Elements(dropped) == Droppable(old(View()), cutoff, refused)
      ensures ok <==> DropsAll(old(View()), cutoff, refused)
    {
      var have := Partitions();
      ghost var pending := PendingDates(View(), fallback, daily);
      ghost var limit;
      dropped, ok, limit := DropUntil(have, cutoff, refused, pending);
      DroppableAre(old(View()), cutoff, refused, pending, limit, ok);
      DroppedFromDaily(fallback, old(daily), Elements(dropped));
      assert View() == WithoutPartitions(old(View()), Elements(dropped));
    }

    /** Goes through the partitions, oldest first, as far as the cutoff or the first drop to fail. */
    method DropUntil(have: seq<Date>, cutoff: Date, refused: set<Date>, ghost pending: set<Date>)
      returns (dropped: seq<Date>, ok: bool, ghost limit: Date)
      requires Ascending(have) && Elements(have) == daily.Keys
      requires forall d | d in daily :: d in pending <==> exists o :: o in daily[d] && watermark <= BucketTime(o)
      modifies this`daily
      ensures daily == old(daily) - Elements(dropped)
      ensures Ascending(dropped) && Elements(dropped) == (set e | e in old(daily) && e < limit) - pending
      ensures forall e | e in old(daily) && e < limit && e in refused :: e in pending
      ensures if ok then limit == cutoff else limit < cutoff && limit in old(daily) && limit in refused && limit !in pending
    {
      dropped, ok := [], true;
      var i := 0;
      while i < |have| && have[i] < cutoff
        invariant 0 <= i <= |have| && ok
        invariant daily == old(daily) - Elements(dropped)
        invariant Ascending(dropped) && Elements(dropped) == Elements(have[..i]) - pending
        invariant forall e | e in Elements(have[..i]) :: e < cutoff
        invariant forall e | e in Elements(have[..i]) && e in refused :: e in pending
      {
        var d := have[i];
        Sliced(have, i);
        var outcome := DropPartition(d, d in refused);
        match outcome {
          case NotRolledUp =>
          case Failed => ok := false; break;
          case Dropped =>
            Appended(dropped, d);
            dropped := dropped + [d];
        }
        i := i + 1;
      }
      limit := if ok then cutoff else have[i];
      SeenBefore(have, i, limit);
    }

    /** One maintenance run. A failure to create partitions stops no later step; one to roll up
        leaves all partitions in place. Returns the steps that failed, in order, and the date before
        which the change filter may forget. */
    method Tick(now: Instant, lookaheadDays: nat, retentionDays: nat, refusals: Refusals)
      returns (today: Date, faults: seq<Fault>, expire: Date)
      requires Valid()
      modifies this
      ensures Valid() && today == ServiceTime.OwningDay(cfg.loc, now) && expire == today - 1
      ensures View() == Ticked(cfg, old(View()), now, PlanFor(today, lookaheadDays, retentionDays), refusals)
      ensures faults == FaultsOf(cfg, old(View()), now, PlanFor(today, lookaheadDays, retentionDays), refusals)
    {
      var dates := ServiceTime.CandidateServiceDates(cfg.loc, now, 0);
      today := dates[0];
      faults := Follow(PlanFor(today, lookaheadDays, retentionDays), now, refusals);
      expire := today - 1;
    }

    method Follow(plan: Plan, now: Instant, refusals: Refusals) returns (faults: seq<Fault>)
      requires Valid()
      modifies this
      ensures Valid() && View() == Ticked(cfg, old(View()), now, plan, refusals)
      ensures faults == FaultsOf(cfg, old(View()), now, plan, refusals)
    {
      faults := [];
      var created, ok := EnsurePartitions(plan.from, plan.until, refusals.create);
      if !ok {
        faults := [Creating];
      }
      if refusals.rollup {
        faults := faults + [RollingUp];
        return;
      }
      var report := RollUp(now);
      var dropped;
      dropped, ok := DropPartitionsBefore(plan.cutoff, refusals.drop);
      if !ok {
        faults := faults + [Dropping];
      }
    }
  }

  datatype Fault = Creating | RollingUp | Dropping

  /** A step fails when a partition it comes to is refused: a missing one, or one not pending. */
  ghost function FaultsOf(cfg: Config, s: State, now: Instant, plan: Plan, refusals: Refusals): seq<Fault> {
    var ensured := WithPartitions(s, Creatable(s, plan.from, plan.until, refusals.create));
    (if CreatesAll(s, plan.from, plan.until, refusals.create) then [] else [Creating]) +
    if refusals.rollup then [RollingUp]
    else if DropsAll(RolledUp(cfg, ensured, now), plan.cutoff, refusals.drop) then []
    else [Dropping]
  }

  ghost predicate CreatesAll(s: State, from: Date, until: Date, refused: set<Date>) {
    forall d | from <= d <= until && d in refused :: d in s.partitions
  }

  ghost predicate DropsAll(s: State, cutoff: Date, refused: set<Date>) {
    forall d | d in s.partitions && d < cutoff && d in refused :: Pending(s, d)
  }

  /** The service dates that should have partitions, and the first that should keep its own. */
  datatype Plan = Plan(from: Date, until: Date, cutoff: Date)

  function PlanFor(today: Date, lookaheadDays: nat, retentionDays: nat): Plan {
    Plan(today - 1, today + lookaheadDays, today - retentionDays)
  }

  /** What fails in a run: partitions that cannot be created or dropped, and the rollup. */
  datatype Refusals = Refusals(create: set<Date>, drop: set<Date>, rollup: bool)

  ghost function Ticked(cfg: Config, s: State, now: Instant, plan: Plan, refusals: Refusals): State {
    var ensured := WithPartitions(s, Creatable(s, plan.from, plan.until, refusals.create));
    if refusals.rollup then ensured
    else
      var rolled := RolledUp(cfg, ensured, now);
      WithoutPartitions(rolled, Droppable(rolled, plan.cutoff, refusals.drop))
  }

  /** A maintenance run is a stretch of a run of the database. */
  lemma {:induction false} TickIsInRun(cfg: Config, run: seq<Event>, now: Instant, plan: Plan, refusals: Refusals)
    ensures Ticked(cfg, Run(cfg, true, run), now, plan, refusals) == Run(cfg, true, run + TickEvents(now, plan, refusals))
  {
    var ensure, rollUp, drop := Ensure(plan.from, plan.until, refusals.create), Event.RollUp(now), Drop(plan.cutoff, refusals.drop);
    RunThen(cfg, run, ensure);
    if !refusals.rollup {
      RunThen(cfg, run + [ensure], rollUp);
      RunThen(cfg, run + [ensure] + [rollUp], drop);
      assert run + [ensure] + [rollUp] + [drop] == run + TickEvents(now, plan, refusals);
    }
  }

  lemma {:induction false} RunThen(cfg: Config, run: seq<Event>, e: Event)
    ensures Run(cfg, true, run + [e]) == Step(cfg, true, Run(cfg, true, run), e)
  {
    assert (run + [e])[..|run|] == run;
  }

  function TickEvents(now: Instant, plan: Plan, refusals: Refusals): seq<Event> {
    [Ensure(plan.from, plan.until, refusals.create)] +
    if refusals.rollup then [] else [Event.RollUp(now), Drop(plan.cutoff, refusals.drop)]
  }

  /** A loop over dates in order has seen, where it stopped, those before its limit. */
  lemma {:induction false} SeenBefore(dates: seq<Date>, i: nat, limit: Date)
    requires Ascending(dates) && i <= |dates|
    requires forall e | e in Elements(dates[..i]) :: e < limit
    requires i < |dates| ==> limit <= dates[i]
    ensures Elements(dates[..i]) == set e | e in Elements(dates) && e < limit
  {
    if i < |dates| {
      Sliced(dates, i);
    } else {
      assert dates[..i] == dates;
    }
  }

  lemma {:induction false} DroppableAre(s: State, cutoff: Date, refused: set<Date>, pending: set<Date>, limit: Date, ok: bool)
    requires forall d | d in s.partitions :: d in pending <==> Pending(s, d)
    requires forall e | e in s.partitions && e < limit && e in refused :: e in pending
    requires if ok then limit == cutoff
             else limit < cutoff && limit in s.partitions && limit in refused && limit !in pending
    ensures (set e | e in s.partitions && e < limit) - pending == Droppable(s, cutoff, refused)
    ensures ok <==> DropsAll(s, cutoff, refused)
  {}

  /** The partitions a drop would skip. */
  ghost function PendingDates(s: State, fallback: set<Observation>, daily: map<Date, set<Observation>>): (dates: set<Date>)
    requires WellPartitioned(fallback, daily) && s.rows == RowsOf(fallback, daily)
    ensures forall d | d in daily :: d in dates <==> Pending(s, d)
    ensures forall d | d in daily :: d in dates <==> exists o :: o in daily[d] && s.watermark <= BucketTime(o)
  {
    set d | d in daily && exists o :: o in daily[d] && s.watermark <= BucketTime(o)
  }

  /** The dates of an ascending list before one of them are those less than it. */
  lemma {:induction false} Sliced(dates: seq<Date>, i: nat)
    requires Ascending(dates) && i < |dates|
    ensures Elements(dates[..i]) == set e | e in Elements(dates) && e < dates[i]
    ensures Elements(dates[..i + 1]) == Elements(dates[..i]) + {dates[i]}
    ensures dates[i] in Elements(dates)
  {
    forall e | e in dates ensures e in dates[..i] <==> e < dates[i] {
      var j :| 0 <= j < |dates| && dates[j] == e;
      if j < i {
        assert dates[..i][j] == e;
      }
    }
    assert dates[..i + 1] == dates[..i] + [dates[i]];
  }
}
