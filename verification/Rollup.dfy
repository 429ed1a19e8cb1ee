/** What the maintenance job does to the database (internal/rollup/rollup.go and job.go), one
    transaction a step. A row's partition is the daily one of its service date when that exists
    and the default partition otherwise, so the rows and the daily partitions' dates say it all. */
module Rollup {
  import opened Instants
  import opened Zones
  import opened Options
  import opened Observations
  import opened RollupQuery
  import opened RollupTables

  /** The watermark migrations/0003 seeds, 2000-01-01: never run. */
  const SENTINEL: Instant := 946_684_800_000_000_000

  datatype Config = Config(loc: Zone, settle: Duration, onTime: Thresholds)

  datatype State = State(
    rows: set<Observation>,
    partitions: set<Date>,
    stops: map<StopKey, Stats>,
    routes: map<RouteKey, Stats>,
    watermark: Instant)

  const EMPTY := State({}, {}, map[], map[], SENTINEL)

  // Rollup.

  /** The hour in which the earliest row is bucketed. */
  function FirstHour(rows: set<Observation>): (hour: Instant)
    requires rows != {}
    ensures forall o | o in rows :: hour <= BucketTime(o)
    ensures exists o :: o in rows && hour == TruncateHour(BucketTime(o))
    ensures HourAligned(hour)
  {
    var times := set o | o in rows :: BucketTime(o);
    assert exists t :: t in times by { var o :| o in rows; assert BucketTime(o) in times; }
    var earliest := Least(times);
    assert forall o | o in rows :: BucketTime(o) in times;
    TruncateHour(earliest)
  }

  /** The window a rollup at now covers, or None when nothing is due. */
  function Due(cfg: Config, s: State, now: Instant): Option<Window> {
    if s.watermark == SENTINEL && s.rows == {} then None
    else
      var from := if s.watermark == SENTINEL then FirstHour(s.rows) else s.watermark;
      var to := TruncateHour(now - cfg.settle);
      if to <= from then None else Some(Window(from, to))
  }

  /** The visits a rollup at now counts, each by the row that is its final word. */
  ghost function Counted(cfg: Config, s: State, now: Instant): set<Observation> {
    match Due(cfg, s, now)
    case None => {}
    case Some(w) => Finals(DatesFor(cfg.loc, w), w, s.rows)
  }

  ghost function RolledUp(cfg: Config, s: State, now: Instant): State {
    match Due(cfg, s, now)
    case None => s
    case Some(w) =>
      var finals := Counted(cfg, s, now);
      s.(stops := s.stops + StopRows(cfg.onTime, finals) + AllRoutesRows(cfg.onTime, finals),
         routes := s.routes + RouteRows(cfg.onTime, finals),
         watermark := w.to)
  }

  function WithRows(s: State, batch: seq<Observation>): State {
    s.(rows := InsertRows(s.rows, batch))
  }

  // Partitions. Refused dates are those whose transaction fails, on a lock timeout for one.

  /** The dates in [from, to] that get a partition: the missing ones, up to the first refused. */
  ghost function Creatable(s: State, from: Date, to: Date, refused: set<Date>): set<Date> {
    set d | from <= d <= to && d !in s.partitions && forall e | from <= e <= d && e in refused :: e in s.partitions
  }

  function WithPartitions(s: State, created: set<Date>): State {
    s.(partitions := s.partitions + created)
  }

  /** A row of the partition has yet to be rolled up, by its bucket. */
  predicate Pending(s: State, d: Date) {
    exists o | o in s.rows :: o.serviceDate == d && s.watermark <= BucketTime(o)
  }

  /** The partitions before cutoff that are dropped: those not pending, up to the first refused. */
  ghost function Droppable(s: State, cutoff: Date, refused: set<Date>): set<Date> {
    set d | d in s.partitions && d < cutoff && !Pending(s, d) &&
            forall e | e in s.partitions && e <= d && e in refused :: Pending(s, e)
  }

  function RowsOutside(rows: set<Observation>, dropped: set<Date>): set<Observation> {
    set o | o in rows && o.serviceDate !in dropped
  }

  function WithoutPartitions(s: State, dropped: set<Date>): State {
    s.(rows := RowsOutside(s.rows, dropped), partitions := s.partitions - dropped)
  }
}
