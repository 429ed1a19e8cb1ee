/** Whole runs of the rollup and retention machine. */
module RollupRuns {
  import opened Instants
  import opened Options
  import opened Observations
  import opened RollupQuery
  import opened Rollup

  datatype Event =
    | Store(batch: seq<Observation>)
    | RollUp(now: Instant)
    | Ensure(from: Date, to: Date, refusals: set<Date>)
    | Drop(cutoff: Date, refused: set<Date>)

  /** One step. With retention off, drops are skipped. */
  ghost function Step(cfg: Config, retention: bool, s: State, e: Event): State {
    match e
    case Store(batch) => WithRows(s, batch)
    case RollUp(now) => RolledUp(cfg, s, now)
    case Ensure(from, to, refused) => WithPartitions(s, Creatable(s, from, to, refused))
    case Drop(cutoff, refused) => if retention then WithoutPartitions(s, Droppable(s, cutoff, refused)) else s
  }

  /** The state of a database after a run from its creation. */
  ghost function Run(cfg: Config, retention: bool, run: seq<Event>): State {
    if run == [] then EMPTY
    else Step(cfg, retention, Run(cfg, retention, run[..|run| - 1]), run[|run| - 1])
  }

  /** A run that stores rows from a catalogue only: a row's key always comes with the same row. */
  ghost predicate StoresFrom(catalogue: set<Observation>, run: seq<Event>) {
    forall e, o | e in run && e.Store? && o in e.batch :: o in catalogue
  }

  /** No row is bucketed before the watermark's sentinel. */
  ghost predicate SinceSentinel(catalogue: set<Observation>) {
    forall o | o in catalogue :: SENTINEL <= BucketTime(o)
  }

  // Retention is invisible.

  /** What the API can see of a database: the hourly tables, and how far they reach. */
  ghost predicate SameAnswers(s: State, t: State) {
    s.stops == t.stops && s.routes == t.routes && s.watermark == t.watermark
  }

  /** s is t after some drops: it misses rows only that no later rollup reads. */
  ghost predicate Forgets(catalogue: set<Observation>, s: State, t: State) {
    && s.rows <= t.rows <= catalogue
    && (forall o | o in t.rows - s.rows :: BucketTime(o) < s.watermark)
    && SameAnswers(s, t)
  }

  lemma {:induction false} ForgettingIsNotSeen(cfg: Config, catalogue: set<Observation>, s: State, t: State, now: Instant)
    requires SinceSentinel(catalogue) && Forgets(catalogue, s, t)
    ensures Due(cfg, s, now) == Due(cfg, t, now) && Counted(cfg, s, now) == Counted(cfg, t, now)
  {
    if s.watermark == SENTINEL {
      assert t.rows - s.rows == {};
      assert s.rows == t.rows;
    } else if w :| Due(cfg, s, now) == Some(w) {
      var dates := DatesFor(cfg.loc, w);
      assert RowsRead(dates, w, s.rows) == RowsRead(dates, w, t.rows);
    }
  }

  lemma {:induction false} SameRollup(cfg: Config, s: State, t: State, now: Instant)
    requires SameAnswers(s, t) && Due(cfg, s, now) == Due(cfg, t, now) && Counted(cfg, s, now) == Counted(cfg, t, now)
    ensures var s', t' := RolledUp(cfg, s, now), RolledUp(cfg, t, now);
            SameAnswers(s', t') && s'.rows == s.rows && t'.rows == t.rows
  {}

  lemma {:induction false} RunsForgetOnly(cfg: Config, catalogue: set<Observation>, run: seq<Event>)
    requires UniquelyKeyed(catalogue) && SinceSentinel(catalogue) && StoresFrom(catalogue, run)
    ensures Forgets(catalogue, Run(cfg, true, run), Run(cfg, false, run))
    ensures SENTINEL <= Run(cfg, true, run).watermark && HourAligned(Run(cfg, true, run).watermark)
  {
    if run != [] {
      var before, e := run[..|run| - 1], run[|run| - 1];
      RunsForgetOnly(cfg, catalogue, before);
      StepForgetsOnly(cfg, catalogue, Run(cfg, true, before), Run(cfg, false, before), e);
    }
  }

  lemma {:induction false} StepForgetsOnly(cfg: Config, catalogue: set<Observation>, s: State, t: State, e: Event)
    requires UniquelyKeyed(catalogue) && SinceSentinel(catalogue) && Forgets(catalogue, s, t)
    requires e.Store? ==> forall o | o in e.batch :: o in catalogue
    requires SENTINEL <= s.watermark && HourAligned(s.watermark)
    ensures Forgets(catalogue, Step(cfg, true, s, e), Step(cfg, false, t, e))
    ensures SENTINEL <= Step(cfg, true, s, e).watermark && HourAligned(Step(cfg, true, s, e).watermark)
  {
    match e
    case Store(batch) => StoreForgetsOnly(catalogue, s, t, batch);
    case RollUp(now) => RollUpForgetsOnly(cfg, catalogue, s, t, now);
    case Ensure(_, _, _) =>
    case Drop(cutoff, refused) => DropForgetsOnly(catalogue, s, t, Droppable(s, cutoff, refused));
  }

  lemma {:induction false} StoreForgetsOnly(catalogue: set<Observation>, s: State, t: State, batch: seq<Observation>)
    requires UniquelyKeyed(catalogue) && Forgets(catalogue, s, t) && forall o | o in batch :: o in catalogue
    ensures Forgets(catalogue, WithRows(s, batch), WithRows(t, batch))
  {
    InsertFromCatalogue(catalogue, s.rows, batch);
    InsertFromCatalogue(catalogue, t.rows, batch);
  }

  lemma {:induction false} RollUpForgetsOnly(cfg: Config, catalogue: set<Observation>, s: State, t: State, now: Instant)
    requires SinceSentinel(catalogue) && Forgets(catalogue, s, t) && SENTINEL <= s.watermark && HourAligned(s.watermark)
    ensures Forgets(catalogue, RolledUp(cfg, s, now), RolledUp(cfg, t, now))
    ensures SENTINEL <= RolledUp(cfg, s, now).watermark && HourAligned(RolledUp(cfg, s, now).watermark)
  {
    ForgettingIsNotSeen(cfg, catalogue, s, t, now);
    SameRollup(cfg, s, t, now);
    DueIs(cfg, s, now);
    DueSinceSentinel(cfg, s, now);
    RolledUpIs(cfg, s, now);
  }

  lemma {:induction false} DropForgetsOnly(catalogue: set<Observation>, s: State, t: State, dropped: set<Date>)
    requires Forgets(catalogue, s, t) && forall d | d in dropped :: !Pending(s, d)
    ensures Forgets(catalogue, WithoutPartitions(s, dropped), t)
  {}

  ghost predicate RetentionIsInvisible(cfg: Config, catalogue: set<Observation>) {
    forall run: seq<Event> | StoresFrom(catalogue, run) :: SameAnswers(Run(cfg, true, run), Run(cfg, false, run))
  }

  /** Dropping partitions never changes an hourly table or the watermark, on any run over rows
      from a catalogue, exactly when no row of it is bucketed before the sentinel. */
  lemma {:induction false} RetentionIsInvisibleExactly(cfg: Config, catalogue: set<Observation>)
    requires UniquelyKeyed(catalogue)
    ensures RetentionIsInvisible(cfg, catalogue) <==> SinceSentinel(catalogue)
  {
    if SinceSentinel(catalogue) {
      forall run: seq<Event> | StoresFrom(catalogue, run)
        ensures SameAnswers(Run(cfg, true, run), Run(cfg, false, run))
      {
        RunsForgetOnly(cfg, catalogue, run);
      }
    } else {
      var o :| o in catalogue && BucketTime(o) < SENTINEL;
      var run := LosingRun(cfg, o);
      RetentionSeen(cfg, o);
      assert StoresFrom(catalogue, run) && !SameAnswers(Run(cfg, true, run), Run(cfg, false, run));
    }
  }

  /** Before the first rollup the guard takes every row older than the sentinel for rolled up. */
  ghost function LosingRun(cfg: Config, o: Observation): seq<Event> {
    [Store([o]), Ensure(o.serviceDate, o.serviceDate, {}), Drop(o.serviceDate + 1, {}),
     RollUp(SENTINEL + Hours(1) + cfg.settle)]
  }

  lemma {:induction false} RetentionSeen(cfg: Config, o: Observation)
    requires BucketTime(o) < SENTINEL
    ensures !SameAnswers(Run(cfg, true, LosingRun(cfg, o)), Run(cfg, false, LosingRun(cfg, o)))
  {
    var run := LosingRun(cfg, o);
    RunOfFour(cfg, true, run);
    RunOfFour(cfg, false, run);
    InsertOne({}, o);
    var stored := EMPTY.(rows := {o});
    assert Step(cfg, true, EMPTY, run[0]) == Step(cfg, false, EMPTY, run[0]) == stored;
    var ensured := stored.(partitions := {o.serviceDate});
    assert Step(cfg, true, stored, run[1]) == Step(cfg, false, stored, run[1]) == ensured;
    assert o.serviceDate in Droppable(ensured, o.serviceDate + 1, {});
    assert Step(cfg, true, ensured, run[2]).rows == {};
    assert Step(cfg, false, ensured, run[3]).watermark != SENTINEL;
  }

  lemma {:induction false} RunOfFour(cfg: Config, retention: bool, run: seq<Event>)
    requires |run| == 4
    ensures Run(cfg, retention, run) ==
            Step(cfg, retention, Step(cfg, retention, Step(cfg, retention, Step(cfg, retention,
              EMPTY, run[0]), run[1]), run[2]), run[3])
  {
    RunAt(cfg, retention, run, 0);
    RunAt(cfg, retention, run, 1);
    RunAt(cfg, retention, run, 2);
    assert run[..3] == run[..|run| - 1];
  }

  lemma {:induction false} RunAt(cfg: Config, retention: bool, run: seq<Event>, i: nat)
    requires i < |run|
    ensures Run(cfg, retention, run[..i + 1]) == Step(cfg, retention, Run(cfg, retention, run[..i]), run[i])
  {
    assert run[..i + 1][..i] == run[..i];
  }

  // Windows.

  /** The window event i of a run rolls up. */
  ghost function WindowAt(cfg: Config, run: seq<Event>, i: nat): Option<Window>
    requires i < |run|
  {
    if run[i].RollUp? then Due(cfg, Run(cfg, true, run[..i]), run[i].now) else None
  }

  /** A window starts at the watermark, once there is one, and both its ends are hours. */
  lemma {:induction false} DueIs(cfg: Config, s: State, now: Instant)
    requires HourAligned(s.watermark)
    ensures match Due(cfg, s, now)
            case None => true
            case Some(w) => w.from < w.to && IsHours(w) && (s.watermark != SENTINEL ==> w.from == s.watermark)
  {
    if s.rows != {} {
      var hour := FirstHour(s.rows);
    }
  }

  lemma {:induction false} DueSinceSentinel(cfg: Config, s: State, now: Instant)
    requires SinceSentinel(s.rows) && SENTINEL <= s.watermark
    ensures Due(cfg, s, now).Some? ==> SENTINEL <= Due(cfg, s, now).value.from < Due(cfg, s, now).value.to
  {
    if s.rows != {} {
      var hour := FirstHour(s.rows);
    }
  }

  lemma {:induction false} RolledUpIs(cfg: Config, s: State, now: Instant)
    ensures match Due(cfg, s, now)
            case None => RolledUp(cfg, s, now) == s
            case Some(w) => RolledUp(cfg, s, now).rows == s.rows && RolledUp(cfg, s, now).watermark == w.to
  {}

  /** Every window ends after the sentinel, so that the watermark tells whether there has been one. */
  ghost predicate PastSentinel(cfg: Config, run: seq<Event>) {
    run == [] ||
    var before, e := run[..|run| - 1], run[|run| - 1];
    && PastSentinel(cfg, before)
    && (e.RollUp? && Due(cfg, Run(cfg, true, before), e.now).Some? ==> SENTINEL < Due(cfg, Run(cfg, true, before), e.now).value.to)
  }

  /** They do when no clock is behind the sentinel, whatever is stored. */
  lemma {:induction false} ClocksPastSentinel(cfg: Config, run: seq<Event>)
    requires forall e | e in run && e.RollUp? :: SENTINEL < TruncateHour(e.now - cfg.settle)
    ensures PastSentinel(cfg, run)
  {
    if run != [] {
      var before := run[..|run| - 1];
      assert run[|run| - 1] in run && forall e | e in before :: e in run;
      ClocksPastSentinel(cfg, before);
    }
  }

  /** And when no row is, whatever the clocks. */
  lemma {:induction false} RowsPastSentinel(cfg: Config, catalogue: set<Observation>, run: seq<Event>)
    requires SinceSentinel(catalogue) && StoresFrom(catalogue, run)
    ensures PastSentinel(cfg, run) && Run(cfg, true, run).rows <= catalogue
  {
    if run != [] {
      var before, e := run[..|run| - 1], run[|run| - 1];
      assert e in run && forall d | d in before :: d in run;
      RowsPastSentinel(cfg, catalogue, before);
      WatermarkIs(cfg, before);
      var s := Run(cfg, true, before);
      match e
      case Store(batch) => InsertAddsOnly(s.rows, batch);
      case RollUp(now) =>
        DueSinceSentinel(cfg, s, now);
        RolledUpIs(cfg, s, now);
      case Ensure(_, _, _) =>
      case Drop(_, _) =>
    }
  }

  lemma {:induction false} PastSentinelUntil(cfg: Config, run: seq<Event>, i: nat)
    requires PastSentinel(cfg, run) && i <= |run|
    ensures PastSentinel(cfg, run[..i])
  {
    if i < |run| {
      var n := |run| - 1;
      PastSentinelUntil(cfg, run[..n], i);
      assert run[..n][..i] == run[..i];
    } else {
      assert run[..i] == run;
    }
  }

  lemma {:induction false} WatermarkIs(cfg: Config, run: seq<Event>)
    requires PastSentinel(cfg, run)
    ensures SENTINEL <= Run(cfg, true, run).watermark && HourAligned(Run(cfg, true, run).watermark)
  {
    if run != [] {
      var before, e := run[..|run| - 1], run[|run| - 1];
      WatermarkIs(cfg, before);
      if e.RollUp? {
        DueIs(cfg, Run(cfg, true, before), e.now);
        RolledUpIs(cfg, Run(cfg, true, before), e.now);
      }
    }
  }

  lemma {:induction false} WindowIs(cfg: Config, run: seq<Event>, i: nat)
    requires PastSentinel(cfg, run) && i < |run|
    ensures var s, s' := Run(cfg, true, run[..i]), Run(cfg, true, run[..i + 1]);
            match WindowAt(cfg, run, i)
            case None => SameAnswers(s, s')
            case Some(w) =>
              && w.from < w.to == s'.watermark && SENTINEL < w.to && IsHours(w)
              && (s.watermark != SENTINEL ==> w.from == s.watermark)
  {
    RunAt(cfg, true, run, i);
    PastSentinelUntil(cfg, run, i + 1);
    assert run[..i + 1][..i] == run[..i];
    var s := Run(cfg, true, run[..i]);
    WatermarkIs(cfg, run[..i]);
    if run[i].RollUp? {
      DueIs(cfg, s, run[i].now);
      RolledUpIs(cfg, s, run[i].now);
    }
  }

  /** The watermark never decreases, and moves only when a window is rolled up. */
  lemma {:induction false} WatermarkAdvances(cfg: Config, run: seq<Event>, i: nat, j: nat)
    requires PastSentinel(cfg, run) && i <= j <= |run|
    ensures WatermarkAt(cfg, run, i) <= WatermarkAt(cfg, run, j)
    ensures WatermarkAt(cfg, run, i) == WatermarkAt(cfg, run, j) <==> forall k | i <= k < j :: WindowAt(cfg, run, k).None?
    decreases j
  {
    if i < j {
      WatermarkAdvances(cfg, run, i, j - 1);
      WindowMoves(cfg, run, j - 1);
    }
  }

  ghost function WatermarkAt(cfg: Config, run: seq<Event>, i: nat): Instant
    requires i <= |run|
  {
    Run(cfg, true, run[..i]).watermark
  }

  lemma {:induction false} WindowMoves(cfg: Config, run: seq<Event>, i: nat)
    requires PastSentinel(cfg, run) && i < |run|
    ensures if WindowAt(cfg, run, i).None? then WatermarkAt(cfg, run, i + 1) == WatermarkAt(cfg, run, i)
            else WatermarkAt(cfg, run, i) < WatermarkAt(cfg, run, i + 1)
  {
    PastSentinelUntil(cfg, run, i);
    WatermarkIs(cfg, run[..i]);
    WindowIs(cfg, run, i);
  }

  /** Windows tile: each starts where the one before ended. */
  lemma {:induction false} WindowsTile(cfg: Config, run: seq<Event>, i: nat, j: nat)
    requires PastSentinel(cfg, run) && i < j < |run| && WindowAt(cfg, run, i).Some? && WindowAt(cfg, run, j).Some?
    ensures var v, w := WindowAt(cfg, run, i).value, WindowAt(cfg, run, j).value;
            && v.to <= w.from
            && (v.to == w.from <==> forall k | i < k < j :: WindowAt(cfg, run, k).None?)
  {
    WindowIs(cfg, run, i);
    WindowIs(cfg, run, j);
    WatermarkAdvances(cfg, run, i + 1, j);
  }
}
