/** What whole runs of the rollup count. */
module RollupCounts {
  import opened Instants
  import opened Zones
  import opened Options
  import opened Observations
  import opened RollupQuery
  import opened RollupTables
  import opened Rollup
  import opened RollupRuns

  /** The rows event i of a run counts. */
  ghost function CountedAt(cfg: Config, run: seq<Event>, i: nat): set<Observation>
    requires i < |run|
  {
    if run[i].RollUp? then Counted(cfg, Run(cfg, true, run[..i]), run[i].now) else {}
  }

  /** Every row stored before event i, dropped since or not. */
  ghost function StoredBefore(cfg: Config, run: seq<Event>, i: nat): set<Observation>
    requires i <= |run|
  {
    Run(cfg, false, run[..i]).rows
  }

  lemma {:induction false} CountedIn(cfg: Config, run: seq<Event>, i: nat)
    requires i < |run|
    ensures match WindowAt(cfg, run, i)
            case None => CountedAt(cfg, run, i) == {}
            case Some(w) => CountedAt(cfg, run, i) == Finals(DatesFor(cfg.loc, w), w, Run(cfg, true, run[..i]).rows)
  {}

  /** All rows a run stores of a visit: one to a key, and none bucketed before the sentinel. */
  ghost predicate IsStoredOf(visit: set<Observation>, k: Key, run: seq<Event>) {
    && UniquelyKeyed(visit) && SinceSentinel(visit)
    && forall e, o | e in run && e.Store? && o in e.batch && o.Key() == k :: o in visit
  }

  /** Of the visit s misses rows only that no later rollup reads. */
  ghost predicate ForgetsOf(visit: set<Observation>, k: Key, s: State, t: State) {
    forall o: Observation | o.Key() == k ::
      && (o in s.rows ==> o in t.rows)
      && (o in t.rows ==> o in visit)
      && (o in t.rows && o !in s.rows ==> BucketTime(o) < s.watermark)
  }

  /** Whatever becomes of other visits, retention takes of this one what is rolled up. */
  lemma {:induction false} VisitIsForgottenOnly(cfg: Config, visit: set<Observation>, k: Key, run: seq<Event>)
    requires PastSentinel(cfg, run) && IsStoredOf(visit, k, run)
    ensures ForgetsOf(visit, k, Run(cfg, true, run), Run(cfg, false, run))
  {
    if run != [] {
      var before, e := run[..|run| - 1], run[|run| - 1];
      assert e in run && forall d | d in before :: d in run;
      VisitIsForgottenOnly(cfg, visit, k, before);
      StepForgetsVisitOnly(cfg, visit, k, before, e, Run(cfg, false, before));
    }
  }

  lemma {:induction false} StepForgetsVisitOnly(cfg: Config, visit: set<Observation>, k: Key, before: seq<Event>, e: Event, t: State)
    requires PastSentinel(cfg, before) && UniquelyKeyed(visit) && ForgetsOf(visit, k, Run(cfg, true, before), t)
    requires e.RollUp? && Due(cfg, Run(cfg, true, before), e.now).Some? ==>
               SENTINEL < Due(cfg, Run(cfg, true, before), e.now).value.to
    requires e.Store? ==> forall o | o in e.batch && o.Key() == k :: o in visit
    ensures ForgetsOf(visit, k, Step(cfg, true, Run(cfg, true, before), e), Step(cfg, false, t, e))
  {
    var s := Run(cfg, true, before);
    match e
    case Store(batch) => StoreForgetsVisitOnly(visit, k, s, t, batch);
    case RollUp(now) =>
      WatermarkIs(cfg, before);
      DueIs(cfg, s, now);
      RolledUpIs(cfg, s, now);
      RolledUpIs(cfg, t, now);
    case Ensure(_, _, _) =>
    case Drop(cutoff, refused) => DropForgetsVisitOnly(visit, k, s, t, Droppable(s, cutoff, refused));
  }

  lemma {:induction false} StoreForgetsVisitOnly(visit: set<Observation>, k: Key, s: State, t: State, batch: seq<Observation>)
    requires UniquelyKeyed(visit) && ForgetsOf(visit, k, s, t) && forall o | o in batch && o.Key() == k :: o in visit
    ensures ForgetsOf(visit, k, WithRows(s, batch), WithRows(t, batch))
  {
    forall o: Observation | o.Key() == k
      ensures o in InsertRows(s.rows, batch) <==> o in s.rows || o in batch
      ensures o in InsertRows(t.rows, batch) <==> o in t.rows || o in batch
    {
      InsertOfVisit(visit, k, s.rows, batch, o);
      InsertOfVisit(visit, k, t.rows, batch, o);
    }
  }

  lemma {:induction false} DropForgetsVisitOnly(visit: set<Observation>, k: Key, s: State, t: State, dropped: set<Date>)
    requires ForgetsOf(visit, k, s, t) && forall d | d in dropped :: !Pending(s, d)
    ensures ForgetsOf(visit, k, WithoutPartitions(s, dropped), t)
  {}

  /** Before event i the database lacks, of the visit's rows ever stored, none in reach of a window
      that event i may roll up. */
  lemma {:induction false} ForgottenBefore(cfg: Config, visit: set<Observation>, k: Key, run: seq<Event>, i: nat)
    requires PastSentinel(cfg, run) && IsStoredOf(visit, k, run) && i < |run|
    ensures ForgetsOf(visit, k, Run(cfg, true, run[..i]), Run(cfg, false, run[..i]))
    ensures WindowAt(cfg, run, i).Some? ==> forall o: Observation |
              o.Key() == k && o in StoredBefore(cfg, run, i) && o !in Run(cfg, true, run[..i]).rows ::
              BucketTime(o) < WindowAt(cfg, run, i).value.from
  {
    PastSentinelUntil(cfg, run, i);
    assert forall e | e in run[..i] :: e in run;
    VisitIsForgottenOnly(cfg, visit, k, run[..i]);
    WindowIs(cfg, run, i);
  }

  /** Of a visit a rollup counts just the last of all its rows ever stored, dropped since or not,
      if that is bucketed in the window: no other visit needs to be in order for it. */
  lemma {:induction false} CountsLastWordsEverStored(cfg: Config, visit: set<Observation>, run: seq<Event>, i: nat, o: Observation)
    requires PastSentinel(cfg, run) && IsStoredOf(visit, o.Key(), run)
    requires i < |run| && WindowAt(cfg, run, i).Some?
    requires VisitIsWellDated(cfg.loc, StoredBefore(cfg, run, i), o.Key()) && EachOvertaken(StoredBefore(cfg, run, i), o.Key())
    ensures o in CountedAt(cfg, run, i) <==> o in Within(WindowAt(cfg, run, i).value, LastWords(StoredBefore(cfg, run, i)))
  {
    var w := WindowAt(cfg, run, i).value;
    CountedIn(cfg, run, i);
    WindowIs(cfg, run, i);
    ForgottenBefore(cfg, visit, o.Key(), run, i);
    ForgottenRowsDoNotMatter(cfg.loc, w, Run(cfg, true, run[..i]).rows, StoredBefore(cfg, run, i), o);
  }

  lemma {:induction false} LastWordExists(rows: set<Observation>, o: Observation)
    requires o in rows
    ensures exists p: Observation :: p.Key() == o.Key() && IsLastWord(rows, p)
    decreases rows
  {
    if p :| p in rows && p.Key() == o.Key() && o.feedTs < p.feedTs {
      LastWordExists(rows - {o}, p);
      var q: Observation :| q.Key() == p.Key() && IsLastWord(rows - {o}, q);
      assert IsLastWord(rows, q);
    } else {
      assert IsLastWord(rows, o);
    }
  }

  /** A visit that keeps to one hour, with a row stored when that hour is rolled up, is counted
      then, in that hour, by its last row stored until then; and no other run counts it. */
  lemma {:induction false} VisitCountedOnce(cfg: Config, visit: set<Observation>, run: seq<Event>, i: nat, o: Observation)
    requires PastSentinel(cfg, run) && IsStoredOf(visit, o.Key(), run)
    requires KeepsToOneHour(visit, o.Key()) && WellDated(cfg.loc, o)
    requires i < |run| && WindowAt(cfg, run, i).Some? && o in StoredBefore(cfg, run, i)
    requires WindowAt(cfg, run, i).value.Has(BucketTime(o))
    ensures exists p :: p in CountedAt(cfg, run, i) && p.Key() == o.Key() &&
                        IsLastWord(StoredBefore(cfg, run, i), p) && Hour(p) == Hour(o)
    ensures forall j, p | 0 <= j < |run| && p in CountedAt(cfg, run, j) && p.Key() == o.Key() :: j == i
  {
    var stored, w := StoredBefore(cfg, run, i), WindowAt(cfg, run, i).value;
    ForgottenBefore(cfg, visit, o.Key(), run, i);
    WindowIs(cfg, run, i);
    LastWordExists(stored, o);
    var last: Observation :| last.Key() == o.Key() && IsLastWord(stored, last);
    OneHourIsWellDated(cfg.loc, visit, stored, o);
    AgreeingIsEnough(stored, o.Key());
    HourInWindow(w, BucketTime(o));
    HourInWindow(w, BucketTime(last));
    CountsLastWordsEverStored(cfg, visit, run, i, last);
    forall j, p | 0 <= j < |run| && p in CountedAt(cfg, run, j) && p.Key() == o.Key() ensures j == i {
      CountedOfVisit(cfg, visit, run, j, p);
      OneHourOneRun(cfg, run, i, j, o, p);
    }
  }

  lemma {:induction false} OneHourIsWellDated(loc: Zone, visit: set<Observation>, rows: set<Observation>, o: Observation)
    requires o in rows && forall p | p in rows && p.Key() == o.Key() :: p in visit
    requires KeepsToOneHour(visit, o.Key()) && WellDated(loc, o)
    ensures VisitIsWellDated(loc, rows, o.Key()) && KeepsToOneHour(rows, o.Key())
  {}

  lemma {:induction false} OneHourOneRun(cfg: Config, run: seq<Event>, i: nat, j: nat, o: Observation, p: Observation)
    requires PastSentinel(cfg, run)
    requires i < |run| && WindowAt(cfg, run, i).Some? && WindowAt(cfg, run, i).value.Has(BucketTime(o))
    requires j < |run| && WindowAt(cfg, run, j).Some? && WindowAt(cfg, run, j).value.Has(BucketTime(p))
    requires Hour(o) == Hour(p)
    ensures i == j
  {
    WindowIs(cfg, run, i);
    WindowIs(cfg, run, j);
    HourInWindow(WindowAt(cfg, run, i).value, BucketTime(o));
    HourInWindow(WindowAt(cfg, run, j).value, BucketTime(p));
    WindowsDisjoint(cfg, run, i, j, Hour(o));
  }

  /** So a visit whose rows share one scheduled time is counted exactly once, in its scheduled hour. */
  lemma {:induction false} ScheduledVisitCountedOnce(cfg: Config, visit: set<Observation>, run: seq<Event>, i: nat, o: Observation)
    requires PastSentinel(cfg, run) && IsStoredOf(visit, o.Key(), run)
    requires o.scheduledAt.Some? && Agrees(visit, o.Key()) && WellDated(cfg.loc, o)
    requires i < |run| && WindowAt(cfg, run, i).Some? && o in StoredBefore(cfg, run, i)
    requires WindowAt(cfg, run, i).value.Has(o.scheduledAt.value)
    ensures exists p :: p in CountedAt(cfg, run, i) && p.Key() == o.Key() &&
                        IsLastWord(StoredBefore(cfg, run, i), p) && Hour(p) == TruncateHour(o.scheduledAt.value)
    ensures forall j, p | 0 <= j < |run| && p in CountedAt(cfg, run, j) && p.Key() == o.Key() :: j == i
  {
    ForgottenBefore(cfg, visit, o.Key(), run, i);
    assert o in visit;
    VisitCountedOnce(cfg, visit, run, i, o);
  }

  lemma {:induction false} CountedOfVisit(cfg: Config, visit: set<Observation>, run: seq<Event>, i: nat, o: Observation)
    requires PastSentinel(cfg, run) && IsStoredOf(visit, o.Key(), run)
    requires i < |run| && o in CountedAt(cfg, run, i)
    ensures o in visit && WindowAt(cfg, run, i).Some? && WindowAt(cfg, run, i).value.Has(BucketTime(o))
    ensures var w := WindowAt(cfg, run, i).value;
            IsLastWord(RowsRead(DatesFor(cfg.loc, w), w, Run(cfg, true, run[..i]).rows), o)
  {
    CountedIn(cfg, run, i);
    ForgottenBefore(cfg, visit, o.Key(), run, i);
  }

  /** An hour is rolled up at most once. */
  lemma {:induction false} WindowsDisjoint(cfg: Config, run: seq<Event>, i: nat, j: nat, t: Instant)
    requires PastSentinel(cfg, run)
    requires i < |run| && WindowAt(cfg, run, i).Some? && WindowAt(cfg, run, i).value.Has(t)
    requires j < |run| && WindowAt(cfg, run, j).Some? && WindowAt(cfg, run, j).value.Has(t)
    ensures i == j
  {
    if i < j {
      WindowsTile(cfg, run, i, j);
    } else if j < i {
      WindowsTile(cfg, run, j, i);
    }
  }

  lemma {:induction false} HourInWindow(w: Window, t: Instant)
    requires HourAligned(w.from) && HourAligned(w.to)
    ensures w.Has(t) <==> w.Has(TruncateHour(t))
  {}

  // Counting a visit twice.

  ghost predicate CountsAtMostOnce(cfg: Config, visit: set<Observation>, k: Key) {
    forall run: seq<Event>, i, j, o, p |
      PastSentinel(cfg, run) && IsStoredOf(visit, k, run) && 0 <= i < |run| && 0 <= j < |run| &&
      o in CountedAt(cfg, run, i) && p in CountedAt(cfg, run, j) && o.Key() == k && p.Key() == k ::
      i == j && o == p
  }

  /** No run can count a visit twice exactly when the visit keeps to one hour: an unscheduled visit
      that the feed mentions again after its hour was rolled up is counted again. */
  lemma {:induction false} AtMostOnceExactly(cfg: Config, visit: set<Observation>, k: Key)
    requires UniquelyKeyed(visit) && SinceSentinel(visit) && VisitIsWellDated(cfg.loc, visit, k)
    ensures CountsAtMostOnce(cfg, visit, k) <==> KeepsToOneHour(visit, k)
  {
    if KeepsToOneHour(visit, k) {
      forall run: seq<Event>, i, j, o, p |
        PastSentinel(cfg, run) && IsStoredOf(visit, k, run) && 0 <= i < |run| && 0 <= j < |run| &&
        o in CountedAt(cfg, run, i) && p in CountedAt(cfg, run, j) && o.Key() == k && p.Key() == k
        ensures i == j && o == p
      {
        CountedOfVisit(cfg, visit, run, i, o);
        CountedOfVisit(cfg, visit, run, j, p);
        OneHourCountsOnce(cfg, visit, run, i, j, o, p);
      }
    } else {
      TwoHoursCountTwice(cfg, visit, k);
    }
  }

  lemma {:induction false} TwoHoursCountTwice(cfg: Config, visit: set<Observation>, k: Key)
    requires UniquelyKeyed(visit) && SinceSentinel(visit) && VisitIsWellDated(cfg.loc, visit, k)
    requires !KeepsToOneHour(visit, k)
    ensures !CountsAtMostOnce(cfg, visit, k)
  {
    var o, p :| o in visit && p in visit && o.Key() == k && p.Key() == k && Hour(o) < Hour(p);
    assert o.RowKey() != p.RowKey();
    CountedTwice(cfg, o, p);
    RecountingStores(cfg, visit, o, p);
    SeenTwice(cfg, visit, k, RecountingRun(cfg, o, p), o, p);
  }

  lemma {:induction false} SeenTwice(cfg: Config, visit: set<Observation>, k: Key, run: seq<Event>, o: Observation, p: Observation)
    requires PastSentinel(cfg, run) && IsStoredOf(visit, k, run) && |run| == 4
    requires o in CountedAt(cfg, run, 1) && p in CountedAt(cfg, run, 3) && o.Key() == k && p.Key() == k
    ensures !CountsAtMostOnce(cfg, visit, k)
  {
    var i, j := 1, 3;
    assert o in CountedAt(cfg, run, i) && p in CountedAt(cfg, run, j);
  }

  lemma {:induction false} OneHourCountsOnce(cfg: Config, visit: set<Observation>, run: seq<Event>, i: nat, j: nat, o: Observation, p: Observation)
    requires PastSentinel(cfg, run) && IsStoredOf(visit, o.Key(), run)
    requires i < |run| && j < |run| && o in CountedAt(cfg, run, i) && p in CountedAt(cfg, run, j)
    requires o.Key() == p.Key() && Hour(o) == Hour(p)
    ensures i == j && o == p
  {
    CountedOfVisit(cfg, visit, run, i, o);
    CountedOfVisit(cfg, visit, run, j, p);
    OneHourOneRun(cfg, run, i, j, o, p);
    assert o.RowKey() == p.RowKey();
  }

  /** Rolls an hour up before a later word about one of its visits arrives. */
  ghost function RecountingRun(cfg: Config, o: Observation, p: Observation): seq<Event> {
    [Store([o]), RollUp(Hour(o) + Hours(1) + cfg.settle), Store([p]), RollUp(Hour(p) + Hours(1) + cfg.settle)]
  }

  lemma {:induction false} RecountingStores(cfg: Config, visit: set<Observation>, o: Observation, p: Observation)
    requires UniquelyKeyed(visit) && SinceSentinel(visit) && o in visit && p in visit
    ensures IsStoredOf(visit, o.Key(), RecountingRun(cfg, o, p)) && PastSentinel(cfg, RecountingRun(cfg, o, p))
  {
    var run := RecountingRun(cfg, o, p);
    assert run[0].batch == [o] && run[2].batch == [p];
    RowsPastSentinel(cfg, {o, p}, run);
  }

  lemma {:induction false} CountedTwice(cfg: Config, o: Observation, p: Observation)
    requires WellDated(cfg.loc, o) && WellDated(cfg.loc, p) && SENTINEL <= BucketTime(o)
    requires o.Key() == p.Key() && o.feedTs != p.feedTs && Hour(o) < Hour(p)
    ensures var run := RecountingRun(cfg, o, p);
            o in CountedAt(cfg, run, 1) && p in CountedAt(cfg, run, 3)
  {
    var run := RecountingRun(cfg, o, p);
    RunAt(cfg, true, run, 0);
    InsertOne({}, o);
    var first := Run(cfg, true, run[..1]);
    assert first == EMPTY.(rows := {o});
    CountsNewest(cfg, first, o, run[1].now);
    RolledUpIs(cfg, first, run[1].now);
    RunAt(cfg, true, run, 1);
    CountedAgain(cfg, o, p, run);
  }

  lemma {:induction false} CountedAgain(cfg: Config, o: Observation, p: Observation, run: seq<Event>)
    requires WellDated(cfg.loc, o) && WellDated(cfg.loc, p) && SENTINEL <= BucketTime(o)
    requires o.Key() == p.Key() && o.feedTs != p.feedTs && Hour(o) < Hour(p)
    requires |run| == 4 && run[2] == Store([p]) && run[3] == RollUp(Hour(p) + Hours(1) + cfg.settle)
    requires var between := Run(cfg, true, run[..2]);
             between.rows == {o} && between.watermark == Hour(o) + Hours(1)
    ensures p in CountedAt(cfg, run, 3)
  {
    var between := Run(cfg, true, run[..2]);
    RunAt(cfg, true, run, 2);
    InsertOne({o}, p);
    var second := between.(rows := {o} + {p});
    assert Run(cfg, true, run[..2 + 1]) == second;
    CountsSecond(cfg, second, o, p, run[3].now);
  }

  lemma {:induction false} CountsSecond(cfg: Config, s: State, o: Observation, p: Observation, now: Instant)
    requires WellDated(cfg.loc, p) && SENTINEL <= BucketTime(o) && Hour(o) < Hour(p)
    requires s.rows == {o, p} && s.watermark == Hour(o) + Hours(1) && now == Hour(p) + Hours(1) + cfg.settle
    ensures p in Counted(cfg, s, now)
  {
    HoursApart(BucketTime(o), BucketTime(p));
    CountsNewest(cfg, s, p, now);
  }

  lemma {:induction false} HoursApart(t: Instant, u: Instant)
    requires TruncateHour(t) < TruncateHour(u)
    ensures TruncateHour(t) + Hours(1) <= TruncateHour(u) && t < TruncateHour(u) && HourAligned(TruncateHour(t) + Hours(1))
  {}

  /** A rollup of everything due up to the hour of a row counts it when every other row is older
      than the watermark. */
  lemma {:induction false} CountsNewest(cfg: Config, s: State, o: Observation, now: Instant)
    requires WellDated(cfg.loc, o) && o in s.rows && SENTINEL <= BucketTime(o)
    requires now == Hour(o) + Hours(1) + cfg.settle
    requires if s.watermark == SENTINEL then s.rows == {o} else s.watermark <= Hour(o) && HourAligned(s.watermark)
    requires forall p | p in s.rows && p != o :: BucketTime(p) < s.watermark
    ensures var from := if s.watermark == SENTINEL then Hour(o) else s.watermark;
            Due(cfg, s, now) == Some(Window(from, Hour(o) + Hours(1)))
    ensures o in Counted(cfg, s, now)
  {
    var from := if s.watermark == SENTINEL then Hour(o) else s.watermark;
    assert Due(cfg, s, now) == Some(Window(from, Hour(o) + Hours(1)));
    FindsNewest(cfg.loc, Window(from, Hour(o) + Hours(1)), s.rows, o);
  }

  lemma {:induction false} FindsNewest(loc: Zone, w: Window, rows: set<Observation>, o: Observation)
    requires WellDated(loc, o) && o in rows && IsHours(w) && w.Has(BucketTime(o))
    requires forall p | p in rows && p != o :: BucketTime(p) < w.from
    ensures o in Finals(DatesFor(loc, w), w, rows)
  {
    EveryWindowReads(loc, w, o);
    var read := RowsRead(DatesFor(loc, w), w, rows);
    assert o in read && forall p | p in read :: p == o;
  }
}
