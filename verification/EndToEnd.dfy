/** From what a feed said to what the statistics count: matcher, ingestion and rollup together. */
module EndToEnd {
  import opened Options
  import opened Observations
  import opened RollupQuery
  import opened LastWord
  import opened Survivors
  import opened Timetable
  import Dating
  import Matcher
  import opened MatchedRows
  import Pipeline
  import Rollup
  import opened RollupRuns
  import opened RollupCounts

  // Ingestion and the rollup.

  /** Nothing of the visit is on its way, its last admitted observation was not lost, and of those
      admitted and not lost it is the latest. */
  ghost predicate AllSaid(ingest: Pipeline.Config, run: seq<Pipeline.Event>, k: Key) {
    var s := Pipeline.Run(ingest, run);
    && 0 <= ingest.minDelta && k in s.history.offered
    && NothingPending(s, k) && !Lost(ingest, run, k) && LastIsLatest(Surviving(ingest, run, k))
  }

  /** The rollup's database has been given, of the visit, what ingestion wrote. */
  ghost predicate StoredAsIngested(cfg: Rollup.Config, jobs: seq<Event>, i: nat, s: Pipeline.State, k: Key)
    requires i <= |jobs|
  {
    RowsOf(StoredBefore(cfg, jobs, i), k) == RowsOf(s.store, k)
  }

  /** The batch that an event writes, as the database receives it. */
  ghost function BatchWritten(ingest: Pipeline.Config, s: Pipeline.State, e: Pipeline.Event): seq<seq<Observation>> {
    if Pipeline.Enabled(ingest, s, e) && e.Flush? && e.outcome != Pipeline.Failed(false) then [RowsFor(s.batch)] else []
  }

  ghost function BatchesWritten(ingest: Pipeline.Config, run: seq<Pipeline.Event>): seq<seq<Observation>> {
    if run == [] then []
    else
      var before := run[..|run| - 1];
      BatchesWritten(ingest, before) + BatchWritten(ingest, Pipeline.Run(ingest, before), run[|run| - 1])
  }

  function BatchStored(e: Event): seq<seq<Observation>> { if e.Store? then [e.batch] else [] }

  function BatchesStored(jobs: seq<Event>): seq<seq<Observation>> {
    if jobs == [] then [] else BatchesStored(jobs[..|jobs| - 1]) + BatchStored(jobs[|jobs| - 1])
  }

  function InsertAll(batches: seq<seq<Observation>>): set<Observation> {
    if batches == [] then {} else InsertRows(InsertAll(batches[..|batches| - 1]), batches[|batches| - 1])
  }

  lemma {:induction false} InsertAllThen(batches: seq<seq<Observation>>, batch: seq<Observation>)
    ensures InsertAll(batches + [batch]) == InsertRows(InsertAll(batches), batch)
  {
    assert (batches + [batch])[..|batches|] == batches;
  }

  lemma {:induction false} StoreIsInserted(ingest: Pipeline.Config, run: seq<Pipeline.Event>)
    ensures Pipeline.Run(ingest, run).store == InsertAll(BatchesWritten(ingest, run))
  {
    if run != [] {
      var before := run[..|run| - 1];
      StoreIsInserted(ingest, before);
      StepInserts(ingest, Pipeline.Run(ingest, before), run[|run| - 1], BatchesWritten(ingest, before));
    }
  }

  lemma {:induction false} StepInserts(ingest: Pipeline.Config, s: Pipeline.State, e: Pipeline.Event, batches: seq<seq<Observation>>)
    requires s.store == InsertAll(batches)
    ensures Pipeline.After(ingest, s, e).store == InsertAll(batches + BatchWritten(ingest, s, e))
  {
    if BatchWritten(ingest, s, e) == [] {
      assert batches + [] == batches;
    } else {
      InsertAllThen(batches, RowsFor(s.batch));
    }
  }

  lemma {:induction false} RowsAreInserted(cfg: Rollup.Config, jobs: seq<Event>)
    ensures Run(cfg, false, jobs).rows == InsertAll(BatchesStored(jobs))
  {
    if jobs != [] {
      var before, e := jobs[..|jobs| - 1], jobs[|jobs| - 1];
      RowsAreInserted(cfg, before);
      RowsThen(cfg, Run(cfg, false, before), e, BatchesStored(before));
    }
  }

  lemma {:induction false} RowsThen(cfg: Rollup.Config, s: Rollup.State, e: Event, batches: seq<seq<Observation>>)
    requires s.rows == InsertAll(batches)
    ensures Step(cfg, false, s, e).rows == InsertAll(batches + BatchStored(e))
  {
    match e
    case Store(batch) => InsertAllThen(batches, batch);
    case RollUp(now) =>
      RolledUpIs(cfg, s, now);
      assert batches + [] == batches;
    case Ensure(_, _, _) => assert batches + [] == batches;
    case Drop(_, _) => assert batches + [] == batches;
  }

  /** It has when its own run stores the very batches that ingestion wrote, with rollups, new
      partitions and drops in between. */
  lemma {:induction false} WrittenIsStored(ingest: Pipeline.Config, run: seq<Pipeline.Event>, cfg: Rollup.Config, jobs: seq<Event>, i: nat, k: Key)
    requires i <= |jobs| && BatchesStored(jobs[..i]) == BatchesWritten(ingest, run)
    ensures StoredAsIngested(cfg, jobs, i, Pipeline.Run(ingest, run), k)
  {
    StoreIsInserted(ingest, run);
    RowsAreInserted(cfg, jobs[..i]);
  }

  /** In a database's whole run, with its drops, a rollup counts a visit by what the feed last said
      of it: the statistic's statuses, match and delay are those of the last observation offered,
      give or take the filter's threshold, whatever the filter suppressed or forgot, the queue
      dropped before, retention has deleted since, and other visits are like. */
  lemma {:induction false} StatisticIsLastOffer(ingest: Pipeline.Config, run: seq<Pipeline.Event>,
                                                cfg: Rollup.Config, visit: set<Observation>, jobs: seq<Event>, i: nat, o: Observation)
    requires AllSaid(ingest, run, o.Key())
    requires PastSentinel(cfg, jobs) && IsStoredOf(visit, o.Key(), jobs)
    requires i < |jobs| && StoredAsIngested(cfg, jobs, i, Pipeline.Run(ingest, run), o.Key())
    requires VisitIsWellDated(cfg.loc, Pipeline.Run(ingest, run).store, o.Key()) && EachOvertaken(Pipeline.Run(ingest, run).store, o.Key())
    requires o in CountedAt(cfg, jobs, i)
    ensures SaySame(o, Narrowed(Pipeline.Run(ingest, run).history.offered[o.Key()]), ingest.minDelta)
  {
    CountedIn(cfg, jobs, i);
    LastWordIsKept(ingest, run, o.Key());
    SameVisit(cfg, StoredBefore(cfg, jobs, i), Pipeline.Run(ingest, run).store, o);
    CountsLastWordsEverStored(cfg, visit, jobs, i, o);
  }

  /** And a visit whose last word stored falls in the window is counted. */
  lemma {:induction false} LastOfferIsCounted(ingest: Pipeline.Config, run: seq<Pipeline.Event>,
                                              cfg: Rollup.Config, visit: set<Observation>, jobs: seq<Event>, i: nat, k: Key)
    requires AllSaid(ingest, run, k)
    requires PastSentinel(cfg, jobs) && IsStoredOf(visit, k, jobs)
    requires i < |jobs| && StoredAsIngested(cfg, jobs, i, Pipeline.Run(ingest, run), k)
    requires VisitIsWellDated(cfg.loc, Pipeline.Run(ingest, run).store, k) && EachOvertaken(Pipeline.Run(ingest, run).store, k)
    requires WindowAt(cfg, jobs, i).Some?
    requires forall o: Observation | o.Key() == k && IsLastWord(Pipeline.Run(ingest, run).store, o) ::
               WindowAt(cfg, jobs, i).value.Has(BucketTime(o))
    ensures exists o: Observation :: o.Key() == k && o in CountedAt(cfg, jobs, i)
  {
    var store := Pipeline.Run(ingest, run).store;
    LastWordIsKept(ingest, run, k);
    var o: Observation :| o.Key() == k && IsLastWord(store, o);
    SameVisit(cfg, StoredBefore(cfg, jobs, i), store, o);
    CountsLastWordsEverStored(cfg, visit, jobs, i, o);
  }

  lemma {:induction false} SameVisit(cfg: Rollup.Config, rows: set<Observation>, others: set<Observation>, o: Observation)
    requires RowsOf(rows, o.Key()) == RowsOf(others, o.Key())
    requires VisitIsWellDated(cfg.loc, others, o.Key()) && EachOvertaken(others, o.Key())
    ensures VisitIsWellDated(cfg.loc, rows, o.Key()) && EachOvertaken(rows, o.Key())
    ensures IsLastWord(rows, o) <==> IsLastWord(others, o)
  {
    assert forall p: Observation | p.Key() == o.Key() :: p in RowsOf(rows, o.Key()) <==> p in rows;
    assert forall p: Observation | p.Key() == o.Key() :: p in RowsOf(others, o.Key()) <==> p in others;
  }

  // The matcher as well.

  /** The observation comes of an update under the timetable; if the timetable has no time for it and
      the producer dates it, that date is in reach. */
  ghost predicate IsMatched(m: Dating.Settings, s: Schedule, o: Observation) {
    exists u :: o in Matcher.Produced(m, Some(s), u) &&
                (o.scheduledAt.None? && u.startDate.Given? ==> InReach(m.loc, u.startDate.d, u.headerTs))
  }

  /** All that is offered of the visit comes of updates under one timetable, which tells a trip's
      calls apart and has no time as late as 71 hours. */
  ghost predicate MatchedUnder(m: Dating.Settings, s: Schedule, run: seq<Pipeline.Event>, k: Key) {
    && NoTimedStopTwice(s) && TimesBelow(s, SEVENTY_ONE_HOURS_S - 1)
    && forall e | e in run && e.Offer? && e.o.Key() == k :: IsMatched(m, s, e.o)
  }

  lemma {:induction false} MatchedIsWellDated(m: Dating.Settings, s: Schedule, o: Observation)
    requires TimesBelow(s, SEVENTY_ONE_HOURS_S - 1) && IsMatched(m, s, o)
    ensures WellDated(m.loc, Narrowed(o))
  {
    var u :| o in Matcher.Produced(m, Some(s), u) && (o.scheduledAt.None? && u.startDate.Given? ==> InReach(m.loc, u.startDate.d, u.headerTs));
    WellDatedIs(m.loc, Narrowed(o));
    WellDatedIs(m.loc, o);
    RowIsDated(m, Some(s), u, o);
    if o.scheduledAt.Some? || !u.startDate.Given? {
      RowsAreWellDated(m, Some(s), u, SEVENTY_ONE_HOURS_S - 1, o);
    }
  }

  lemma {:induction false} MatchedAgree(m: Dating.Settings, s: Schedule, o: Observation, p: Observation)
    requires NoTimedStopTwice(s) && IsMatched(m, s, o) && IsMatched(m, s, p) && o.Key() == p.Key()
    ensures o.scheduledAt == p.scheduledAt
  {
    var u :| o in Matcher.Produced(m, Some(s), u);
    var v :| p in Matcher.Produced(m, Some(s), v);
    OneScheduledTime(m, s, u, v, o, p);
  }

  /** What survives of a visit was offered. */
  lemma {:induction false} SurvivingWereOffered(ingest: Pipeline.Config, run: seq<Pipeline.Event>, o: Observation)
    requires o in Surviving(ingest, run, o.Key())
    ensures exists e :: e in run && e.Offer? && e.o == o
  {
    var before, e := run[..|run| - 1], run[|run| - 1];
    assert e in run;
    if Loses(ingest, Pipeline.Run(ingest, before), e, o.Key()) {
      LossSurvives(ingest, run, o.Key());
    } else {
      StepSurvives(ingest, run, o.Key());
    }
    if o in Surviving(ingest, before, o.Key()) {
      SurvivingWereOffered(ingest, before, o);
      var d :| d in before && d.Offer? && d.o == o;
      assert d in run;
    }
  }

  /** So every row stored of the visit is one offered, its statuses narrowed. */
  lemma {:induction false} StoredWereOffered(ingest: Pipeline.Config, run: seq<Pipeline.Event>, row: Observation) returns (o: Observation)
    requires row in Pipeline.Run(ingest, run).store
    ensures row == Narrowed(o) && exists e :: e in run && e.Offer? && e.o == o
  {
    var k := row.Key();
    var written := WrittenOf(ingest, run, k);
    StoreIsWritten(ingest, run, k);
    InsertAddsOnly({}, RowsFor(written));
    assert row in RowsOf(Pipeline.Run(ingest, run).store, k);
    var i :| 0 <= i < |written| && RowsFor(written)[i] == row;
    o := written[i];
    assert o in Surviving(ingest, run, k);
    SurvivingWereOffered(ingest, run, o);
  }

  /** The visit's rows, then, are fit for the rollup's query. */
  lemma {:induction false} MatchedIsFit(m: Dating.Settings, s: Schedule, ingest: Pipeline.Config, run: seq<Pipeline.Event>, k: Key)
    requires MatchedUnder(m, s, run, k)
    ensures var store := Pipeline.Run(ingest, run).store; VisitIsWellDated(m.loc, store, k) && Agrees(store, k) && EachOvertaken(store, k)
  {
    var store := Pipeline.Run(ingest, run).store;
    forall row | row in store && row.Key() == k ensures WellDated(m.loc, row) {
      var o := StoredWereOffered(ingest, run, row);
      MatchedIsWellDated(m, s, o);
    }
    forall row, other | row in store && other in store && row.Key() == k && other.Key() == k ensures row.scheduledAt == other.scheduledAt {
      var o := StoredWereOffered(ingest, run, row);
      var p := StoredWereOffered(ingest, run, other);
      MatchedAgree(m, s, o, p);
    }
    AgreeingIsEnough(store, k);
  }

  lemma {:induction false} LastOfferWasMade(ingest: Pipeline.Config, run: seq<Pipeline.Event>, k: Key)
    requires k in Pipeline.Run(ingest, run).history.offered
    ensures exists e :: e in run && e.Offer? && e.o == Pipeline.Run(ingest, run).history.offered[k] && e.o.Key() == k
  {
    var before, e := run[..|run| - 1], run[|run| - 1];
    assert e in run;
    if !(e.Offer? && e.o.Key() == k && Pipeline.Enabled(ingest, Pipeline.Run(ingest, before), e)) {
      OfferedIs(ingest, Pipeline.Run(ingest, before), e, k);
      LastOfferWasMade(ingest, before, k);
      var d :| d in before && d.Offer? && d.o == Pipeline.Run(ingest, before).history.offered[k] && d.o.Key() == k;
      assert d in run;
    }
  }

  lemma {:induction false} OfferedIs(ingest: Pipeline.Config, s: Pipeline.State, e: Pipeline.Event, k: Key)
    requires k in Pipeline.After(ingest, s, e).history.offered
    requires !(e.Offer? && e.o.Key() == k && Pipeline.Enabled(ingest, s, e))
    ensures k in s.history.offered && Pipeline.After(ingest, s, e).history.offered[k] == s.history.offered[k]
  {}

  /** One visit from the updates of a feed to the statistics: what is offered of it and stored of it
      comes of one timetable, and all of it has been said and stored when rollup i comes. */
  ghost predicate Followed(m: Dating.Settings, s: Schedule, ingest: Pipeline.Config, run: seq<Pipeline.Event>,
                           cfg: Rollup.Config, visit: set<Observation>, jobs: seq<Event>, i: nat, k: Key)
    requires i < |jobs|
  {
    && cfg.loc == m.loc && MatchedUnder(m, s, run, k) && AllSaid(ingest, run, k)
    && PastSentinel(cfg, jobs) && IsStoredOf(visit, k, jobs) && Agrees(visit, k)
    && StoredAsIngested(cfg, jobs, i, Pipeline.Run(ingest, run), k)
  }

  /** If the timetable has a time for the visit, the rollup of that time's hour counts it, and no
      other does. */
  lemma {:induction false} MatchedVisitIsCountedOnce(m: Dating.Settings, s: Schedule, ingest: Pipeline.Config, run: seq<Pipeline.Event>,
                                                       cfg: Rollup.Config, visit: set<Observation>, jobs: seq<Event>, i: nat, k: Key)
      returns (o: Observation)
    requires i < |jobs| && Followed(m, s, ingest, run, cfg, visit, jobs, i, k)
    requires var said := Pipeline.Run(ingest, run).history.offered[k];
             said.scheduledAt.Some? && WindowAt(cfg, jobs, i).Some? && WindowAt(cfg, jobs, i).value.Has(said.scheduledAt.value)
    ensures o.Key() == k && o in CountedAt(cfg, jobs, i)
    ensures SaySame(o, Narrowed(Pipeline.Run(ingest, run).history.offered[k]), ingest.minDelta)
    ensures forall j, p | 0 <= j < |jobs| && p in CountedAt(cfg, jobs, j) && p.Key() == k :: j == i && p == o
  {
    o := MatchedVisitIsCounted(m, s, ingest, run, cfg, visit, jobs, i, k);
    forall j, p | 0 <= j < |jobs| && p in CountedAt(cfg, jobs, j) && p.Key() == k ensures j == i && p == o {
      ScheduledCountsOnce(cfg, visit, jobs, i, j, o, p);
    }
  }

  lemma {:induction false} ScheduledCountsOnce(cfg: Rollup.Config, visit: set<Observation>, jobs: seq<Event>, i: nat, j: nat,
                                               o: Observation, p: Observation)
    requires PastSentinel(cfg, jobs) && IsStoredOf(visit, o.Key(), jobs) && Agrees(visit, o.Key()) && o.Key() == p.Key()
    requires i < |jobs| && j < |jobs| && o in CountedAt(cfg, jobs, i) && p in CountedAt(cfg, jobs, j) && o.scheduledAt.Some?
    ensures i == j && o == p
  {
    CountedOfVisit(cfg, visit, jobs, i, o);
    CountedOfVisit(cfg, visit, jobs, j, p);
    OneHourCountsOnce(cfg, visit, jobs, i, j, o, p);
  }

  lemma {:induction false} MatchedVisitIsCounted(m: Dating.Settings, s: Schedule, ingest: Pipeline.Config, run: seq<Pipeline.Event>,
                                                 cfg: Rollup.Config, visit: set<Observation>, jobs: seq<Event>, i: nat, k: Key)
      returns (o: Observation)
    requires i < |jobs| && Followed(m, s, ingest, run, cfg, visit, jobs, i, k)
    requires var said := Pipeline.Run(ingest, run).history.offered[k];
             said.scheduledAt.Some? && WindowAt(cfg, jobs, i).Some? && WindowAt(cfg, jobs, i).value.Has(said.scheduledAt.value)
    ensures o.Key() == k && o in CountedAt(cfg, jobs, i) && o.scheduledAt.Some?
    ensures SaySame(o, Narrowed(Pipeline.Run(ingest, run).history.offered[k]), ingest.minDelta)
  {
    MatchedIsFit(m, s, ingest, run, k);
    LastWordIsKept(ingest, run, k);
    o :| o.Key() == k && IsLastWord(Pipeline.Run(ingest, run).store, o);
    HasScheduledTime(m, s, ingest, run, k, o);
    SameVisit(cfg, StoredBefore(cfg, jobs, i), Pipeline.Run(ingest, run).store, o);
    CountsLastWordsEverStored(cfg, visit, jobs, i, o);
  }

  lemma {:induction false} HasScheduledTime(m: Dating.Settings, s: Schedule, ingest: Pipeline.Config, run: seq<Pipeline.Event>, k: Key, row: Observation)
    requires MatchedUnder(m, s, run, k) && k in Pipeline.Run(ingest, run).history.offered
    requires row.Key() == k && row in Pipeline.Run(ingest, run).store
    ensures row.scheduledAt == Pipeline.Run(ingest, run).history.offered[k].scheduledAt
  {
    LastOfferWasMade(ingest, run, k);
    var o := StoredWereOffered(ingest, run, row);
    MatchedAgree(m, s, o, Pipeline.Run(ingest, run).history.offered[k]);
  }
}
