/** The unit of stored data (internal/ingest/observation.go) and the table it is stored in
    (migrations/0002, 0005 and 0006). */
module Observations {
  import opened Instants
  import opened Options

  /** What a feed said at one time of a trip's call at a stop, and the timetable's word on it. */
  datatype Observation = Observation(
    serviceDate: Date,
    feedId: string,
    tripId: string,
    stopId: string,
    feedTs: Instant,
    stopSequence: Option<int>,
    routeId: string,
    directionId: Option<int>,
    arrivalDelayS: Option<int>,
    departureDelayS: Option<int>,
    observedDelayS: Option<int>,
    tripRel: int,
    stopTimeRel: int,
    matched: bool,
    vehicleId: string,
    scheduledAt: Option<Instant>)
  {
    function Key(): Key { VisitKey(serviceDate, feedId, tripId, stopId) }

    function RowKey(): RowKey { VersionKey(Key(), feedTs) }
  }

  /** A stop visit, whatever is said of it and when. */
  datatype Key = VisitKey(serviceDate: Date, feedId: string, tripId: string, stopId: string)

  /** The primary key of observations. */
  datatype RowKey = VersionKey(key: Key, feedTs: Instant)

  /** No two rows share a primary key. */
  ghost predicate UniquelyKeyed(rows: set<Observation>) {
    forall o, p | o in rows && p in rows && o.RowKey() == p.RowKey() :: o == p
  }

  predicate Holds(rows: set<Observation>, k: RowKey) {
    exists o | o in rows :: o.RowKey() == k
  }

  /** INSERT ... ON CONFLICT DO NOTHING of one row. */
  function InsertRow(rows: set<Observation>, o: Observation): set<Observation> {
    if Holds(rows, o.RowKey()) then rows else rows + {o}
  }

  /** INSERT ... ON CONFLICT DO NOTHING of a batch: the first row with a key wins. */
  function InsertRows(rows: set<Observation>, batch: seq<Observation>): set<Observation> {
    if batch == [] then rows else InsertRow(InsertRows(rows, batch[..|batch| - 1]), batch[|batch| - 1])
  }

  lemma {:induction false} InsertOne(rows: set<Observation>, o: Observation)
    requires !Holds(rows, o.RowKey())
    ensures InsertRows(rows, [o]) == rows + {o}
  {
    assert [o][..0] == [];
  }

  lemma {:induction false} InsertKeepsKeysUnique(rows: set<Observation>, batch: seq<Observation>)
    requires UniquelyKeyed(rows)
    ensures UniquelyKeyed(InsertRows(rows, batch))
  {
    if batch != [] {
      InsertKeepsKeysUnique(rows, batch[..|batch| - 1]);
    }
  }

  /** Inserting again what has been inserted changes nothing, in whatever order it comes. */
  lemma {:induction false} ReplayIsNoOp(rows: set<Observation>, batch: seq<Observation>, replay: seq<Observation>)
    requires forall o | o in replay :: o in batch
    ensures InsertRows(InsertRows(rows, batch), replay) == InsertRows(rows, batch)
  {
    if replay != [] {
      ReplayIsNoOp(rows, batch, replay[..|replay| - 1]);
      InsertHoldsKeys(rows, batch);
    }
  }

  lemma {:induction false} InsertHoldsKeys(rows: set<Observation>, batch: seq<Observation>)
    ensures rows <= InsertRows(rows, batch)
    ensures forall o | o in batch :: Holds(InsertRows(rows, batch), o.RowKey())
  {
    if batch != [] {
      InsertHoldsKeys(rows, batch[..|batch| - 1]);
      var last := batch[|batch| - 1];
      assert forall o | o in batch :: o in batch[..|batch| - 1] || o == last;
    }
  }

  /** When every row ever offered under a key is the same row, inserting is union. */
  lemma {:induction false} InsertFromCatalogue(catalogue: set<Observation>, rows: set<Observation>, batch: seq<Observation>)
    requires UniquelyKeyed(catalogue)
    requires rows <= catalogue && forall o | o in batch :: o in catalogue
    ensures InsertRows(rows, batch) == rows + set o | o in batch
  {
    if batch != [] {
      InsertFromCatalogue(catalogue, rows, batch[..|batch| - 1]);
    }
  }

  /** When every row ever offered of one visit under a key is the same row, inserting is union as far
      as the visit goes, whatever comes of others. */
  lemma {:induction false} InsertOfVisit(visit: set<Observation>, k: Key, rows: set<Observation>, batch: seq<Observation>, o: Observation)
    requires UniquelyKeyed(visit) && o.Key() == k
    requires forall p: Observation | p.Key() == k && (p in rows || p in batch) :: p in visit
    ensures o in InsertRows(rows, batch) <==> o in rows || o in batch
  {
    if batch != [] {
      var init, last := batch[..|batch| - 1], batch[|batch| - 1];
      assert forall p | p in batch :: p in init || p == last;
      InsertOfVisit(visit, k, rows, init, o);
      if o == last && Holds(InsertRows(rows, init), o.RowKey()) {
        var p :| p in InsertRows(rows, init) && p.RowKey() == o.RowKey();
        InsertOfVisit(visit, k, rows, init, p);
      }
    }
  }

  /** Go's conversion to int16: the low sixteen bits, signed. */
  function Int16(v: int): int { (v + 0x8000) % 0x1_0000 - 0x8000 }

  /** An observation as the table's columns hold it: the two statuses are smallints. */
  function Narrowed(o: Observation): (row: Observation)
    ensures row.Key() == o.Key() && row.RowKey() == o.RowKey()
  {
    o.(tripRel := Int16(o.tripRel), stopTimeRel := Int16(o.stopTimeRel))
  }

  /** The statuses fit their columns, as all that the feeds define do. */
  predicate Fits(o: Observation) {
    -0x8000 <= o.tripRel < 0x8000 && -0x8000 <= o.stopTimeRel < 0x8000
  }

  /** The rows a batch becomes. */
  function RowsFor(batch: seq<Observation>): (rows: seq<Observation>)
    ensures |rows| == |batch| && forall i | 0 <= i < |batch| :: rows[i] == Narrowed(batch[i])
    ensures forall o | o in batch :: Narrowed(o) in rows
  {
    var rows := seq(|batch|, i requires 0 <= i < |batch| => Narrowed(batch[i]));
    assert forall i | 0 <= i < |batch| :: rows[i] in rows;
    rows
  }

  /** A row is the last word on its visit when no row of the visit has a later feed timestamp. */
  predicate IsLastWord(rows: set<Observation>, o: Observation) {
    o in rows && forall p | p in rows && p.Key() == o.Key() :: p.feedTs <= o.feedTs
  }

  lemma {:induction false} InsertAddsOnly(rows: set<Observation>, batch: seq<Observation>)
    ensures InsertRows(rows, batch) <= rows + set o | o in batch
  {
    if batch != [] {
      InsertAddsOnly(rows, batch[..|batch| - 1]);
    }
  }
}
