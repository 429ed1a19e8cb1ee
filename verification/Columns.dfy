/** A batch as the database receives it: transposed, sixteen columns rather than n rows
    (internal/ingest/writer.go). */
module Columns {
  import opened Instants
  import opened Options
  import opened Observations

  datatype Columns = Columns(
    serviceDate: seq<Date>,
    feedId: seq<string>,
    tripId: seq<string>,
    stopId: seq<string>,
    feedTs: seq<Instant>,
    stopSequence: seq<Option<int>>,
    routeId: seq<Option<string>>,
    directionId: seq<Option<int>>,
    arrivalDelayS: seq<Option<int>>,
    departureDelayS: seq<Option<int>>,
    observedDelayS: seq<Option<int>>,
    tripRel: seq<int>,
    stopTimeRel: seq<int>,
    matched: seq<bool>,
    vehicleId: seq<Option<string>>,
    scheduledAt: seq<Option<Instant>>)
  {
    predicate Even() {
      var n := |feedId|;
      && |serviceDate| == |tripId| == |stopId| == |feedTs| == |stopSequence| == |routeId| == |directionId| == n
      && |arrivalDelayS| == |departureDelayS| == |observedDelayS| == n
      && |tripRel| == |stopTimeRel| == |matched| == |vehicleId| == |scheduledAt| == n
    }

    /** Row i of unnest over the columns; NULL reads as unknown. */
    function Row(i: nat): Observation
      requires Even() && i < |feedId|
    {
      Observation(serviceDate[i], feedId[i], tripId[i], stopId[i], feedTs[i], stopSequence[i], routeId[i].GetOr(""),
                  directionId[i], arrivalDelayS[i], departureDelayS[i], observedDelayS[i], tripRel[i], stopTimeRel[i],
                  matched[i], vehicleId[i].GetOr(""), scheduledAt[i])
    }

    function Unnest(): seq<Observation>
      requires Even()
    {
      seq(|feedId|, i requires 0 <= i < |feedId| => Row(i))
    }
  }

  /** An empty string stands for a value not known: NULL. */
  function NilIfEmpty(s: string): Option<string> { if s == "" then None else Some(s) }

  /** Transposes a batch: unnesting gives back every row, in order, with its statuses narrowed. */
  method ColumnsOf(batch: seq<Observation>) returns (c: Columns)
    ensures c.Even() && c.Unnest() == RowsFor(batch)
  {
    c := Columns([], [], [], [], [], [], [], [], [], [], [], [], [], [], [], []);
    for i := 0 to |batch|
      invariant c.Even() && |c.feedId| == i
      invariant forall j | 0 <= j < i :: c.Row(j) == Narrowed(batch[j])
    {
      var o := batch[i];
      c := Columns(
        c.serviceDate + [o.serviceDate],
        c.feedId + [o.feedId],
        c.tripId + [o.tripId],
        c.stopId + [o.stopId],
        c.feedTs + [o.feedTs],
        c.stopSequence + [o.stopSequence],
        c.routeId + [NilIfEmpty(o.routeId)],
        c.directionId + [o.directionId],
        c.arrivalDelayS + [o.arrivalDelayS],
        c.departureDelayS + [o.departureDelayS],
        c.observedDelayS + [o.observedDelayS],
        c.tripRel + [Int16(o.tripRel)],
        c.stopTimeRel + [Int16(o.stopTimeRel)],
        c.matched + [o.matched],
        c.vehicleId + [NilIfEmpty(o.vehicleId)],
        c.scheduledAt + [o.scheduledAt]);
    }
  }

  /** The database sees the batch itself exactly when every status fits. */
  lemma {:induction false} RoundTripsExactly(c: Columns, batch: seq<Observation>)
    requires c.Even() && c.Unnest() == RowsFor(batch)
    ensures c.Unnest() == batch <==> forall o | o in batch :: Fits(o)
  {
    forall i | 0 <= i < |batch|
      ensures c.Unnest()[i] == batch[i] <==> Fits(batch[i])
    {}
    assert forall o | o in batch :: exists i :: 0 <= i < |batch| && batch[i] == o;
  }
}
