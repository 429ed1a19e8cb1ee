/** What the rollup may rely on in the rows that come of the matcher. */
module MatchedRows {
  import opened Instants
  import opened Options
  import opened ServiceTime
  import opened Observations
  import opened RollupQuery
  import opened Timetable
  import opened Dating
  import opened Matcher

  // Their service dates.

  ghost predicate TimesBelow(s: Schedule, maxSeconds: int) {
    forall id, i | id in s.trips && 0 <= i < |s.trips[id].stops| ::
      s.trips[id].stops[i].Scheduled() == NO_TIME || 0 <= s.trips[id].stops[i].Scheduled() <= maxSeconds
  }

  lemma {:induction false} PickedIsCandidate(m: Settings, s: Schedule, t: Trip, cands: seq<Date>, ref: Instant, scheduledS: StopSeconds)
    requires cands != []
    ensures Picked(m, s, t, cands, ref, scheduledS) in cands
  {
    var running := Running(s, t, cands);
    FirstNearIs(m, t, running, ref, scheduledS);
    forall d | d in running ensures d in cands {
      RunningAre(s, t, cands, d);
    }
  }

  /** The rollup reads the matcher's rows in whatever window they are bucketed: a scheduled row
      however it was dated, and an unscheduled one unless the producer gave it its date. */
  lemma {:induction false} RowsAreWellDated(m: Settings, sched: Option<Schedule>, u: Update, maxSeconds: int, o: Observation)
    requires maxSeconds < SEVENTY_ONE_HOURS_S && (sched.Some? ==> TimesBelow(sched.value, maxSeconds))
    requires o in Produced(m, sched, u) && (o.scheduledAt.Some? || u.startDate.Absent?)
    ensures Dated(m.loc, maxSeconds, o) && WellDated(m.loc, o)
  {
    CandidatesAreNear(m, u);
    RowIsDated(m, sched, u, o);
    if o.scheduledAt.Some? {
      RowsArePlaced(m, sched.value, u, o);
    }
    DatesReadSuffice(m.loc, HourOf(o), maxSeconds, o);
  }

  lemma {:induction false} CandidatesAreNear(m: Settings, u: Update)
    ensures u.startDate.Absent? ==> forall d | d in DatesOf(m, u) :: OwningDay(m.loc, u.headerTs) - 1 <= d <= OwningDay(m.loc, u.headerTs)
  {}

  lemma {:induction false} RowIsDated(m: Settings, sched: Option<Schedule>, u: Update, o: Observation)
    requires o in Produced(m, sched, u)
    ensures o.serviceDate in DatesOf(m, u) && o.feedTs == u.headerTs
  {
    if OnTimetable(sched, u) {
      var s, t := sched.value, TripOf(sched, u);
      forall ref, scheduledS: StopSeconds ensures DateOf(m, s, t, u, ref, scheduledS) in DatesOf(m, u) {
        PickedIsCandidate(m, s, t, DatesOf(m, u), ref, scheduledS);
      }
    }
  }

  // Their scheduled times.

  /** The row is for a call of the trip, and has its time, or is for none the timetable can tell. */
  ghost predicate PlacedOn(m: Settings, t: Trip, o: Observation) {
    || (exists i :: CallsAt(t, i, o.stopId) && o.scheduledAt == ScheduledAt(m.loc, o.serviceDate, t.stops[i]))
    || (o.scheduledAt == None && o.stopId != "" && (CallsTwiceAt(t, o.stopId) || forall i :: !CallsAt(t, i, o.stopId)))
  }

  lemma {:induction false} RowsArePlaced(m: Settings, s: Schedule, u: Update, o: Observation)
    requires o in Produced(m, Some(s), u)
    ensures o.tripId == u.tripId
    ensures if u.tripId in s.trips then PlacedOn(m, s.trips[u.tripId], o) else o.scheduledAt == None
  {
    if u.tripId in s.trips {
      var t := s.trips[u.tripId];
      match JudgedOn(m, s, t, u)
      case Cancelled(_) =>
        var d := DateOf(m, s, t, u, u.headerTs, NO_TIME);
        var i :| 0 <= i < |t.stops| && o == CancelledVisits(m.loc, t, u, d)[i];
        assert CallsAt(t, i, o.stopId);
      case FullMatch(_, _) =>
        assert CallsAt(t, Resolved(t, u.stopSequence, u.stopId).value, o.stopId);
      case TripOnly(_) =>
        UnresolvedExactly(t, u.stopSequence, u.stopId);
      case _ =>
    }
  }

  /** Two calls of a trip at one stop: either could be meant by an update of the stop, and both are
      by one of the whole trip. */
  predicate Confusable(t: Trip, i: int, j: int) {
    0 <= i < |t.stops| && 0 <= j < |t.stops| && i != j && t.stops[i].stopId == t.stops[j].stopId
  }

  /** No scheduled time tells confusable calls apart. */
  ghost predicate NoTimedStopTwice(s: Schedule) {
    forall id, i, j | id in s.trips && Confusable(s.trips[id], i, j) ::
      var st, other := s.trips[id].stops[i], s.trips[id].stops[j];
      st.Scheduled() == other.Scheduled() && (st.stopId != "" ==> st.Scheduled() == NO_TIME)
  }

  /** All rows made of a visit of the feed at the two header timestamps agree on its scheduled time. */
  ghost predicate ProducesHomogeneous(m: Settings, s: Schedule, feedId: string, ts: Instant, ts': Instant) {
    forall u: Update, v: Update, o: Observation, p: Observation |
      && u.headerTs == ts && v.headerTs == ts' && u.feedId == v.feedId == feedId
      && o in Produced(m, Some(s), u) && p in Produced(m, Some(s), v) && o.Key() == p.Key() ::
      o.scheduledAt == p.scheduledAt
  }

  /** All rows of a visit agree on its scheduled time, as the rollup's query needs, exactly when no
      trip of the timetable calls at a stop twice with a time to tell; and that whichever the feed
      and whenever its two polls. */
  lemma {:induction false} HomogeneousExactly(m: Settings, s: Schedule, feedId: string, ts: Instant, ts': Instant)
    ensures ProducesHomogeneous(m, s, feedId, ts, ts') <==> NoTimedStopTwice(s)
  {
    if NoTimedStopTwice(s) {
      forall u: Update, v: Update, o: Observation, p: Observation |
        o in Produced(m, Some(s), u) && p in Produced(m, Some(s), v) && o.Key() == p.Key()
        ensures o.scheduledAt == p.scheduledAt
      {
        OneScheduledTime(m, s, u, v, o, p);
      }
    } else {
      var id, i, j :| id in s.trips && Confusable(s.trips[id], i, j) &&
        var st, other := s.trips[id].stops[i], s.trips[id].stops[j];
        !(st.Scheduled() == other.Scheduled() && (st.stopId != "" ==> st.Scheduled() == NO_TIME));
      ConfusedRows(m, s, feedId, ts, ts', id, i, j);
    }
  }

  lemma {:induction false} OneScheduledTime(m: Settings, s: Schedule, u: Update, v: Update, o: Observation, p: Observation)
    requires NoTimedStopTwice(s) && o in Produced(m, Some(s), u) && p in Produced(m, Some(s), v) && o.Key() == p.Key()
    ensures o.scheduledAt == p.scheduledAt
  {
    RowsArePlaced(m, s, u, o);
    RowsArePlaced(m, s, v, p);
    if o.tripId in s.trips {
      PlacesAgree(m, s, o.tripId, o, p);
    }
  }

  lemma {:induction false} PlacesAgree(m: Settings, s: Schedule, id: string, o: Observation, p: Observation)
    requires NoTimedStopTwice(s) && id in s.trips && PlacedOn(m, s.trips[id], o) && PlacedOn(m, s.trips[id], p)
    requires o.Key() == p.Key()
    ensures o.scheduledAt == p.scheduledAt
  {
    var t := s.trips[id];
    forall i, j | CallsAt(t, i, o.stopId) && CallsAt(t, j, o.stopId)
      ensures t.stops[i].Scheduled() == t.stops[j].Scheduled()
      ensures i != j && o.stopId != "" ==> t.stops[i].Scheduled() == NO_TIME
    {
      assert i != j ==> Confusable(t, i, j);
    }
  }

  /** An update of a whole trip, cancelled, or of one of its stops. */
  function SomeUpdate(feedId: string, ts: Instant, id: string, stopId: string, cancelled: bool): Update {
    Update(feedId, ts, id, "", Given(0), None, "", if cancelled then TRIP_CANCELED else 0, cancelled, None, stopId, 0, None, None, None, None)
  }

  lemma {:induction false} ConfusedRows(m: Settings, s: Schedule, feedId: string, ts: Instant, ts': Instant, id: string, i: int, j: int)
    requires id in s.trips && Confusable(s.trips[id], i, j)
    requires var st, other := s.trips[id].stops[i], s.trips[id].stops[j];
             !(st.Scheduled() == other.Scheduled() && (st.stopId != "" ==> st.Scheduled() == NO_TIME))
    ensures !ProducesHomogeneous(m, s, feedId, ts, ts')
  {
    var t := s.trips[id];
    var k := VisitKey(0, feedId, id, t.stops[i].stopId);
    var u := SomeUpdate(feedId, ts, id, "", true);
    var v, w := SomeUpdate(feedId, ts', id, "", true), SomeUpdate(feedId, ts', id, t.stops[i].stopId, false);
    var o := CancelledRow(m, s, u, i);
    var p := CancelledRow(m, s, v, j);
    if o.scheduledAt == p.scheduledAt {
      var q := StopRow(m, s, w, i, j);
      assert o.Key() == q.Key() == k;
    } else {
      assert o.Key() == p.Key() == k;
    }
  }

  lemma {:induction false} CancelledRow(m: Settings, s: Schedule, u: Update, i: int) returns (o: Observation)
    requires u.tripId in s.trips && 0 <= i < |s.trips[u.tripId].stops|
    requires u == SomeUpdate(u.feedId, u.headerTs, u.tripId, "", true)
    ensures var st := s.trips[u.tripId].stops[i];
            o in Produced(m, Some(s), u) && o.Key() == VisitKey(0, u.feedId, u.tripId, st.stopId) && o.scheduledAt == ScheduledAt(m.loc, 0, st)
  {
    var t := s.trips[u.tripId];
    PickedIsCandidate(m, s, t, [0], u.headerTs, NO_TIME);
    assert DatesOf(m, u) == [0];
    o := CancelledVisit(m.loc, t, u, 0, t.stops[i]);
    assert CancelledVisits(m.loc, t, u, 0)[i] == o;
    assert Produced(m, Some(s), u) == CancelledVisits(m.loc, t, u, 0);
  }

  lemma {:induction false} StopRow(m: Settings, s: Schedule, u: Update, i: int, j: int) returns (o: Observation)
    requires u.tripId in s.trips && Confusable(s.trips[u.tripId], i, j)
    requires u.stopId == s.trips[u.tripId].stops[i].stopId != "" && u == SomeUpdate(u.feedId, u.headerTs, u.tripId, u.stopId, false)
    ensures o in Produced(m, Some(s), u) && o.Key() == VisitKey(0, u.feedId, u.tripId, u.stopId) && o.scheduledAt == None
  {
    var t := s.trips[u.tripId];
    PickedIsCandidate(m, s, t, [0], Reference(u), NO_TIME);
    assert DatesOf(m, u) == [0];
    assert CallsAt(t, i, u.stopId) && CallsAt(t, j, u.stopId);
    assert Resolved(t, None, u.stopId) == None;
    o := TripVisit(m, s, t, u);
    assert Produced(m, Some(s), u) == [o];
  }
}
