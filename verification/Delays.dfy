/** What an observation says of its update, delays first (internal/match/matcher.go). */
module Delays {
  import opened Instants
  import opened Options
  import opened Zones
  import opened ServiceTime
  import opened Observations
  import opened Timetable
  import opened Dating
  import opened Matcher

  // The delay a passenger is told.

  /** Every observation of a stop is made of the update by itself, of its trip or of a call. */
  lemma {:induction false} ProducedIs(m: Settings, sched: Option<Schedule>, u: Update, o: Observation)
    requires o in Produced(m, sched, u) && !u.tripLevel
    ensures if OnTimetable(sched, u) && Resolved(TripOf(sched, u), u.stopSequence, u.stopId).Some?
            then o == CallVisit(m, sched.value, TripOf(sched, u), u, Resolved(TripOf(sched, u), u.stopSequence, u.stopId).value)
            else o.arrivalDelayS == u.arrivalDelay && o.departureDelayS == u.departureDelay &&
                 o.observedDelayS == Observed(u.arrivalDelay, u.departureDelay)
  {}

  /** A departure's delay that the feed gives is the delay observed, whatever else it says and whether
      or not the timetable has the trip or the stop. */
  lemma {:induction false} DepartureDelayIsObserved(m: Settings, sched: Option<Schedule>, u: Update, o: Observation)
    requires o in Produced(m, sched, u) && !u.tripLevel && u.departureDelay.Some?
    ensures o.observedDelayS == o.departureDelayS == u.departureDelay
  {
    ProducedIs(m, sched, u, o);
  }

  /** Without a word of the departure, an arrival's delay is. */
  lemma {:induction false} ArrivalDelayIsObserved(m: Settings, sched: Option<Schedule>, u: Update, o: Observation)
    requires o in Produced(m, sched, u) && !u.tripLevel && u.departureDelay.None? && u.departureTime.None? && u.arrivalDelay.Some?
    ensures o.observedDelayS == o.arrivalDelayS == u.arrivalDelay && o.departureDelayS == None
  {
    ProducedIs(m, sched, u, o);
  }

  /** With no delay and no time there is none, nor, away from the timetable, with times alone. */
  lemma {:induction false} NoDelayIsObserved(m: Settings, sched: Option<Schedule>, u: Update, o: Observation)
    requires o in Produced(m, sched, u) && !u.tripLevel && u.departureDelay.None? && u.arrivalDelay.None?
    requires (u.departureTime.None? && u.arrivalTime.None?) || !OnTimetable(sched, u) ||
             Resolved(TripOf(sched, u), u.stopSequence, u.stopId).None?
    ensures o.observedDelayS == o.arrivalDelayS == o.departureDelayS == None
  {
    ProducedIs(m, sched, u, o);
  }

  /** Nor at a call without a time, whatever times the feed gives. */
  lemma {:induction false} NothingIsDerivedUntimed(m: Settings, s: Schedule, u: Update, o: Observation, i: nat)
    requires o in Produced(m, Some(s), u) && !u.tripLevel && u.tripId in s.trips
    requires var t := s.trips[u.tripId]; Resolved(t, u.stopSequence, u.stopId) == Some(i) && t.stops[i].arrS == t.stops[i].depS == NO_TIME
    ensures o.arrivalDelayS == u.arrivalDelay && o.departureDelayS == u.departureDelay
    ensures o.observedDelayS == if u.departureDelay.Some? then u.departureDelay else u.arrivalDelay
  {
    ProducedIs(m, Some(s), u, o);
  }

  /** An update that says only when a run arrives, within tolerance of its schedule, is stored under
      the run's own service date with exactly the arrival's delay. */
  lemma {:induction false} ArrivalRoundTrips(m: Settings, s: Schedule, u: Update, i: nat, d: Date, delay: int)
    requires !u.tripLevel && u.tripId in s.trips
    requires var t := s.trips[u.tripId]; Resolved(t, u.stopSequence, u.stopId) == Some(i) && t.stops[i].arrS != NO_TIME
    requires !u.startDate.Unreadable? && d in DatesOf(m, u) && s.runsOn(s.trips[u.tripId].serviceId, d)
    requires u.departureDelay.None? && u.departureTime.None? && u.arrivalDelay.None? && Int32(delay) == delay
    requires var st := s.trips[u.tripId].stops[i];
             && u.arrivalTime == Some(UnixSeconds(AtServiceOffset(m.loc, d, st.arrS)) + delay)
             && -m.tolerance <= AtServiceOffset(m.loc, d, st.arrS) + Seconds(delay) - AtServiceOffset(m.loc, d, st.Scheduled()) <= m.tolerance
    requires 2 * m.tolerance < Hours(23)
    ensures exists o ::
              && Produced(m, Some(s), u) == [o] && o.matched && o.Key() == VisitKey(d, u.feedId, u.tripId, s.trips[u.tripId].stops[i].stopId)
              && o.scheduledAt == Some(AtServiceOffset(m.loc, d, s.trips[u.tripId].stops[i].Scheduled()))
              && o.departureDelayS == None && o.arrivalDelayS == o.observedDelayS == Some(delay)
  {
    var t := s.trips[u.tripId];
    var st := t.stops[i];
    StartIs(m.loc, d);
    assert Reference(u) == AtServiceOffset(m.loc, d, st.arrS) + Seconds(delay);
    RunIsDated(m, s, t, DatesOf(m, u), Reference(u), st.Scheduled(), d);
    assert Produced(m, Some(s), u) == [Visit(m, t, u, d, st)];
  }

  /** A cancelled trip has a row for each of its calls, in order, at its stop and without a delay. */
  lemma {:induction false} CancelledCalls(m: Settings, s: Schedule, u: Update)
    requires u.tripId in s.trips && u.tripLevel && u.tripRel == 3 && !u.startDate.Unreadable?
    ensures var stops, rows := s.trips[u.tripId].stops, Produced(m, Some(s), u);
            |rows| == |stops| && forall i | 0 <= i < |stops| ::
              && rows[i].stopId == stops[i].stopId && rows[i].stopSequence == Some(stops[i].order)
              && rows[i].arrivalDelayS == rows[i].departureDelayS == rows[i].observedDelayS == None
  {}

  // Whether the feed contradicts itself.

  /** A delay and a time disagree when the time is off what the delay makes of the schedule, by more
      than the tolerance either way. */
  lemma {:induction false} DisagreesExactly(m: Settings, d: Date, scheduledS: StopSeconds, delay: int, off: int)
    requires scheduledS != NO_TIME && Int32(delay + off) == delay + off && Int32(off) == off
    ensures var time := UnixSeconds(AtServiceOffset(m.loc, d, scheduledS)) + delay + off;
            Derive(m, Some(delay), Some(time), d, scheduledS) == (Some(delay), off < -m.reconcileS || m.reconcileS < off)
  {}


  // What else a row says.

  /** The row says of the feed what the update does, and of the trip what the timetable does if it has
      the trip: its route, and its direction if that is known. */
  lemma {:induction false} RowSays(m: Settings, sched: Option<Schedule>, u: Update, o: Observation)
    requires o in Produced(m, sched, u)
    ensures o.feedId == u.feedId && o.tripId == u.tripId && o.vehicleId == u.vehicleId && o.feedTs == u.headerTs
    ensures o.tripRel == u.tripRel && o.stopTimeRel == u.stopTimeRel
    ensures o.matched <==> sched.Some? && u.tripId in sched.value.trips
    ensures o.routeId == if o.matched then sched.value.trips[u.tripId].routeId else u.routeId
    ensures o.directionId == if o.matched && sched.value.trips[u.tripId].directionId.Some? then sched.value.trips[u.tripId].directionId
                             else if u.directionId.Some? && u.directionId.value <= 1 then u.directionId else None
  {}

  /** The row is for the call: at its stop, with its sequence, and at its departure or else arrival on
      the row's service day. */
  predicate IsFor(loc: Zone, o: Observation, st: StopTime) {
    && o.stopId == st.stopId && o.stopSequence == Some(st.order)
    && o.scheduledAt == if st.depS != NO_TIME then Some(ServiceDayStart(loc, o.serviceDate) + Seconds(st.depS))
                        else if st.arrS != NO_TIME then Some(ServiceDayStart(loc, o.serviceDate) + Seconds(st.arrS))
                        else None
  }

  lemma {:induction false} VisitIsFor(m: Settings, t: Trip, u: Update, d: Date, st: StopTime)
    ensures IsFor(m.loc, Visit(m, t, u, d, st), st) && IsFor(m.loc, CancelledVisit(m.loc, t, u, d, st), st)
  {}

  /** A row with a sequence is for a call of its trip; one without has no scheduled time, and the
      update's stop. */
  lemma {:induction false} RowIsPlaced(m: Settings, s: Schedule, u: Update, o: Observation)
    requires o in Produced(m, Some(s), u) && u.tripId in s.trips
    ensures if o.stopSequence.Some? then exists i :: 0 <= i < |s.trips[u.tripId].stops| && IsFor(m.loc, o, s.trips[u.tripId].stops[i])
            else o.scheduledAt == None && o.stopId == u.stopId
  {
    var t := s.trips[u.tripId];
    match JudgedOn(m, s, t, u)
    case Cancelled(_) =>
      var d := DateOf(m, s, t, u, u.headerTs, NO_TIME);
      var i :| 0 <= i < |t.stops| && o == CancelledVisits(m.loc, t, u, d)[i];
      VisitIsFor(m, t, u, d, t.stops[i]);
    case FullMatch(_, _) =>
      var i := Resolved(t, u.stopSequence, u.stopId).value;
      VisitIsFor(m, t, u, VisitDate(m, s, t, u, t.stops[i]), t.stops[i]);
    case _ =>
  }
}
