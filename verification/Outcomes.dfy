/** Which updates have which outcome, for each counter of a poll (Counts and Match in
    internal/match/matcher.go). */
module Outcomes {
  import opened Options
  import opened Timetable
  import opened Dating
  import opened SpanDates
  import opened Matcher
  import opened ServiceTime
  import opened Instants
  import Match
  import MatchedRows

  predicate HasTrip(sched: Option<Schedule>, u: Update) { sched.Some? && u.tripId in sched.value.trips }

  /** An update of one stop, which it names or else could give by its sequence. */
  predicate OfStop(u: Update) { !u.startDate.Unreadable? && !u.tripLevel }

  ghost predicate IsResolved(sched: Option<Schedule>, u: Update) {
    HasTrip(sched, u) && Resolved(sched.value.trips[u.tripId], u.stopSequence, u.stopId).Some?
  }

  /** The counters of what cannot be placed on a timetable: what each is for. */
  lemma {:induction false} UnplacedOutcomes(m: Settings, sched: Option<Schedule>, u: Update)
    ensures Judged(m, sched, u).BadStartDate? <==> u.startDate.Unreadable?
    ensures Judged(m, sched, u).NoSchedule? <==> OfStop(u) && u.stopId != "" && sched.None?
    ensures Judged(m, sched, u).Added? <==> OfStop(u) && u.stopId != "" && sched.Some? && !HasTrip(sched, u) && u.tripRel == 1
    ensures Judged(m, sched, u).UnknownTrip? <==> OfStop(u) && u.stopId != "" && sched.Some? && !HasTrip(sched, u) && u.tripRel != 1
    ensures Judged(m, sched, u).NoStopId? <==> OfStop(u) && u.stopId == "" && !IsResolved(sched, u)
  {}

  /** Of a trip as a whole only a cancellation counts, call by call, and only if the timetable has it. */
  lemma {:induction false} TripOutcomes(m: Settings, sched: Option<Schedule>, u: Update)
    ensures Judged(m, sched, u).Cancelled? <==> !u.startDate.Unreadable? && u.tripLevel && u.tripRel == 3 && HasTrip(sched, u)
    ensures Judged(m, sched, u).Cancelled? ==> Judged(m, sched, u).stops == |sched.value.trips[u.tripId].stops|
    ensures Judged(m, sched, u).TripLevelSkipped? <==>
            !u.startDate.Unreadable? && u.tripLevel && (u.tripRel == 3 ==> !HasTrip(sched, u))
  {}

  /** An update of a stop of a trip that the timetable has is a full match when it is resolved to a
      call, and otherwise counts for the trip only. */
  lemma {:induction false} StopOutcomes(m: Settings, sched: Option<Schedule>, u: Update)
    ensures Judged(m, sched, u).FullMatch? <==> OfStop(u) && IsResolved(sched, u)
    ensures Judged(m, sched, u).TripOnly? <==> OfStop(u) && HasTrip(sched, u) && u.stopId != "" && !IsResolved(sched, u)
    ensures Judged(m, sched, u).TripOnly? ==>
              var stops := sched.value.trips[u.tripId].stops;
              Judged(m, sched, u).ambiguous <==> exists i, j :: 0 <= i < j < |stops| && stops[i].stopId == stops[j].stopId == u.stopId
  {
    if Judged(m, sched, u).TripOnly? {
      AmbiguousExactly(sched.value.trips[u.tripId], u.stopSequence, u.stopId);
    }
  }

  /** A full match is by sequence when the update's is the call's, and disagrees when the producer's
      delay does with its time, of arrival or of departure. */
  lemma {:induction false} MatchOutcomes(m: Settings, s: Schedule, u: Update)
    requires Judged(m, Some(s), u).FullMatch?
    ensures var t := s.trips[u.tripId];
            var i := Resolved(t, u.stopSequence, u.stopId).value;
            var d := VisitDate(m, s, t, u, t.stops[i]);
            && (Judged(m, Some(s), u).bySequence <==> u.stopSequence == Some(Uint32(t.stops[i].order)))
            && (Judged(m, Some(s), u).disagrees <==>
                  Derive(m, u.arrivalDelay, u.arrivalTime, d, t.stops[i].arrS).1 || Derive(m, u.departureDelay, u.departureTime, d, t.stops[i].depS).1)
  {}

  /** Rows come of an update exactly when its outcome places it or is one of those stored as they are. */
  lemma {:induction false} StoredOutcomes(m: Settings, sched: Option<Schedule>, u: Update)
    ensures Produced(m, sched, u) == [] <==>
            match Judged(m, sched, u)
            case BadStartDate => true
            case TripLevelSkipped => true
            case NoStopId => true
            case Cancelled(n) => n == 0
            case _ => false
  {}

  /** A stop is counted unknown when the update names one and the timetable knows stops, but not it. */
  lemma {:induction false} UnknownStopIs(sched: Option<Schedule>, u: Update)
    ensures Match.StopIsUnknown(sched, u) <==>
            u.stopId != "" && sched.Some? && u.stopId !in sched.value.stops && exists id :: id in sched.value.stops
  {
    if sched.Some? && sched.value.stops != {} {
      var id :| id in sched.value.stops;
    }
  }

  /** The producer's date stands; without one a row that the timetable does not place belongs to the
      service day that had begun when the feed was made. */
  lemma {:induction false} DateIs(m: Settings, sched: Option<Schedule>, u: Update, d: Date)
    requires exists o :: o in Produced(m, sched, u) && o.serviceDate == d
    ensures u.startDate.Given? ==> d == u.startDate.d
    ensures u.startDate.Absent? && !HasTrip(sched, u) ==> ServiceDayStart(m.loc, d) <= u.headerTs < ServiceDayStart(m.loc, d + 1)
  {
    var o :| o in Produced(m, sched, u) && o.serviceDate == d;
    MatchedRows.RowIsDated(m, sched, u, o);
  }

  /** A cancellation is dated by when the feed was made: its rows are of the run that is then within
      tolerance of its span, if the trip and twice the tolerance take less than 23 hours. */
  lemma {:induction false} CancellationIsDated(m: Settings, s: Schedule, u: Update, first: StopSeconds, last: StopSeconds, d: Date)
    requires u.tripId in s.trips && u.tripLevel && u.tripRel == 3 && !u.startDate.Unreadable?
    requires Runs(s.trips[u.tripId], first, last) && Seconds(last - first) + 2 * m.tolerance < Hours(23)
    requires d in DatesOf(m, u) && s.runsOn(s.trips[u.tripId].serviceId, d) && Reaches(m, d, first, last, u.headerTs)
    ensures forall o | o in Produced(m, Some(s), u) :: o.serviceDate == d
  {
    RunIsDatedBySpan(m, s, s.trips[u.tripId], DatesOf(m, u), u.headerTs, first, last, d);
  }

  /** What is about no call of its trip is dated so by its departure or else arrival, if it gives one. */
  lemma {:induction false} TripRowIsDated(m: Settings, s: Schedule, u: Update, first: StopSeconds, last: StopSeconds, d: Date)
    requires OfStop(u) && HasTrip(Some(s), u) && u.stopId != "" && !IsResolved(Some(s), u)
    requires Runs(s.trips[u.tripId], first, last) && Seconds(last - first) + 2 * m.tolerance < Hours(23)
    requires d in DatesOf(m, u) && s.runsOn(s.trips[u.tripId].serviceId, d)
    requires Reaches(m, d, first, last, if u.departureTime.Some? then Seconds(u.departureTime.value)
                                        else if u.arrivalTime.Some? then Seconds(u.arrivalTime.value) else u.headerTs)
    ensures exists o :: Produced(m, Some(s), u) == [o] && o.serviceDate == d && o.matched && o.scheduledAt == None && o.stopId == u.stopId
  {
    RunIsDatedBySpan(m, s, s.trips[u.tripId], DatesOf(m, u), Reference(u), first, last, d);
    assert Produced(m, Some(s), u) == [TripVisit(m, s, s.trips[u.tripId], u)];
  }
}
