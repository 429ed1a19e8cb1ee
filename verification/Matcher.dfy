/** Turning one update into observations (the body of Match in internal/match/matcher.go). */
module Matcher {
  import opened Instants
  import opened Options
  import opened Zones
  import opened ServiceTime
  import opened Observations
  import opened Timetable
  import opened Dating

  /** A start_date as the producer sent it, parsed. */
  datatype StartDate = Absent | Unreadable | Given(d: Date)

  /** What a feed says of one stop of a trip, or of a whole trip. */
  datatype Update = Update(
    feedId: string,
    headerTs: Instant,
    tripId: string,
    routeId: string,
    startDate: StartDate,
    directionId: Option<int>,
    vehicleId: string,
    tripRel: int,
    tripLevel: bool,
    stopSequence: Option<int>,
    stopId: string,
    stopTimeRel: int,
    arrivalDelay: Option<int>,
    arrivalTime: Option<int>,
    departureDelay: Option<int>,
    departureTime: Option<int>)

  const TRIP_ADDED := 1
  const TRIP_CANCELED := 3

  /** Go's conversion to int32. */
  function Int32(v: int): int { (v + 0x8000_0000) % 0x1_0000_0000 - 0x8000_0000 }

  /** Of two delays the departure's, if it is known. */
  function Observed(arrival: Option<int>, departure: Option<int>): Option<int> {
    if departure.Some? then departure else arrival
  }

  /** The instant an update's date is judged by: its departure, its arrival or the poll. */
  function Reference(u: Update): Instant {
    if u.departureTime.Some? then Seconds(u.departureTime.value)
    else if u.arrivalTime.Some? then Seconds(u.arrivalTime.value)
    else u.headerTs
  }

  /** An unmatched row, with nothing in it of the timetable. */
  function Base(u: Update, d: Date): Observation {
    Observation(
      d, u.feedId, u.tripId, u.stopId, u.headerTs, None, u.routeId,
      if u.directionId.Some? && u.directionId.value <= 1 then u.directionId else None,
      u.arrivalDelay, u.departureDelay, Observed(u.arrivalDelay, u.departureDelay),
      u.tripRel, u.stopTimeRel, false, u.vehicleId, None)
  }

  /** The row with the trip's route, and direction if it has one. */
  function Matched(o: Observation, t: Trip): Observation {
    o.(matched := true, routeId := t.routeId,
       directionId := if t.directionId.Some? then t.directionId else o.directionId)
  }

  /** The observation placed at a call. */
  function At(loc: Zone, o: Observation, d: Date, st: StopTime): Observation {
    o.(stopId := st.stopId, stopSequence := Some(st.order), scheduledAt := ScheduledAt(loc, d, st))
  }

  function ScheduledAt(loc: Zone, d: Date, st: StopTime): Option<Instant> {
    if st.Scheduled() == NO_TIME then None else Some(AtServiceOffset(loc, d, st.Scheduled()))
  }

  /** One event's delay, and whether the producer's delay and its time disagree about it: the
      delay wins, and the time fills in for a missing one if there is a schedule. */
  function Derive(m: Settings, delay: Option<int>, eventTime: Option<int>, d: Date, scheduledS: StopSeconds): (Option<int>, bool) {
    if eventTime.None? || scheduledS == NO_TIME then (delay, false)
    else
      var computed := Int32(eventTime.value - UnixSeconds(AtServiceOffset(m.loc, d, scheduledS)));
      if delay.None? then (Some(computed), false)
      else
        var diff := Int32(computed - delay.value);
        (delay, diff > m.reconcileS || diff < -m.reconcileS)
  }

  // What becomes of an update.

  datatype Verdict =
    | BadStartDate
    | TripLevelSkipped
    | NoStopId
    | NoSchedule
    | Added
    | UnknownTrip
    | Cancelled(stops: nat)
    | TripOnly(ambiguous: bool)
    | FullMatch(bySequence: bool, disagrees: bool)

  predicate OnTimetable(sched: Option<Schedule>, u: Update) { sched.Some? && u.tripId in sched.value.trips }

  function TripOf(sched: Option<Schedule>, u: Update): Trip
    requires OnTimetable(sched, u)
  {
    sched.value.trips[u.tripId]
  }

  /** The service dates an update could be about, newest first: its own start_date if it has one. */
  ghost function DatesOf(m: Settings, u: Update): (cands: seq<Date>)
    ensures cands != []
  {
    if u.startDate.Given? then [u.startDate.d] else Candidates(m.loc, u.headerTs, m.overlap)
  }

  ghost function DateOf(m: Settings, s: Schedule, t: Trip, u: Update, ref: Instant, scheduledS: StopSeconds): Date {
    Picked(m, s, t, DatesOf(m, u), ref, scheduledS)
  }

  ghost function Judged(m: Settings, sched: Option<Schedule>, u: Update): Verdict {
    if u.startDate.Unreadable? then BadStartDate
    else if OnTimetable(sched, u) then JudgedOn(m, sched.value, TripOf(sched, u), u)
    else if u.tripLevel then TripLevelSkipped
    else if u.stopId == "" then NoStopId
    else if sched.None? then NoSchedule
    else if u.tripRel == TRIP_ADDED then Added
    else UnknownTrip
  }

  ghost function JudgedOn(m: Settings, s: Schedule, t: Trip, u: Update): Verdict {
    if u.tripLevel then if u.tripRel == TRIP_CANCELED then Cancelled(|t.stops|) else TripLevelSkipped
    else
      match Resolved(t, u.stopSequence, u.stopId)
      case Some(i) => FullMatch(HasSequence(t, i, u.stopSequence), VisitDisagrees(m, s, t, u, t.stops[i]))
      case None => if u.stopId == "" then NoStopId else TripOnly(Ambiguous(t, u.stopSequence, u.stopId))
  }

  ghost function VisitDate(m: Settings, s: Schedule, t: Trip, u: Update, st: StopTime): Date {
    DateOf(m, s, t, u, Reference(u), st.Scheduled())
  }

  ghost predicate VisitDisagrees(m: Settings, s: Schedule, t: Trip, u: Update, st: StopTime) {
    Disagrees(m, u, VisitDate(m, s, t, u, st), st)
  }

  predicate Disagrees(m: Settings, u: Update, d: Date, st: StopTime) {
    Derive(m, u.arrivalDelay, u.arrivalTime, d, st.arrS).1 || Derive(m, u.departureDelay, u.departureTime, d, st.depS).1
  }

  /** The observations an update gives. */
  ghost function Produced(m: Settings, sched: Option<Schedule>, u: Update): seq<Observation> {
    if u.startDate.Unreadable? then []
    else if OnTimetable(sched, u) then ProducedOn(m, sched.value, TripOf(sched, u), u)
    else if u.tripLevel || u.stopId == "" then []
    else [Base(u, DatesOf(m, u)[0])]
  }

  ghost function ProducedOn(m: Settings, s: Schedule, t: Trip, u: Update): seq<Observation> {
    match JudgedOn(m, s, t, u)
    case Cancelled(_) => CancelledVisits(m.loc, t, u, DateOf(m, s, t, u, u.headerTs, NO_TIME))
    case TripOnly(_) => [TripVisit(m, s, t, u)]
    case FullMatch(_, _) => [CallVisit(m, s, t, u, Resolved(t, u.stopSequence, u.stopId).value)]
    case _ => []
  }

  /** An update of a scheduled trip that resolves to no call. */
  ghost function TripVisit(m: Settings, s: Schedule, t: Trip, u: Update): Observation {
    Matched(Base(u, DateOf(m, s, t, u, Reference(u), NO_TIME)), t)
  }

  ghost function CallVisit(m: Settings, s: Schedule, t: Trip, u: Update, i: nat): Observation
    requires i < |t.stops|
  {
    Visit(m, t, u, VisitDate(m, s, t, u, t.stops[i]), t.stops[i])
  }

  /** An update resolved to a call. */
  function Visit(m: Settings, t: Trip, u: Update, d: Date, st: StopTime): Observation {
    var arrival := Derive(m, u.arrivalDelay, u.arrivalTime, d, st.arrS).0;
    var departure := Derive(m, u.departureDelay, u.departureTime, d, st.depS).0;
    Matched(At(m.loc, Base(u, d), d, st), t)
      .(arrivalDelayS := arrival, departureDelayS := departure, observedDelayS := Observed(arrival, departure))
  }

  /** A cancelled trip's call, which has no delay. */
  function CancelledVisit(loc: Zone, t: Trip, u: Update, d: Date, st: StopTime): Observation {
    Matched(At(loc, Base(u, d), d, st), t).(arrivalDelayS := None, departureDelayS := None, observedDelayS := None)
  }

  function CancelledVisits(loc: Zone, t: Trip, u: Update, d: Date): (visits: seq<Observation>)
    ensures |visits| == |t.stops|
  {
    seq(|t.stops|, i requires 0 <= i < |t.stops| => CancelledVisit(loc, t, u, d, t.stops[i]))
  }

  lemma {:induction false} DepartureIsDerived(m: Settings, u: Update, d: Date, scheduledS: StopSeconds, delay: int)
    requires scheduledS != NO_TIME && Int32(delay) == delay
    requires u.departureTime == Some(UnixSeconds(AtServiceOffset(m.loc, d, scheduledS)) + delay)
    ensures Reference(u) == AtServiceOffset(m.loc, d, scheduledS) + Seconds(delay)
    ensures Derive(m, None, u.departureTime, d, scheduledS) == (Some(delay), false)
  {
    StartIs(m.loc, d);
  }

  /** An update that gives of its departure only when it is, within tolerance of the run's schedule, is
      stored under the run's own service date with exactly its delay, whatever it says of arrival. */
  lemma {:induction false} DepartureRoundTrips(m: Settings, s: Schedule, u: Update, i: nat, d: Date, delay: int)
    requires !u.tripLevel && u.tripId in s.trips
    requires var t := s.trips[u.tripId]; Resolved(t, u.stopSequence, u.stopId) == Some(i) && t.stops[i].depS != NO_TIME
    requires !u.startDate.Unreadable? && d in DatesOf(m, u) && s.runsOn(s.trips[u.tripId].serviceId, d)
    requires u.departureTime == Some(UnixSeconds(AtServiceOffset(m.loc, d, s.trips[u.tripId].stops[i].depS)) + delay)
    requires u.departureDelay.None? && Int32(delay) == delay
    requires 2 * m.tolerance < Hours(23) && -m.tolerance <= Seconds(delay) <= m.tolerance
    ensures var st := s.trips[u.tripId].stops[i];
            exists o ::
              && Produced(m, Some(s), u) == [o] && o.matched && o.Key() == VisitKey(d, u.feedId, u.tripId, st.stopId)
              && o.scheduledAt == Some(AtServiceOffset(m.loc, d, st.depS))
              && o.departureDelayS == o.observedDelayS == Some(delay)
  {
    var t := s.trips[u.tripId];
    var st := t.stops[i];
    DepartureIsDerived(m, u, d, st.depS, delay);
    RunIsDated(m, s, t, DatesOf(m, u), Reference(u), st.depS, d);
    assert Produced(m, Some(s), u) == [Visit(m, t, u, d, st)];
  }
}
