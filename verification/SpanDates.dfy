/** Dating what is about a whole trip, or about none of its calls: by the trip's span (pickDate and
    near in internal/match/matcher.go). */
module SpanDates {
  import opened Instants
  import opened Options
  import opened Sydney
  import opened ServiceTime
  import opened Timetable
  import opened Dating

  // The span of a trip's calls.

  predicate HasTime(st: StopTime, v: StopSeconds) { v != NO_TIME && (v == st.arrS || v == st.depS) }

  /** The trip has a time at first, one at last, and none before or after. */
  ghost predicate Runs(t: Trip, first: StopSeconds, last: StopSeconds) {
    && (exists i :: 0 <= i < |t.stops| && HasTime(t.stops[i], first))
    && (exists i :: 0 <= i < |t.stops| && HasTime(t.stops[i], last))
    && forall i, v: StopSeconds | 0 <= i < |t.stops| && HasTime(t.stops[i], v) :: first <= v <= last
  }

  lemma {:induction false} TimesAre(stops: seq<StopTime>, v: StopSeconds)
    requires v != NO_TIME
    ensures v in Times(stops) <==> exists i :: 0 <= i < |stops| && HasTime(stops[i], v)
  {
    if stops != [] {
      var n := |stops| - 1;
      TimesAre(stops[..n], v);
      if i :| 0 <= i < |stops| && HasTime(stops[i], v) {
        assert i < n ==> stops[..n][i] == stops[i];
      }
    }
  }

  lemma {:induction false} RunsSpans(t: Trip, first: StopSeconds, last: StopSeconds)
    requires Runs(t, first, last)
    ensures Spans(Times(t.stops), first, last)
  {
    TimesAre(t.stops, first);
    TimesAre(t.stops, last);
    forall v: StopSeconds | v in Times(t.stops) && v != NO_TIME ensures first <= v <= last {
      TimesAre(t.stops, v);
    }
  }

  lemma {:induction false} SpanIsUnique(times: seq<StopSeconds>, first: StopSeconds, last: StopSeconds, first': StopSeconds, last': StopSeconds)
    requires Spans(times, first, last) && Spans(times, first', last')
    ensures first == first' && last == last'
  {}

  /** The instant lies within tolerance of a trip from first to last on the date. */
  ghost predicate Reaches(m: Settings, d: Date, first: StopSeconds, last: StopSeconds, ref: Instant) {
    ServiceDayStart(m.loc, d) + Seconds(first) - m.tolerance <= ref <= ServiceDayStart(m.loc, d) + Seconds(last) + m.tolerance
  }

  lemma {:induction false} NearIsReach(m: Settings, d: Date, t: Trip, ref: Instant, first: StopSeconds, last: StopSeconds)
    requires Runs(t, first, last)
    ensures Near(m, d, t, ref, NO_TIME) <==> Reaches(m, d, first, last, ref)
  {
    RunsSpans(t, first, last);
    if Reaches(m, d, first, last, ref) {
      forall f: StopSeconds, l: StopSeconds | Spans(Times(t.stops), f, l) && f != NO_TIME ensures f == first && l == last {
        SpanIsUnique(Times(t.stops), first, last, f, l);
      }
    }
  }

  // Which date is picked.

  /** Two dates on which an instant is within tolerance of a trip are close. */
  lemma {:induction false} ReachedDatesAreClose(m: Settings, d: Date, e: Date, first: StopSeconds, last: StopSeconds, ref: Instant)
    requires d < e && Reaches(m, d, first, last, ref) && Reaches(m, e, first, last, ref)
    ensures Hours(23) <= Seconds(last - first) + 2 * m.tolerance
  {
    StartsAscend(m.loc, d, e);
  }

  /** The date a run is on is the one picked for a trip as a whole, while the instant is within
      tolerance of the run, if the trip and twice the tolerance take less than 23 hours. */
  lemma {:induction false} RunIsDatedBySpan(m: Settings, s: Schedule, t: Trip, cands: seq<Date>, ref: Instant, first: StopSeconds, last: StopSeconds, d: Date)
    requires Runs(t, first, last) && Seconds(last - first) + 2 * m.tolerance < Hours(23)
    requires d in cands && s.runsOn(t.serviceId, d) && Reaches(m, d, first, last, ref)
    ensures Picked(m, s, t, cands, ref, NO_TIME) == d
  {
    var running := Running(s, t, cands);
    RunningAre(s, t, cands, d);
    FirstNearIs(m, t, running, ref, NO_TIME);
    NearIsReach(m, d, t, ref, first, last);
    var e := FirstNear(m, t, running, ref, NO_TIME).value;
    NearIsReach(m, e, t, ref, first, last);
    if d < e {
      ReachedDatesAreClose(m, d, e, first, last, ref);
    } else if e < d {
      ReachedDatesAreClose(m, e, d, first, last, ref);
    }
  }

  /** A date on which the trip is out of reach is not picked when there is one on which it runs within
      reach, however long the trip. */
  lemma {:induction false} OutOfReachIsNotPicked(m: Settings, s: Schedule, t: Trip, cands: seq<Date>, ref: Instant, first: StopSeconds, last: StopSeconds, d: Date, e: Date)
    requires cands != [] && Runs(t, first, last) && e in cands && s.runsOn(t.serviceId, e) && Reaches(m, e, first, last, ref)
    requires !Reaches(m, d, first, last, ref)
    ensures Picked(m, s, t, cands, ref, NO_TIME) != d
  {
    RunningAre(s, t, cands, e);
    FirstNearIs(m, t, Running(s, t, cands), ref, NO_TIME);
    NearIsReach(m, d, t, ref, first, last);
    NearIsReach(m, e, t, ref, first, last);
  }

  /** Whenever an instant is within tolerance of a trip that long, on a candidate date that it runs on,
      that date is picked. */
  ghost predicate SpansAreDated(m: Settings, length: nat) {
    forall s: Schedule, t: Trip, at: Instant, ref: Instant, first: StopSeconds, last: StopSeconds, d: Date |
      && Runs(t, first, last) && last - first == length && d in Candidates(m.loc, at, m.overlap)
      && s.runsOn(t.serviceId, d) && Reaches(m, d, first, last, ref) ::
      Picked(m, s, t, Candidates(m.loc, at, m.overlap), ref, NO_TIME) == d
  }

  /** In Sydney the matcher tells yesterday's run of a trip from today's exactly while it tries one
      date only or the trip and twice the tolerance take less than 23 hours. */
  lemma {:induction false} SpansAreDatedExactly(m: Settings, length: nat)
    requires m.loc == SYDNEY
    ensures SpansAreDated(m, length) <==> m.overlap <= 0 || Seconds(length) + 2 * m.tolerance < Hours(23)
  {
    if m.overlap <= 0 || Seconds(length) + 2 * m.tolerance < Hours(23) {
      forall s: Schedule, t: Trip, at: Instant, ref: Instant, first: StopSeconds, last: StopSeconds, d: Date |
        && Runs(t, first, last) && last - first == length && d in Candidates(m.loc, at, m.overlap)
        && s.runsOn(t.serviceId, d) && Reaches(m, d, first, last, ref)
        ensures Picked(m, s, t, Candidates(m.loc, at, m.overlap), ref, NO_TIME) == d
      {
        if m.overlap <= 0 {
          OnlyDateIsPicked(m, s, t, at, ref, NO_TIME, d);
        } else {
          RunIsDatedBySpan(m, s, t, Candidates(m.loc, at, m.overlap), ref, first, last, d);
        }
      }
    } else {
      ShortestGap();
      NewerSpanIsPicked(m, length, OCTOBER_4_2026);
    }
  }

  /** Half way between the start of a run and the end of the one before, 23 hours earlier, what is
      about the earlier is taken for the later. */
  lemma {:induction false} NewerSpanIsPicked(m: Settings, length: nat, d: Date)
    requires ServiceDayStart(m.loc, d) - ServiceDayStart(m.loc, d - 1) == Hours(23)
    requires 0 < m.overlap && Hours(23) <= Seconds(length) + 2 * m.tolerance
    ensures !SpansAreDated(m, length)
  {
    var first: StopSeconds, last: StopSeconds := 0, length;
    var s, t := Schedule(map[], {}, (_, _) => true), Trip("", "", None, [StopTime(0, "", 0, length)]);
    assert HasTime(t.stops[0], first) && HasTime(t.stops[0], last);
    var ref := ServiceDayStart(m.loc, d) - (Hours(23) - Seconds(length)) / 2;
    CandidatesAtStart(m, d);
    NearIsReach(m, d, t, ref, first, last);
    FirstIsPicked(m, s, t, d, d - 1, ref, NO_TIME);
    OtherSpanIsPicked(m, s, t, d, ref, first, last);
  }

  lemma {:induction false} OtherSpanIsPicked(m: Settings, s: Schedule, t: Trip, d: Date, ref: Instant, first: StopSeconds, last: StopSeconds)
    requires Candidates(m.loc, ServiceDayStart(m.loc, d), m.overlap) == [d, d - 1] && Runs(t, first, last) && first <= last
    requires s.runsOn(t.serviceId, d - 1) && Reaches(m, d - 1, first, last, ref)
    requires Picked(m, s, t, [d, d - 1], ref, NO_TIME) == d
    ensures !SpansAreDated(m, last - first)
  {
    var at, e := ServiceDayStart(m.loc, d), d - 1;
    assert e in Candidates(m.loc, at, m.overlap) && Picked(m, s, t, Candidates(m.loc, at, m.overlap), ref, NO_TIME) != e;
  }

  // In general.

  /** The date picked: the first candidate, of those the trip's service runs on, that is near; if
      none is, the first the service runs on; if it runs on none, the first. */
  lemma {:induction false} PickedIs(m: Settings, s: Schedule, t: Trip, cands: seq<Date>, ref: Instant, scheduledS: StopSeconds) returns (i: nat)
    requires cands != []
    ensures i < |cands| && Picked(m, s, t, cands, ref, scheduledS) == cands[i]
    ensures if exists d :: d in cands && s.runsOn(t.serviceId, d) && Near(m, d, t, ref, scheduledS)
            then s.runsOn(t.serviceId, cands[i]) && Near(m, cands[i], t, ref, scheduledS) &&
                 forall j | 0 <= j < i :: !(s.runsOn(t.serviceId, cands[j]) && Near(m, cands[j], t, ref, scheduledS))
            else if exists d :: d in cands && s.runsOn(t.serviceId, d)
            then s.runsOn(t.serviceId, cands[i]) && forall j | 0 <= j < i :: !s.runsOn(t.serviceId, cands[j])
            else i == 0
  {
    var running := Running(s, t, cands);
    forall d ensures d in running <==> d in cands && s.runsOn(t.serviceId, d) {
      RunningAre(s, t, cands, d);
    }
    FirstNearIs(m, t, running, ref, scheduledS);
    i := 0;
    if FirstNear(m, t, running, ref, scheduledS).Some? {
      i := FirstNearAt(m, s, t, cands, ref, scheduledS);
    } else if running != [] {
      i := FirstRunsAt(s, t, cands);
      assert running[0] in running;
    }
  }

  lemma {:induction false} FirstRunsAt(s: Schedule, t: Trip, cands: seq<Date>) returns (i: nat)
    requires Running(s, t, cands) != []
    ensures i < |cands| && cands[i] == Running(s, t, cands)[0] && s.runsOn(t.serviceId, cands[i])
    ensures forall j | 0 <= j < i :: !s.runsOn(t.serviceId, cands[j])
  {
    i := 0;
    if !s.runsOn(t.serviceId, cands[0]) {
      var j := FirstRunsAt(s, t, cands[1..]);
      i := 1 + j;
      assert forall k | 1 <= k < i :: cands[k] == cands[1..][k - 1];
    }
  }

  lemma {:induction false} FirstNearAt(m: Settings, s: Schedule, t: Trip, cands: seq<Date>, ref: Instant, scheduledS: StopSeconds) returns (i: nat)
    requires FirstNear(m, t, Running(s, t, cands), ref, scheduledS).Some?
    ensures i < |cands| && Some(cands[i]) == FirstNear(m, t, Running(s, t, cands), ref, scheduledS)
    ensures s.runsOn(t.serviceId, cands[i]) && Near(m, cands[i], t, ref, scheduledS)
    ensures forall j | 0 <= j < i :: !(s.runsOn(t.serviceId, cands[j]) && Near(m, cands[j], t, ref, scheduledS))
  {
    i := 0;
    var running, later := Running(s, t, cands), Running(s, t, cands[1..]);
    assert if s.runsOn(t.serviceId, cands[0]) then running[0] == cands[0] && running[1..] == later else running == later;
    if !(s.runsOn(t.serviceId, cands[0]) && Near(m, cands[0], t, ref, scheduledS)) {
      var j := FirstNearAt(m, s, t, cands[1..], ref, scheduledS);
      i := 1 + j;
      assert forall k | 1 <= k < i :: cands[k] == cands[1..][k - 1];
    }
  }
}
