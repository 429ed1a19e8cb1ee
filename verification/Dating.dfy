/** Which service date an update of a scheduled trip is about (pickDate and near in
    internal/match/matcher.go). */
module Dating {
  import opened Instants
  import opened Options
  import opened Zones
  import opened Sydney
  import opened ServiceTime
  import opened Timetable

  datatype Settings = Settings(loc: Zone, overlap: Duration, tolerance: Duration, reconcileS: int)

  predicate Within(tolerance: Duration, at: Instant, ref: Instant) { -tolerance <= ref - at <= tolerance }

  /** Whether the instant suits the date: it is at most the tolerance from the scheduled time there
      or, without one, from the trip's span there; with no span known every date does. */
  ghost predicate Near(m: Settings, d: Date, t: Trip, ref: Instant, scheduledS: StopSeconds) {
    if scheduledS != NO_TIME then Within(m.tolerance, AtServiceOffset(m.loc, d, scheduledS), ref)
    else
      forall first: StopSeconds, last: StopSeconds | Spans(Times(t.stops), first, last) && first != NO_TIME ::
        AtServiceOffset(m.loc, d, first) - m.tolerance <= ref <= AtServiceOffset(m.loc, d, last) + m.tolerance
  }

  method IsNear(m: Settings, d: Date, t: Trip, ref: Instant, scheduledS: StopSeconds) returns (near: bool)
    ensures near == Near(m, d, t, ref, scheduledS)
  {
    if scheduledS != NO_TIME {
      var diff := ref - AtServiceOffset(m.loc, d, scheduledS);
      return diff >= -m.tolerance && diff <= m.tolerance;
    }
    var first, last := Span(t);
    if first == NO_TIME {
      return true;
    }
    near := !(ref < AtServiceOffset(m.loc, d, first) - m.tolerance) && !(ref > AtServiceOffset(m.loc, d, last) + m.tolerance);
  }

  /** Those of the candidates that the trip's service runs on. */
  function Running(s: Schedule, t: Trip, cands: seq<Date>): seq<Date> {
    if cands == [] then []
    else (if s.runsOn(t.serviceId, cands[0]) then [cands[0]] else []) + Running(s, t, cands[1..])
  }

  ghost function FirstNear(m: Settings, t: Trip, dates: seq<Date>, ref: Instant, scheduledS: StopSeconds): Option<Date> {
    if dates == [] then None
    else if Near(m, dates[0], t, ref, scheduledS) then Some(dates[0])
    else FirstNear(m, t, dates[1..], ref, scheduledS)
  }

  /** The first candidate that the service runs on and that is near or, failing that, the first
      the service runs on or, failing that, the first. */
  ghost function Picked(m: Settings, s: Schedule, t: Trip, cands: seq<Date>, ref: Instant, scheduledS: StopSeconds): Date
    requires cands != []
  {
    var running := Running(s, t, cands);
    FirstNear(m, t, running, ref, scheduledS).GetOr(if running != [] then running[0] else cands[0])
  }

  method RunningOf(s: Schedule, t: Trip, cands: seq<Date>) returns (running: seq<Date>)
    ensures running == Running(s, t, cands)
  {
    running := [];
    for n := 0 to |cands|
      invariant running + Running(s, t, cands[n..]) == Running(s, t, cands)
    {
      if s.runsOn(t.serviceId, cands[n]) {
        running := running + [cands[n]];
      }
      assert cands[n..][1..] == cands[n + 1..];
    }
  }

  method PickDate(m: Settings, s: Schedule, t: Trip, cands: seq<Date>, ref: Instant, scheduledS: StopSeconds) returns (d: Date)
    requires cands != []
    ensures d == Picked(m, s, t, cands, ref, scheduledS)
  {
    var running := RunningOf(s, t, cands);
    for k := 0 to |running|
      invariant FirstNear(m, t, running[k..], ref, scheduledS) == FirstNear(m, t, running, ref, scheduledS)
    {
      var near := IsNear(m, running[k], t, ref, scheduledS);
      assert running[k..][0] == running[k] && running[k..][1..] == running[k + 1..];
      if near {
        return running[k];
      }
    }
    d := if |running| > 0 then running[0] else cands[0];
  }

  lemma {:induction false} RunningAre(s: Schedule, t: Trip, cands: seq<Date>, d: Date)
    ensures d in Running(s, t, cands) <==> d in cands && s.runsOn(t.serviceId, d)
  {
    if cands != [] {
      RunningAre(s, t, cands[1..], d);
    }
  }

  lemma {:induction false} FirstNearIs(m: Settings, t: Trip, dates: seq<Date>, ref: Instant, scheduledS: StopSeconds)
    ensures match FirstNear(m, t, dates, ref, scheduledS)
            case Some(d) => d in dates && Near(m, d, t, ref, scheduledS)
            case None => forall d | d in dates :: !Near(m, d, t, ref, scheduledS)
  {
    if dates != [] {
      FirstNearIs(m, t, dates[1..], ref, scheduledS);
    }
  }

  /** Two dates are near one scheduled time only if the tolerance spans half the gap between them. */
  lemma {:induction false} NearDatesAreClose(loc: Zone, tolerance: Duration, d: Date, e: Date, scheduledS: int, ref: Instant)
    requires d < e
    requires Within(tolerance, AtServiceOffset(loc, d, scheduledS), ref) && Within(tolerance, AtServiceOffset(loc, e, scheduledS), ref)
    ensures 2 * tolerance >= Hours(23)
  {
    StartsAscend(loc, d, e);
  }

  /** The date a run is on is the one picked for it, while the update is about an instant within
      tolerance of its schedule. */
  lemma {:induction false} RunIsDated(m: Settings, s: Schedule, t: Trip, cands: seq<Date>, ref: Instant, scheduledS: StopSeconds, d: Date)
    requires 2 * m.tolerance < Hours(23) && scheduledS != NO_TIME
    requires d in cands && s.runsOn(t.serviceId, d) && Near(m, d, t, ref, scheduledS)
    ensures Picked(m, s, t, cands, ref, scheduledS) == d
  {
    var running := Running(s, t, cands);
    RunningAre(s, t, cands, d);
    FirstNearIs(m, t, running, ref, scheduledS);
    var e := FirstNear(m, t, running, ref, scheduledS).value;
    if d < e {
      NearDatesAreClose(m.loc, m.tolerance, d, e, scheduledS, ref);
    } else if e < d {
      NearDatesAreClose(m.loc, m.tolerance, e, d, scheduledS, ref);
    }
  }

  /** Whenever an update of a running trip is about an instant within tolerance of a call's time on
      one of the update's candidate dates, that date is picked. */
  ghost predicate RunsAreDated(m: Settings) {
    forall s: Schedule, t: Trip, at: Instant, ref: Instant, scheduledS: StopSeconds, d: Date |
      && scheduledS != NO_TIME && d in Candidates(m.loc, at, m.overlap)
      && s.runsOn(t.serviceId, d) && Near(m, d, t, ref, scheduledS) ::
      Picked(m, s, t, Candidates(m.loc, at, m.overlap), ref, scheduledS) == d
  }

  /** In Sydney the matcher tells yesterday's run from today's exactly while it tries one date only
      or twice the tolerance is less than 23 hours, the least gap between two service days' starts. */
  lemma {:induction false} RunsAreDatedExactly(m: Settings)
    requires m.loc == SYDNEY
    ensures RunsAreDated(m) <==> m.overlap <= 0 || 2 * m.tolerance < Hours(23)
  {
    if m.overlap <= 0 || 2 * m.tolerance < Hours(23) {
      forall s: Schedule, t: Trip, at: Instant, ref: Instant, scheduledS: StopSeconds, d: Date |
        && scheduledS != NO_TIME && d in Candidates(m.loc, at, m.overlap)
        && s.runsOn(t.serviceId, d) && Near(m, d, t, ref, scheduledS)
        ensures Picked(m, s, t, Candidates(m.loc, at, m.overlap), ref, scheduledS) == d
      {
        if m.overlap <= 0 {
          OnlyDateIsPicked(m, s, t, at, ref, scheduledS, d);
        } else {
          RunIsDated(m, s, t, Candidates(m.loc, at, m.overlap), ref, scheduledS, d);
        }
      }
    } else {
      ShortestGap();
      NewerRunIsPicked(m, OCTOBER_4_2026);
    }
  }

  lemma {:induction false} OnlyDateIsPicked(m: Settings, s: Schedule, t: Trip, at: Instant, ref: Instant, scheduledS: StopSeconds, d: Date)
    requires m.overlap <= 0 && d in Candidates(m.loc, at, m.overlap)
    ensures Picked(m, s, t, Candidates(m.loc, at, m.overlap), ref, scheduledS) == d
  {
    var cands := Candidates(m.loc, at, m.overlap);
    var running := Running(s, t, cands);
    assert cands == [d];
    FirstNearIs(m, t, running, ref, scheduledS);
    forall e | e in running ensures e == d {
      RunningAre(s, t, cands, e);
    }
    assert running != [] ==> running[0] in running;
  }

  /** Half way between the starts of two runs 23 hours apart, an update of the earlier run is taken
      for one of the later. */
  lemma {:induction false} NewerRunIsPicked(m: Settings, d: Date)
    requires ServiceDayStart(m.loc, d) - ServiceDayStart(m.loc, d - 1) == Hours(23)
    requires 0 < m.overlap && Hours(23) <= 2 * m.tolerance
    ensures !RunsAreDated(m)
  {
    var s, t := Schedule(map[], {}, (_, _) => true), Trip("", "", None, []);
    CandidatesAtStart(m, d);
    OtherIsPicked(m, s, t, d, ServiceDayStart(m.loc, d) - Seconds(41_400), 0);
  }

  lemma {:induction false} OtherIsPicked(m: Settings, s: Schedule, t: Trip, d: Date, ref: Instant, scheduledS: StopSeconds)
    requires Candidates(m.loc, ServiceDayStart(m.loc, d), m.overlap) == [d, d - 1] && scheduledS != NO_TIME
    requires s.runsOn(t.serviceId, d) && s.runsOn(t.serviceId, d - 1)
    requires Within(m.tolerance, AtServiceOffset(m.loc, d, scheduledS), ref)
    requires Within(m.tolerance, AtServiceOffset(m.loc, d - 1, scheduledS), ref)
    ensures !RunsAreDated(m)
  {
    FirstIsPicked(m, s, t, d, d - 1, ref, scheduledS);
    var at, e := ServiceDayStart(m.loc, d), d - 1;
    assert Near(m, e, t, ref, scheduledS) && e in Candidates(m.loc, at, m.overlap);
  }

  lemma {:induction false} CandidatesAtStart(m: Settings, d: Date)
    requires 0 < m.overlap
    ensures Candidates(m.loc, ServiceDayStart(m.loc, d), m.overlap) == [d, d - 1]
  {
    StartsAscend(m.loc, d, d + 1);
    OwningDayIsUnique(m.loc, ServiceDayStart(m.loc, d), d);
  }

  lemma {:induction false} FirstIsPicked(m: Settings, s: Schedule, t: Trip, d: Date, e: Date, ref: Instant, scheduledS: StopSeconds)
    requires s.runsOn(t.serviceId, d) && Near(m, d, t, ref, scheduledS)
    ensures Picked(m, s, t, [d, e], ref, scheduledS) == d
  {
    var running := Running(s, t, [d, e]);
    assert running[0] == d;
  }

  lemma {:induction false} ShortestGap()
    ensures ServiceDayStart(SYDNEY, OCTOBER_4_2026) - ServiceDayStart(SYDNEY, OCTOBER_4_2026 - 1) == Hours(23)
  {
    StartIs(SYDNEY, OCTOBER_4_2026);
    StartIs(SYDNEY, OCTOBER_4_2026 - 1);
    DaylightIn2026(OCTOBER_4_2026);
    DaylightIn2026(OCTOBER_4_2026 - 1);
  }
}
