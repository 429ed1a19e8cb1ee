/** A feed's timetable in memory, and finding the stop an update is about
    (internal/match/schedule.go and resolveStop and span in matcher.go). */
module Timetable {
  import opened Instants
  import opened Options

  /** A stop time as an offset into its service day, past 24 hours perhaps, or NO_TIME. */
  type StopSeconds = s: int | NO_TIME <= s witness NO_TIME

  /** The time of a call that the timetable does not time. */
  const NO_TIME := -1

  datatype StopTime = StopTime(order: int, stopId: string, arrS: StopSeconds, depS: StopSeconds)
  {
    /** The call's one time: that of departure if it has one, or else of arrival. */
    function Scheduled(): StopSeconds { if depS == NO_TIME then arrS else depS }
  }

  datatype Trip = Trip(routeId: string, serviceId: string, directionId: Option<int>, stops: seq<StopTime>)

  datatype Schedule = Schedule(trips: map<string, Trip>, stops: set<string>, runsOn: (string, Date) -> bool)

  /** Go's conversion to uint32. */
  function Uint32(v: int): int { v % 0x1_0000_0000 }

  /** No two calls of a trip share a stop_sequence. */
  predicate Sequenced(t: Trip) {
    forall i, j | 0 <= i < j < |t.stops| :: Uint32(t.stops[i].order) != Uint32(t.stops[j].order)
  }

  // Resolving a stop.

  predicate CallsAt(t: Trip, i: int, stopId: string) {
    0 <= i < |t.stops| && t.stops[i].stopId == stopId
  }

  predicate HasSequence(t: Trip, i: int, sequence: Option<int>) {
    0 <= i < |t.stops| && sequence == Some(Uint32(t.stops[i].order))
  }

  /** Order 1: the call is the first with the update's stop_sequence, and at no other stop than
      the update's, if it names one. */
  ghost predicate ResolvesBySequence(t: Trip, sequence: Option<int>, stopId: string, i: nat) {
    && HasSequence(t, i, sequence) && (forall j | HasSequence(t, j, sequence) :: i <= j)
    && (stopId == "" || CallsAt(t, i, stopId))
  }

  /** Order 2: the call is the trip's only one at the update's stop. */
  ghost predicate ResolvesByStop(t: Trip, stopId: string, i: nat) {
    stopId != "" && CallsAt(t, i, stopId) && forall j | CallsAt(t, j, stopId) :: j == i
  }

  ghost predicate CallsTwiceAt(t: Trip, stopId: string) {
    exists i, j :: i < j && CallsAt(t, i, stopId) && CallsAt(t, j, stopId)
  }

  /** The call an update resolves to: by order 1 if there is one, else by order 2. */
  ghost function Resolved(t: Trip, sequence: Option<int>, stopId: string): (call: Option<nat>)
    ensures call.Some? ==> call.value < |t.stops|
  {
    if i: nat :| ResolvesBySequence(t, sequence, stopId, i) then Some(i)
    else if i: nat :| ResolvesByStop(t, stopId, i) then Some(i)
    else None
  }

  /** An update that order 1 does not place is ambiguous when its stop is called at twice. */
  ghost predicate Ambiguous(t: Trip, sequence: Option<int>, stopId: string) {
    stopId != "" && CallsTwiceAt(t, stopId) && forall i: nat :: !ResolvesBySequence(t, sequence, stopId, i)
  }

  /** Finds the call of a trip that an update is about. */
  method ResolveStop(t: Trip, sequence: Option<int>, stopId: string) returns (call: Option<nat>, ambiguous: bool)
    ensures call == Resolved(t, sequence, stopId)
    ensures ambiguous <==> Ambiguous(t, sequence, stopId)
  {
    if sequence.Some? {
      for i := 0 to |t.stops|
        invariant forall j | HasSequence(t, j, sequence) :: i <= j
      {
        if Uint32(t.stops[i].order) == sequence.value {
          assert HasSequence(t, i, sequence);
          if stopId == "" || stopId == t.stops[i].stopId {
            assert ResolvesBySequence(t, sequence, stopId, i);
            return Some(i), false;
          }
          break;
        }
      }
    }
    if stopId == "" {
      return None, false;
    }
    call, ambiguous := None, false;
    for i := 0 to |t.stops|
      invariant call == None ==> forall j | CallsAt(t, j, stopId) :: i <= j
      invariant call.Some? ==> call.value < i && CallsAt(t, call.value, stopId)
      invariant call.Some? ==> forall j | CallsAt(t, j, stopId) :: j == call.value || i <= j
    {
      if t.stops[i].stopId == stopId {
        assert CallsAt(t, i, stopId);
        if call.Some? {
          assert CallsTwiceAt(t, stopId);
          return None, true;
        }
        call := Some(i);
      }
    }
    if call.Some? {
      assert ResolvesByStop(t, stopId, call.value);
    }
  }

  /** Sequences being distinct, an update resolved to the call with its sequence is one that order
      1 resolved: comparing the two counts order 1 exactly. */
  lemma {:induction false} SequenceMeansOrderOne(t: Trip, sequence: Option<int>, stopId: string)
    requires Sequenced(t) && Resolved(t, sequence, stopId).Some?
    ensures var i := Resolved(t, sequence, stopId).value;
            HasSequence(t, i, sequence) <==> ResolvesBySequence(t, sequence, stopId, i)
  {}

  /** An update whose stop the timetable has on the trip is resolved unless it is ambiguous; one
      with neither stop nor known sequence never is. */
  lemma {:induction false} UnresolvedExactly(t: Trip, sequence: Option<int>, stopId: string)
    requires stopId != "" && forall i: nat :: !ResolvesBySequence(t, sequence, stopId, i)
    ensures Resolved(t, sequence, stopId).None? <==> CallsTwiceAt(t, stopId) || forall i :: !CallsAt(t, i, stopId)
  {
    if i :| CallsAt(t, i, stopId) {
      assert ResolvesByStop(t, stopId, i) || CallsTwiceAt(t, stopId);
    }
  }

  /** An update that names a stop is never resolved to a call at another, and one that names none is
      resolved only to the first call with its sequence. */
  lemma {:induction false} ResolvedIsMeant(t: Trip, sequence: Option<int>, stopId: string)
    requires Resolved(t, sequence, stopId).Some?
    ensures var i := Resolved(t, sequence, stopId).value;
            if stopId != "" then t.stops[i].stopId == stopId
            else sequence == Some(Uint32(t.stops[i].order)) && forall j | 0 <= j < i :: sequence != Some(Uint32(t.stops[j].order))
  {
    var i := Resolved(t, sequence, stopId).value;
    if stopId == "" {
      forall j | 0 <= j < i ensures sequence != Some(Uint32(t.stops[j].order)) {
        assert !HasSequence(t, j, sequence);
      }
    }
  }

  /** Of a stop that the trip calls at more than once the sequence tells the calls apart: the first
      call with the update's sequence is the one, if it is at the stop. */
  lemma {:induction false} SequenceDecides(t: Trip, sequence: Option<int>, stopId: string, i: nat)
    requires i < |t.stops| && t.stops[i].stopId == stopId && sequence == Some(Uint32(t.stops[i].order))
    requires forall j | 0 <= j < i :: sequence != Some(Uint32(t.stops[j].order))
    ensures Resolved(t, sequence, stopId) == Some(i)
  {
    assert HasSequence(t, i, sequence);
    assert ResolvesBySequence(t, sequence, stopId, i);
  }

  /** An update of a stop that is not resolved is ambiguous exactly when the trip calls there more than
      once; one that is resolved, or names no stop, is not. */
  lemma {:induction false} AmbiguousExactly(t: Trip, sequence: Option<int>, stopId: string)
    ensures Ambiguous(t, sequence, stopId) <==>
            Resolved(t, sequence, stopId).None? && stopId != "" &&
            exists i, j :: 0 <= i < j < |t.stops| && t.stops[i].stopId == stopId && t.stops[j].stopId == stopId
  {
    if i, j :| 0 <= i < j < |t.stops| && t.stops[i].stopId == stopId && t.stops[j].stopId == stopId {
      assert CallsAt(t, i, stopId) && CallsAt(t, j, stopId);
    }
  }

  // A trip's span.

  function Times(stops: seq<StopTime>): seq<StopSeconds> {
    if stops == [] then []
    else
      var st := stops[|stops| - 1];
      Times(stops[..|stops| - 1]) + [st.arrS, st.depS]
  }

  /** The least and the greatest of the known times, or NO_TIME when none is. */
  predicate Spans(times: seq<StopSeconds>, first: StopSeconds, last: StopSeconds) {
    && (first == NO_TIME <==> last == NO_TIME)
    && (first != NO_TIME ==> first in times && last in times)
    && forall v | v in times && v != NO_TIME :: first != NO_TIME && first <= v <= last
  }

  /** The least and the greatest time in the trip's calls; NO_TIME for both if it has none. */
  method Span(t: Trip) returns (first: StopSeconds, last: StopSeconds)
    ensures Spans(Times(t.stops), first, last)
  {
    first, last := NO_TIME, NO_TIME;
    for i := 0 to |t.stops|
      invariant Spans(Times(t.stops[..i]), first, last)
    {
      var both := [t.stops[i].arrS, t.stops[i].depS];
      ghost var before := Times(t.stops[..i]);
      for j := 0 to 2
        invariant Spans(before + both[..j], first, last)
      {
        var v := both[j];
        assert before + both[..j + 1] == before + both[..j] + [v];
        if v == NO_TIME {
          continue;
        }
        if first == NO_TIME || v < first {
          first := v;
        }
        if v > last {
          last := v;
        }
      }
      assert both[..2] == both && t.stops[..i + 1][..i] == t.stops[..i];
    }
    assert t.stops[..|t.stops|] == t.stops;
  }
}
