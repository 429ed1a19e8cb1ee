/** What "now" shows and answers, in the feeds' own terms (internal/cache/latest.go). */
module Showing {
  import opened Instants
  import opened Options
  import opened Observations
  import opened Gathering
  import opened Cache

  // Which observations are shown.

  /** The instant the feed expects the call at, if the timetable has it. */
  function Expected(o: Observation): Option<Instant> {
    match o.scheduledAt
    case None => None
    case Some(at) => Some(at + (if o.observedDelayS.Some? then Seconds(o.observedDelayS.value) else 0))
  }

  /** Each observation is shown or not by itself, in the order of the poll. */
  lemma {:induction false} ShownOfBoth(obs: seq<Observation>, more: seq<Observation>, ts: Instant)
    ensures Shown(obs + more, ts) == Shown(obs, ts) + Shown(more, ts)
  {
    if more == [] {
      assert obs + more == obs;
    } else {
      var init, last := more[..|more| - 1], more[|more| - 1];
      ShownOfBoth(obs, init, ts);
      ShownThen(obs + init, last, ts);
      ShownThen(init, last, ts);
      InitAndLast(more);
      assert (obs + init) + [last] == obs + more;
    }
  }

  lemma {:induction false} ShownThen(obs: seq<Observation>, o: Observation, ts: Instant)
    ensures Shown(obs + [o], ts) == Shown(obs, ts) + Shown([o], ts)
  {
    assert (obs + [o])[..|obs|] == obs && [o][..0] == [];
  }

  /** One is shown until five minutes after the call was expected; without a match only if its trip
      is not one that the timetable should have. */
  lemma {:induction false} ShownExactly(o: Observation, ts: Instant)
    ensures Shown([o], ts) ==
            if (o.matched || o.tripRel !in {0, 5}) && (Expected(o).Some? ==> ts <= Expected(o).value + Seconds(300)) then [o] else []
  {
    assert [o][..0] == [] && Shown([], ts) == [];
  }

  lemma {:induction false} ShownAre(obs: seq<Observation>, ts: Instant, o: Observation)
    ensures o in Shown(obs, ts) <==>
            o in obs && (o.matched || o.tripRel !in {0, 5}) && (Expected(o).Some? ==> ts <= Expected(o).value + Seconds(300))
  {
    if obs != [] {
      ShownAre(obs[..|obs| - 1], ts, o);
      InitAndLast(obs);
    }
  }

  /** A call scheduled so much earlier and that much later is expected when it was: it is shown just
      as long. */
  lemma {:induction false} SoLateIsAsGood(o: Observation, secs: int, ts: Instant)
    requires o.scheduledAt.Some? && o.observedDelayS.Some?
    ensures var moved := o.(scheduledAt := Some(o.scheduledAt.value - Seconds(secs)), observedDelayS := Some(o.observedDelayS.value + secs));
            Shown([moved], ts) == [moved] <==> Shown([o], ts) == [o]
  {
    var moved := o.(scheduledAt := Some(o.scheduledAt.value - Seconds(secs)), observedDelayS := Some(o.observedDelayS.value + secs));
    ShownExactly(o, ts);
    ShownExactly(moved, ts);
  }

  /** What has gone from a poll does not come back in a later one that says the same of it. */
  lemma {:induction false} GoneIsGone(obs: seq<Observation>, others: seq<Observation>, ts: Instant, later: Instant, o: Observation)
    requires o in obs && o !in Shown(obs, ts) && ts <= later
    ensures o !in Shown(others, later)
  {
    ShownAre(obs, ts, o);
    ShownAre(others, later, o);
  }

  // Next stops.

  predicate SameRun(o: Observation, p: Observation) { o.serviceDate == p.serviceDate && o.tripId == p.tripId }

  /** It is the i-th shown, and the first of its run. */
  predicate IsFirst(shown: seq<Observation>, i: int, o: Observation) {
    0 <= i < |shown| && shown[i] == o && forall j | 0 <= j < i :: !SameRun(shown[j], o)
  }

  /** The next stops are, of each trip's run on each date, the first of it that is shown. */
  lemma {:induction false} NextIsFirst(shown: seq<Observation>, o: Observation)
    ensures o in Nexts(shown) <==> exists i :: IsFirst(shown, i, o)
  {
    if shown != [] {
      var init, last := shown[..|shown| - 1], shown[|shown| - 1];
      NextIsFirst(init, o);
      RunIsSeen(init, last);
      InitAndLast(shown);
      FirstThen(init, last, o);
    }
  }

  lemma {:induction false} FirstThen(init: seq<Observation>, last: Observation, o: Observation)
    ensures (exists i :: IsFirst(init + [last], i, o)) <==>
            (exists i :: IsFirst(init, i, o)) || (last == o && forall j | 0 <= j < |init| :: !SameRun(init[j], o))
  {
    var shown := init + [last];
    assert forall j | 0 <= j < |init| :: shown[j] == init[j];
    forall i | 0 <= i < |init| ensures IsFirst(shown, i, o) <==> IsFirst(init, i, o) {
      assert forall j | 0 <= j < i :: SameRun(shown[j], o) <==> SameRun(init[j], o);
    }
    assert forall j | 0 <= j < |init| :: SameRun(shown[j], o) <==> SameRun(init[j], o);
    assert IsFirst(shown, |init|, o) <==> last == o && forall j | 0 <= j < |init| :: !SameRun(init[j], o);
    assert forall i :: IsFirst(shown, i, o) ==> i < |init| || i == |init|;
  }

  lemma {:induction false} RunIsSeen(shown: seq<Observation>, o: Observation)
    ensures TripKeyOf(o) in TripKeys(shown) <==> exists j :: 0 <= j < |shown| && SameRun(shown[j], o)
  {
    if j :| 0 <= j < |shown| && SameRun(shown[j], o) {
      assert TripKeys(shown)[j] == TripKeyOf(o);
    }
  }

  // What a call and a trip tell.

  /** The call tells of an observation what a passenger at the stop asks. */
  predicate TellsCall(c: Call, o: Observation) {
    && c.feedId == o.feedId && c.tripId == o.tripId && c.serviceDate == o.serviceDate && c.routeId == o.routeId
    && c.stopSeq == o.stopSequence && c.delayS == o.observedDelayS && c.matched == o.matched
    && c.tripRel == o.tripRel && c.stopTimeRel == o.stopTimeRel
  }

  predicate TellsTrip(t: Trip, o: Observation) {
    && t.feedId == o.feedId && t.tripId == o.tripId && t.serviceDate == o.serviceDate && t.routeId == o.routeId
    && t.directionId == o.directionId && t.vehicleId == o.vehicleId && t.tripRel == o.tripRel && t.matched == o.matched
    && t.nextStopId == o.stopId && t.nextStopSeq == o.stopSequence && t.delayS == o.observedDelayS && t.lastUpdate == o.feedTs
  }

  /** The places of the observations at a stop, or of those on a route. */
  function PlacesAt(shown: seq<Observation>, stopId: string): seq<nat> {
    if shown == [] then [] else PlacesAt(shown[..|shown| - 1], stopId) + if shown[|shown| - 1].stopId == stopId then [|shown| - 1] else []
  }

  function PlacesOn(nexts: seq<Observation>, routeId: string): seq<nat> {
    if nexts == [] then [] else PlacesOn(nexts[..|nexts| - 1], routeId) + if nexts[|nexts| - 1].routeId == routeId then [|nexts| - 1] else []
  }

  lemma {:induction false} CallsTell(shown: seq<Observation>, stopId: string)
    ensures var calls, places := CallsAt(shown, stopId), PlacesAt(shown, stopId);
            |calls| == |places| && forall i | 0 <= i < |calls| :: places[i] < |shown| && TellsCall(calls[i], shown[places[i]])
  {
    if shown != [] {
      CallsTell(shown[..|shown| - 1], stopId);
    }
  }

  lemma {:induction false} TripsTell(nexts: seq<Observation>, routeId: string)
    ensures var trips, places := TripsOn(nexts, routeId), PlacesOn(nexts, routeId);
            |trips| == |places| && forall i | 0 <= i < |trips| :: places[i] < |nexts| && TellsTrip(trips[i], nexts[places[i]])
  {
    if nexts != [] {
      TripsTell(nexts[..|nexts| - 1], routeId);
    }
  }

  /** A feed has been stalled for n polls when none of its last n, a first poll never counting, came
      with a later header timestamp than the one before. */
  lemma {:induction false} StalledMeans(polls: seq<Poll>, n: nat)
    requires polls != []
    ensures n <= Stalled(polls) <==> n < |polls| && forall i | |polls| - n <= i < |polls| :: polls[i].feedTs <= polls[i - 1].feedTs
  {
    StalledCounts(polls, n);
    assert !FailsToAdvance(polls, 0);
    if n < |polls| {
      assert forall i | |polls| - n <= i < |polls| :: FailsToAdvance(polls, i) <==> polls[i].feedTs <= polls[i - 1].feedTs;
    }
  }

  // Answers.

  /** The feed was heard of within the time to live, and has something to say. */
  ghost predicate HasAnswer<F, V>(polls: map<F, seq<Poll>>, scan: Poll -> seq<V>, ttl: Duration, now: Instant, f: F) {
    f in polls && polls[f] != [] && now <= polls[f][|polls[f]| - 1].feedTs + ttl && scan(polls[f][|polls[f]| - 1]) != []
  }

  /** An answer has what the last polls of such feeds have, and nothing else; it is found if there are
      any, and is as old as the oldest of them. */
  lemma {:induction false} AnswersAre<F(!new), V(!new)>(polls: map<F, seq<Poll>>, scan: Poll -> seq<V>, ttl: Duration, now: Instant,
                                                  all: seq<V>, asOf: Instant, found: bool)
    requires Answers(polls, scan, ttl, now, all, asOf, found)
    ensures forall v :: v in all <==> exists f :: HasAnswer(polls, scan, ttl, now, f) && v in scan(polls[f][|polls[f]| - 1])
    ensures found <==> exists f :: HasAnswer(polls, scan, ttl, now, f)
    ensures found ==> (exists f :: HasAnswer(polls, scan, ttl, now, f) && asOf == polls[f][|polls[f]| - 1].feedTs)
    ensures found ==> forall f | HasAnswer(polls, scan, ttl, now, f) :: asOf <= polls[f][|polls[f]| - 1].feedTs
  {
    var parts := Fresh(polls, scan, ttl, now);
    var order :| Lists(order, polls.Keys) && all == Gathered(order, parts);
    ListedKeys(order, polls.Keys);
    forall v ensures v in all <==> exists f :: HasAnswer(polls, scan, ttl, now, f) && v in scan(polls[f][|polls[f]| - 1]) {
      InAnswer(polls, scan, ttl, now, order, v);
    }
    assert forall f :: f in TimesOf(polls, parts) <==> HasAnswer(polls, scan, ttl, now, f);
  }

  lemma {:induction false} InAnswer<F(!new), V(!new)>(polls: map<F, seq<Poll>>, scan: Poll -> seq<V>, ttl: Duration, now: Instant, order: seq<F>, v: V)
    requires forall f :: f in order <==> f in polls
    ensures v in Gathered(order, Fresh(polls, scan, ttl, now)) <==>
            exists f :: HasAnswer(polls, scan, ttl, now, f) && v in scan(polls[f][|polls[f]| - 1])
  {
    var parts := Fresh(polls, scan, ttl, now);
    InGathered(order, parts, v);
    if f :| f in order && v in PartOf(parts, f) {
      assert HasAnswer(polls, scan, ttl, now, f);
    }
    if f :| HasAnswer(polls, scan, ttl, now, f) && v in scan(polls[f][|polls[f]| - 1]) {
      assert f in order && v in PartOf(parts, f);
    }
  }

  lemma {:induction false} InGathered<K, V>(order: seq<K>, parts: map<K, seq<V>>, v: V)
    ensures v in Gathered(order, parts) <==> exists k :: k in order && v in PartOf(parts, k)
  {
    if order != [] {
      var init, last := order[..|order| - 1], order[|order| - 1];
      InGathered(init, parts, v);
      assert last in order && forall k :: k in order <==> k in init || k == last;
    }
  }
}
