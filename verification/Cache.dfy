/** The in-memory answer to what runs now: one snapshot a feed, replaced poll by poll
    (internal/cache/latest.go). */
module Cache {
  import opened Instants
  import opened Options
  import opened Observations
  import opened LastWins
  import opened Gathering

  datatype Trip = Trip(
    feedId: string,
    tripId: string,
    routeId: string,
    serviceDate: Date,
    directionId: Option<int>,
    vehicleId: string,
    tripRel: int,
    matched: bool,
    nextStopId: string,
    nextStopSeq: Option<int>,
    delayS: Option<int>,
    lastUpdate: Instant)

  datatype Call = Call(
    feedId: string,
    tripId: string,
    routeId: string,
    serviceDate: Date,
    stopSeq: Option<int>,
    delayS: Option<int>,
    stopTimeRel: int,
    tripRel: int,
    matched: bool)

  function TripOf(o: Observation): Trip {
    Trip(o.feedId, o.tripId, o.routeId, o.serviceDate, o.directionId, o.vehicleId, o.tripRel, o.matched,
         o.stopId, o.stopSequence, o.observedDelayS, o.feedTs)
  }

  function CallOf(o: Observation): Call {
    Call(o.feedId, o.tripId, o.routeId, o.serviceDate, o.stopSequence, o.observedDelayS, o.stopTimeRel, o.tripRel, o.matched)
  }

  const SERVED_AFTER: Duration := 300_000_000_000
  const TRIP_SCHEDULED := 0
  const TRIP_REPLACEMENT := 5

  /** An unmatched observation whose relationship to the timetable is that of a timetabled trip. */
  predicate Ghost(o: Observation) { !o.matched && (o.tripRel == TRIP_SCHEDULED || o.tripRel == TRIP_REPLACEMENT) }

  /** The predicted time lies more than the threshold before the feed's header. */
  predicate Served(o: Observation, feedTs: Instant) {
    o.scheduledAt.Some? && feedTs - (o.scheduledAt.value + Seconds(o.observedDelayS.GetOr(0))) > SERVED_AFTER
  }

  /** The observations of a poll that "now" shows. */
  function Shown(obs: seq<Observation>, feedTs: Instant): seq<Observation> {
    if obs == [] then []
    else
      var o := obs[|obs| - 1];
      Shown(obs[..|obs| - 1], feedTs) + if Served(o, feedTs) || Ghost(o) then [] else [o]
  }

  /** A run of a trip. */
  datatype TripKey = TripKey(serviceDate: Date, tripId: string)

  function TripKeyOf(o: Observation): TripKey { TripKey(o.serviceDate, o.tripId) }

  function TripKeys(shown: seq<Observation>): (keys: seq<TripKey>)
    ensures |keys| == |shown|
  {
    seq(|shown|, i requires 0 <= i < |shown| => TripKeyOf(shown[i]))
  }

  /** The first observation shown of each trip: its next stop. */
  function Nexts(shown: seq<Observation>): seq<Observation> {
    if shown == [] then []
    else
      var init, o := shown[..|shown| - 1], shown[|shown| - 1];
      Nexts(init) + if TripKeyOf(o) in TripKeys(init) then [] else [o]
  }

  /** The calls at a stop, found by looking through all that is shown. */
  function CallsAt(shown: seq<Observation>, stopId: string): seq<Call> {
    if shown == [] then []
    else
      var o := shown[|shown| - 1];
      CallsAt(shown[..|shown| - 1], stopId) + if o.stopId == stopId then [CallOf(o)] else []
  }

  /** The trips on a route, found by looking through each trip's next stop. */
  function TripsOn(nexts: seq<Observation>, routeId: string): seq<Trip> {
    if nexts == [] then []
    else
      var o := nexts[|nexts| - 1];
      TripsOn(nexts[..|nexts| - 1], routeId) + if o.routeId == routeId then [TripOf(o)] else []
  }

  /** What is known of a feed since its last poll that moved on. */
  datatype Snapshot = Snapshot(
    feedTs: Instant,
    byRoute: map<string, seq<Trip>>,
    byStop: map<string, seq<Call>>,
    stalled: nat)  // polls in a row, up to this one, that did not advance

  datatype Poll = Poll(feedTs: Instant, obs: seq<Observation>)

  /** The map holds what looking through all that is shown finds, and nothing else. */
  ghost predicate IndexesStops(byStop: map<string, seq<Call>>, shown: seq<Observation>) {
    forall k :: (k in byStop <==> CallsAt(shown, k) != []) && (k in byStop ==> byStop[k] == CallsAt(shown, k))
  }

  ghost predicate IndexesRoutes(byRoute: map<string, seq<Trip>>, nexts: seq<Observation>) {
    forall k :: (k in byRoute <==> TripsOn(nexts, k) != []) && (k in byRoute ==> byRoute[k] == TripsOn(nexts, k))
  }

  /** Appends to an entry of an index. */
  function Appended<V>(index: map<string, seq<V>>, k: string, v: V): map<string, seq<V>> {
    index[k := (if k in index then index[k] else []) + [v]]
  }

  /** Builds the indexes of one poll. */
  method Build(feedTs: Instant, obs: seq<Observation>) returns (byRoute: map<string, seq<Trip>>, byStop: map<string, seq<Call>>)
    ensures IndexesStops(byStop, Shown(obs, feedTs)) && IndexesRoutes(byRoute, Nexts(Shown(obs, feedTs)))
  {
    byRoute, byStop := map[], map[];
    var seen: set<TripKey> := {};
    ghost var shown := [];
    for n := 0 to |obs|
      invariant shown == Shown(obs[..n], feedTs)
      invariant IndexesStops(byStop, shown) && IndexesRoutes(byRoute, Nexts(shown))
      invariant forall k :: k in seen <==> k in TripKeys(shown)
    {
      var o := obs[n];
      PrefixThen(obs, n);
      if Served(o, feedTs) || Ghost(o) {
        continue;
      }
      StopsThen(byStop, shown, o);
      NextsThen(shown, o);
      byStop := Appended(byStop, o.stopId, CallOf(o));
      RoutesThen(byRoute, Nexts(shown), o);
      shown := shown + [o];
      if TripKeyOf(o) in seen {
        continue;
      }
      seen := seen + {TripKeyOf(o)};
      byRoute := Appended(byRoute, o.routeId, TripOf(o));
    }
    assert obs[..|obs|] == obs;
  }

  lemma {:induction false} StopsThen(byStop: map<string, seq<Call>>, shown: seq<Observation>, o: Observation)
    requires IndexesStops(byStop, shown)
    ensures IndexesStops(Appended(byStop, o.stopId, CallOf(o)), shown + [o])
  {
    assert (shown + [o])[..|shown|] == shown;
  }

  lemma {:induction false} RoutesThen(byRoute: map<string, seq<Trip>>, nexts: seq<Observation>, o: Observation)
    requires IndexesRoutes(byRoute, nexts)
    ensures IndexesRoutes(Appended(byRoute, o.routeId, TripOf(o)), nexts + [o])
  {
    assert (nexts + [o])[..|nexts|] == nexts;
  }

  lemma {:induction false} NextsThen(shown: seq<Observation>, o: Observation)
    ensures TripKeys(shown + [o]) == TripKeys(shown) + [TripKeyOf(o)]
    ensures Nexts(shown + [o]) == if TripKeyOf(o) in TripKeys(shown) then Nexts(shown) else Nexts(shown) + [o]
  {
    assert (shown + [o])[..|shown|] == shown;
    assert Nexts(shown) + [] == Nexts(shown);
  }

  /** How many polls in a row, up to the last, did not advance past the one before. */
  function Stalled(polls: seq<Poll>): nat {
    if |polls| <= 1 || polls[|polls| - 1].feedTs > polls[|polls| - 2].feedTs then 0
    else 1 + Stalled(polls[..|polls| - 1])
  }

  /** Poll number i did not advance past the one before. */
  predicate FailsToAdvance(polls: seq<Poll>, i: int) {
    1 <= i < |polls| && polls[i].feedTs <= polls[i - 1].feedTs
  }

  lemma {:induction false} StalledCounts(polls: seq<Poll>, n: int)
    requires polls != []
    ensures Stalled(polls) >= n <==> forall i | |polls| - n <= i < |polls| :: FailsToAdvance(polls, i)
  {
    if n > 0 && FailsToAdvance(polls, |polls| - 1) {
      var init := polls[..|polls| - 1];
      StalledCounts(init, n - 1);
      assert forall i | 0 <= i < |init| :: FailsToAdvance(polls, i) <==> FailsToAdvance(init, i);
      assert Stalled(polls) == 1 + Stalled(init);
      if Stalled(polls) >= n {
        forall i | |polls| - n <= i < |polls| ensures FailsToAdvance(polls, i) {
          assert i < |init| ==> FailsToAdvance(init, i);
        }
      } else {
        var i :| |init| - (n - 1) <= i < |init| && !FailsToAdvance(init, i);
        assert !FailsToAdvance(polls, i);
      }
    } else if n > 0 {
      assert !FailsToAdvance(polls, |polls| - 1);
    }
  }

  /** A snapshot shows the last of a feed's polls. */
  ghost predicate Shows(s: Snapshot, polls: seq<Poll>) {
    polls != [] &&
    var last := polls[|polls| - 1];
    && s.feedTs == last.feedTs && s.stalled == Stalled(polls)
    && IndexesStops(s.byStop, Shown(last.obs, last.feedTs))
    && IndexesRoutes(s.byRoute, Nexts(Shown(last.obs, last.feedTs)))
  }

  lemma {:induction false} ShowsThen(prev: Option<Snapshot>, polls: seq<Poll>, s: Snapshot, poll: Poll)
    requires if prev.Some? then Shows(prev.value, polls) else polls == []
    requires s.feedTs == poll.feedTs
    requires s.stalled == if prev.Some? && s.feedTs <= prev.value.feedTs then prev.value.stalled + 1 else 0
    requires IndexesStops(s.byStop, Shown(poll.obs, poll.feedTs)) && IndexesRoutes(s.byRoute, Nexts(Shown(poll.obs, poll.feedTs)))
    ensures Shows(s, polls + [poll])
  {
    assert (polls + [poll])[..|polls|] == polls;
  }

  /** One of a snapshot's indexes, and its feed timestamp. */
  datatype Dated<K, V> = Dated(feedTs: Instant, index: map<K, seq<V>>)

  predicate Reports<K, V>(d: Dated<K, V>, k: K, ttl: Duration, now: Instant) { now - d.feedTs <= ttl && k in d.index }

  function Parts<F, K, V>(snaps: map<F, Dated<K, V>>, k: K, ttl: Duration, now: Instant): map<F, seq<V>> {
    map f | f in snaps :: if Reports(snaps[f], k, ttl, now) then snaps[f].index[k] else []
  }

  /** The feed timestamps of the snapshots, among some, that report something under a key. */
  ghost function Times<F, K, V>(snaps: map<F, Dated<K, V>>, among: seq<F>, k: K, ttl: Duration, now: Instant): map<F, Instant> {
    map f | f in among && f in snaps && Reports(snaps[f], k, ttl, now) :: snaps[f].feedTs
  }

  lemma {:induction false} TimesThen<F, K, V>(snaps: map<F, Dated<K, V>>, among: seq<F>, f: F, k: K, ttl: Duration, now: Instant)
    requires f in snaps
    ensures var times := Times(snaps, among, k, ttl, now);
            Times(snaps, among + [f], k, ttl, now) == if Reports(snaps[f], k, ttl, now) then times[f := snaps[f].feedTs] else times
  {}

  /** found says whether there are any times, and asOf is the oldest. */
  ghost predicate IsOldest<F>(times: map<F, Instant>, asOf: Instant, found: bool) {
    && (found <==> times != map[])
    && (found ==> asOf in times.Values && forall f | f in times :: asOf <= times[f])
  }

  lemma {:induction false} OldestThen<F, K, V>(snaps: map<F, Dated<K, V>>, among: seq<F>, f: F, k: K, ttl: Duration, now: Instant, asOf: Instant, found: bool)
    requires f in snaps && IsOldest(Times(snaps, among, k, ttl, now), asOf, found)
    ensures var more, t := Times(snaps, among + [f], k, ttl, now), snaps[f].feedTs;
            if !Reports(snaps[f], k, ttl, now) then IsOldest(more, asOf, found)
            else IsOldest(more, if !found || t < asOf then t else asOf, true)
  {
    var times, t := Times(snaps, among, k, ttl, now), snaps[f].feedTs;
    TimesThen(snaps, among, f, k, ttl, now);
    assert times[f := t][f] == t;
    if found && asOf <= t {
      var g :| g in times && times[g] == asOf;
      assert times[f := t][g] == asOf;
    }
  }

  /** Puts together what the fresh snapshots hold under a key, and the oldest timestamp of those
      that do hold something. */
  method Collect<F(==), K, V>(order: seq<F>, snaps: map<F, Dated<K, V>>, k: K, ttl: Duration, now: Instant)
    returns (all: seq<V>, asOf: Instant, found: bool)
    requires forall f | f in order :: f in snaps
    ensures all == Gathered(order, Parts(snaps, k, ttl, now))
    ensures IsOldest(Times(snaps, order, k, ttl, now), asOf, found)
  {
    all, asOf, found := [], 0, false;
    ghost var parts := Parts(snaps, k, ttl, now);
    for n := 0 to |order|
      invariant all == Gathered(order[..n], parts)
      invariant IsOldest(Times(snaps, order[..n], k, ttl, now), asOf, found)
    {
      var s := snaps[order[n]];
      InitAndLast(order[..n + 1]);
      assert order[..n + 1][..n] == order[..n];
      OldestThen(snaps, order[..n], order[n], k, ttl, now, asOf, found);
      if now - s.feedTs > ttl || k !in s.index {
        continue;
      }
      all := all + s.index[k];
      if !found || s.feedTs < asOf {
        asOf := s.feedTs;
      }
      found := true;
    }
    assert order[..|order|] == order;
  }

  /** The keys of a map, in whatever order the map gives them. */
  method Listing<F(==)>(keys: set<F>) returns (order: seq<F>)
    ensures Lists(order, keys)
  {
    order := [];
    var rest := keys;
    while rest != {}
      invariant rest <= keys && Lists(order, keys - rest)
      decreases rest
    {
      var f :| f in rest;
      assert keys - (rest - {f}) == keys - rest + {f};
      rest, order := rest - {f}, order + [f];
    }
    assert keys - rest == keys;
  }

  function Last(polls: seq<Poll>): Poll
    requires polls != []
  {
    polls[|polls| - 1]
  }

  /** What the last poll of each feed has, of those heard of recently. */
  ghost function Fresh<F, V>(polls: map<F, seq<Poll>>, scan: Poll -> seq<V>, ttl: Duration, now: Instant): map<F, seq<V>> {
    map f | f in polls :: if polls[f] != [] && now - Last(polls[f]).feedTs <= ttl then scan(Last(polls[f])) else []
  }

  ghost function TripsScan(routeId: string): Poll -> seq<Trip> { (p: Poll) => TripsOn(Nexts(Shown(p.obs, p.feedTs)), routeId) }

  ghost function CallsScan(stopId: string): Poll -> seq<Call> { (p: Poll) => CallsAt(Shown(p.obs, p.feedTs), stopId) }

  /** The answer is that of looking through the last polls: asOf is the least of the feed
      timestamps of those with something to say, and found whether there are any. */
  ghost predicate Answers<F(!new), V>(polls: map<F, seq<Poll>>, scan: Poll -> seq<V>, ttl: Duration, now: Instant,
                             all: seq<V>, asOf: Instant, found: bool) {
    var parts := Fresh(polls, scan, ttl, now);
    && (exists order :: Lists(order, polls.Keys) && all == Gathered(order, parts))
    && IsOldest(TimesOf(polls, parts), asOf, found)
  }

  ghost function TimesOf<F, V>(polls: map<F, seq<Poll>>, parts: map<F, seq<V>>): map<F, Instant> {
    map f | f in polls && f in parts && parts[f] != [] && polls[f] != [] :: Last(polls[f]).feedTs
  }

  /** The snapshot holds under the key what a scan of the poll finds. */
  ghost predicate Agrees<K, V>(d: Dated<K, V>, polls: seq<Poll>, k: K, scan: Poll -> seq<V>) {
    && polls != [] && d.feedTs == Last(polls).feedTs
    && (k in d.index <==> scan(Last(polls)) != []) && (k in d.index ==> d.index[k] == scan(Last(polls)))
  }

  lemma {:induction false} CallsAgree(s: Snapshot, polls: seq<Poll>, stopId: string)
    requires Shows(s, polls)
    ensures Agrees(Dated(s.feedTs, s.byStop), polls, stopId, CallsScan(stopId))
  {}

  lemma {:induction false} TripsAgree(s: Snapshot, polls: seq<Poll>, routeId: string)
    requires Shows(s, polls)
    ensures Agrees(Dated(s.feedTs, s.byRoute), polls, routeId, TripsScan(routeId))
  {}

  /** What is collected from snapshots that agree with their last polls answers the question. */
  lemma {:induction false} CollectedAnswers<F(!new), K, V>(polls: map<F, seq<Poll>>, snaps: map<F, Dated<K, V>>, k: K, scan: Poll -> seq<V>,
                            ttl: Duration, now: Instant, order: seq<F>, all: seq<V>, asOf: Instant, found: bool)
    requires polls.Keys == snaps.Keys && forall f | f in snaps :: Agrees(snaps[f], polls[f], k, scan)
    requires Lists(order, snaps.Keys) && all == Gathered(order, Parts(snaps, k, ttl, now))
    requires IsOldest(Times(snaps, order, k, ttl, now), asOf, found)
    ensures Answers(polls, scan, ttl, now, all, asOf, found)
  {
    var parts := Fresh(polls, scan, ttl, now);
    assert Parts(snaps, k, ttl, now) == parts;
    ListedKeys(order, snaps.Keys);
    AgreeOnTimes(polls, snaps, order, k, scan, ttl, now);
  }

  lemma {:induction false} AgreeOnTimes<F(!new), K, V>(polls: map<F, seq<Poll>>, snaps: map<F, Dated<K, V>>, order: seq<F>, k: K, scan: Poll -> seq<V>,
                                    ttl: Duration, now: Instant)
    requires polls.Keys == snaps.Keys && forall f | f in snaps :: Agrees(snaps[f], polls[f], k, scan)
    requires forall f :: f in order <==> f in snaps
    ensures Times(snaps, order, k, ttl, now) == TimesOf(polls, Fresh(polls, scan, ttl, now))
  {
    var parts := Fresh(polls, scan, ttl, now);
    forall f | f in snaps
      ensures Reports(snaps[f], k, ttl, now) <==> parts[f] != []
      ensures polls[f] != [] && snaps[f].feedTs == Last(polls[f]).feedTs
    {
      assert Agrees(snaps[f], polls[f], k, scan);
    }
  }

  class Cache {
    const ttl: Duration
    var feeds: map<string, Snapshot>
    ghost var polls: map<string, seq<Poll>>  // all there have been, by feed

    ghost predicate Valid()
      reads this
    {
      feeds.Keys == polls.Keys && forall f | f in feeds :: Shows(feeds[f], polls[f])
    }

    constructor (ttl: Duration)
      ensures Valid() && this.ttl == ttl && polls == map[]
    {
      this.ttl, feeds, polls := ttl, map[], map[];
    }

    /** Replaces a feed's trips with those of one poll. */
    method Update(feedId: string, feedTs: Instant, obs: seq<Observation>)
      requires Valid()
      modifies this
      ensures Valid()
      ensures polls == old(polls)[feedId := (if feedId in old(polls) then old(polls)[feedId] else []) + [Poll(feedTs, obs)]]
    {
      var byRoute, byStop := Build(feedTs, obs);
      var s := Snapshot(feedTs, byRoute, byStop, 0);
      if feedId in feeds && !(feedTs > feeds[feedId].feedTs) {
        s := s.(stalled := feeds[feedId].stalled + 1);
      }
      ghost var before := if feedId in polls then polls[feedId] else [];
      ShowsThen(if feedId in feeds then Some(feeds[feedId]) else None, before, s, Poll(feedTs, obs));
      feeds := feeds[feedId := s];
      polls := polls[feedId := before + [Poll(feedTs, obs)]];
    }

    /** Whether each of a feed's last n polls failed to advance past its predecessor. */
    method Stale(feedId: string, n: int) returns (stale: bool)
      requires Valid()
      ensures stale <==> feedId in polls && forall i | |polls[feedId]| - n <= i < |polls[feedId]| :: FailsToAdvance(polls[feedId], i)
    {
      if feedId in feeds {
        StalledCounts(polls[feedId], n);
      }
      stale := feedId in feeds && feeds[feedId].stalled >= n;
    }

    /** The active trips on a route, across the feeds that are fresh. */
    method Route(routeId: string, now: Instant) returns (trips: seq<Trip>, asOf: Instant, found: bool)
      requires Valid()
      ensures Answers(polls, TripsScan(routeId), ttl, now, trips, asOf, found)
    {
      var order := Listing(feeds.Keys);
      ListedKeys(order, feeds.Keys);
      var snaps := map f | f in feeds :: Dated(feeds[f].feedTs, feeds[f].byRoute);
      trips, asOf, found := Collect(order, snaps, routeId, ttl, now);
      forall f | f in feeds ensures Agrees(snaps[f], polls[f], routeId, TripsScan(routeId)) {
        TripsAgree(feeds[f], polls[f], routeId);
      }
      CollectedAnswers(polls, snaps, routeId, TripsScan(routeId), ttl, now, order, trips, asOf, found);
    }

    /** The calls at a stop, across the feeds that are fresh. */
    method Stop(stopId: string, now: Instant) returns (calls: seq<Call>, asOf: Instant, found: bool)
      requires Valid()
      ensures Answers(polls, CallsScan(stopId), ttl, now, calls, asOf, found)
    {
      var order := Listing(feeds.Keys);
      ListedKeys(order, feeds.Keys);
      var snaps := map f | f in feeds :: Dated(feeds[f].feedTs, feeds[f].byStop);
      calls, asOf, found := Collect(order, snaps, stopId, ttl, now);
      forall f | f in feeds ensures Agrees(snaps[f], polls[f], stopId, CallsScan(stopId)) {
        CallsAgree(feeds[f], polls[f], stopId);
      }
      CollectedAnswers(polls, snaps, stopId, CallsScan(stopId), ttl, now, order, calls, asOf, found);
    }
  }

  /** Each trip shown has one next stop, the first of its observations shown. */
  lemma {:induction false} NextsAre(shown: seq<Observation>)
    ensures TripKeys(Nexts(shown)) == Firsts(TripKeys(shown))
    ensures forall o | o in Nexts(shown) :: TripKeyOf(o) in TripKeys(shown) && o == shown[FirstIndex(TripKeys(shown), TripKeyOf(o))]
  {
    if shown != [] {
      var init, o := shown[..|shown| - 1], shown[|shown| - 1];
      NextsAre(init);
      FirstsAre(TripKeys(init));
      InitAndLast(shown);
      NextsThen(init, o);
      KeysThen(Nexts(init), o);
      FirstsThen(TripKeys(init), TripKeyOf(o));
    }
  }

  lemma {:induction false} KeysThen(shown: seq<Observation>, o: Observation)
    ensures TripKeys(shown + [o]) == TripKeys(shown) + [TripKeyOf(o)]
  {}

  /** The lists of trips by route hold each of them once: under its own route, as its next stop. */
  lemma {:induction false} TripsAreNexts(nexts: seq<Observation>, routeId: string, t: Trip)
    ensures multiset(TripsOn(nexts, routeId))[t] == if t.routeId == routeId then multiset(TripsOf(nexts))[t] else 0
  {
    if nexts != [] {
      var init, o := nexts[..|nexts| - 1], nexts[|nexts| - 1];
      TripsAreNexts(init, routeId, t);
      assert TripsOf(nexts) == TripsOf(init) + [TripOf(o)];
    }
  }

  function TripsOf(nexts: seq<Observation>): seq<Trip> { seq(|nexts|, i requires 0 <= i < |nexts| => TripOf(nexts[i])) }
}
