/** The hourly tables (migrations/0003) and the aggregation that fills them
    (internal/rollup/rollup.go). */
module RollupTables {
  import opened Instants
  import opened Options
  import opened Observations
  import opened RollupQuery

  /** The on-time bands, in seconds of delay. */
  datatype Thresholds = Thresholds(earlyS: int, lateS: int, veryLateS: int) {
    /** What the configuration insists on. */
    predicate Ordered() { earlyS < lateS < veryLateS }
  }

  datatype StopKey = StopKey(bucketStart: Instant, stopId: string, routeId: string, directionId: int)

  datatype RouteKey = RouteKey(bucketStart: Instant, routeId: string, directionId: int)

  /** The aggregated columns. The mean is left out. */
  datatype Stats = Stats(
    serviceDate: Date,
    nObs: nat, nEarly: nat, nOnTime: nat, nLate: nat, nVeryLate: nat,
    nSkipped: nat, nCancelled: nat,
    p50: Option<int>, p90: Option<int>)

  const UNMATCHED := "~unmatched"
  const ALL_ROUTES := "~all"

  function Route(o: Observation): string { if o.routeId == "" then UNMATCHED else o.routeId }

  function Hour(o: Observation): Instant { TruncateHour(BucketTime(o)) }

  function StopKeyOf(o: Observation): StopKey {
    StopKey(Hour(o), o.stopId, Route(o), o.directionId.GetOr(-1))
  }

  function AllRoutesKeyOf(o: Observation): StopKey { StopKey(Hour(o), o.stopId, ALL_ROUTES, -1) }

  function RouteKeyOf(o: Observation): RouteKey { RouteKey(Hour(o), Route(o), o.directionId.GetOr(-1)) }

  // Aggregates of one group of visits.

  function Greatest(s: set<int>): (m: int)
    requires exists x :: x in s
    ensures m in s && forall x | x in s :: x <= m
  {
    GreatestExists(s);
    var m :| m in s && forall x | x in s :: x <= m;
    m
  }

  lemma {:induction false} GreatestExists(s: set<int>)
    requires exists x :: x in s
    ensures exists m :: m in s && forall x | x in s :: x <= m
  {
    var x :| x in s;
    if forall y | y in s :: y <= x {
      return;
    }
    var y :| y in s && y > x;
    assert y in s - {x};
    GreatestExists(s - {x});
    var m :| m in s - {x} && forall z | z in s - {x} :: z <= m;
    assert forall z | z in s :: z == x || z in s - {x};
    assert m in s && forall z | z in s :: z <= m;
  }

  function Least(s: set<int>): (m: int)
    requires exists x :: x in s
    ensures m in s && forall x | x in s :: m <= x
  {
    LeastExists(s);
    var m :| m in s && forall x | x in s :: m <= x;
    m
  }

  lemma {:induction false} LeastExists(s: set<int>)
    requires exists x :: x in s
    ensures exists m :: m in s && forall x | x in s :: m <= x
  {
    var negated := set x | x in s :: -x;
    var x :| x in s;
    assert -x in negated;
    assert -Greatest(negated) in s && forall y | y in s :: -y in negated;
  }

  /** The visits whose delay is known; cancelled and skipped calls have none. */
  function Known(group: set<Observation>): set<Observation> {
    set o | o in group && o.observedDelayS.Some?
  }

  function Delay(o: Observation): int { o.observedDelayS.GetOr(0) }

  function AtMost(group: set<Observation>, delayS: int): set<Observation> {
    set o | o in Known(group) && Delay(o) <= delayS
  }

  /** The delays that at least num / den of the visits do not exceed. */
  function Covering(group: set<Observation>, num: nat, den: nat): set<int> {
    set o | o in Known(group) && den * |AtMost(group, Delay(o))| >= num * |Known(group)| ::
      Delay(o)
  }

  lemma {:induction false} LatestCovers(group: set<Observation>, num: nat, den: nat)
    requires num <= den && Known(group) != {}
    ensures exists v :: v in Covering(group, num, den)
  {
    var delays := set o | o in Known(group) :: Delay(o);
    var o :| o in Known(group);
    assert exists d :: d in delays by { assert Delay(o) in delays; }
    var v := Greatest(delays);
    forall p | p in Known(group) ensures p in AtMost(group, v) {
      assert Delay(p) in delays;
    }
    assert AtMost(group, v) == Known(group);
    assert den * |Known(group)| >= num * |Known(group)|;
    assert v in Covering(group, num, den);
  }

  /** The aggregate percentile_disc at num / den, over the known delays. */
  function PercentileDisc(group: set<Observation>, num: nat, den: nat): Option<int>
    requires num <= den
  {
    if Known(group) == {} then None
    else LatestCovers(group, num, den); Some(Least(Covering(group, num, den)))
  }

  /** A percentile is a delay of the group that num / den of the visits do not exceed, while
      fewer stay below it. */
  lemma {:induction false} PercentileSplits(group: set<Observation>, num: nat, den: nat)
    requires 0 < num <= den
    ensures PercentileDisc(group, num, den).None? <==> Known(group) == {}
    ensures match PercentileDisc(group, num, den)
            case None => true
            case Some(v) =>
              && (exists o :: o in Known(group) && o.observedDelayS == Some(v))
              && den * |AtMost(group, v - 1)| < num * |Known(group)| <= den * |AtMost(group, v)|
  {
    if Known(group) != {} {
      LatestCovers(group, num, den);
      var v := Least(Covering(group, num, den));
      var below := set o | o in AtMost(group, v - 1) :: Delay(o);
      if AtMost(group, v - 1) != {} {
        var o :| o in AtMost(group, v - 1);
        assert Delay(o) in below;
        var u := Greatest(below);
        forall p | p in AtMost(group, v - 1) ensures p in AtMost(group, u) {
          assert Delay(p) in below;
        }
        assert AtMost(group, u) == AtMost(group, v - 1);
        assert u !in Covering(group, num, den);
      } else {
        assert AtMost(group, v - 1) == {};
        assert num * |Known(group)| > 0;
      }
    }
  }

  function Aggregate(t: Thresholds, group: set<Observation>): Stats
    requires group != {}
  {
    var dates := set o | o in group :: o.serviceDate;
    assert exists d :: d in dates by { var o :| o in group; assert o.serviceDate in dates; }
    Stats(
      Greatest(dates),
      |group|,
      |Early(t, group)|, |OnTime(t, group)|, |Late(t, group)|, |VeryLate(t, group)|,
      |Skipped(group)|,
      |Cancelled(group)|,
      PercentileDisc(group, 1, 2),
      PercentileDisc(group, 9, 10))
  }

  function Skipped(group: set<Observation>): set<Observation> { set o | o in group && o.stopTimeRel == 1 }

  function Cancelled(group: set<Observation>): set<Observation> { set o | o in group && o.tripRel == 3 }

  function Early(t: Thresholds, group: set<Observation>): set<Observation> {
    set o | o in Known(group) && Delay(o) < t.earlyS
  }

  function OnTime(t: Thresholds, group: set<Observation>): set<Observation> {
    set o | o in Known(group) && t.earlyS <= Delay(o) <= t.lateS
  }

  function Late(t: Thresholds, group: set<Observation>): set<Observation> {
    set o | o in Known(group) && t.lateS < Delay(o) <= t.veryLateS
  }

  function VeryLate(t: Thresholds, group: set<Observation>): set<Observation> {
    set o | o in Known(group) && t.veryLateS < Delay(o)
  }

  /** Ordered bands count every visit with a delay exactly once. */
  lemma {:induction false} BandsPartition(t: Thresholds, group: set<Observation>)
    requires t.Ordered() && group != {}
    ensures var s := Aggregate(t, group);
            s.nEarly + s.nOnTime + s.nLate + s.nVeryLate == |Known(group)|
  {
    var early, onTime, late, veryLate := Early(t, group), OnTime(t, group), Late(t, group), VeryLate(t, group);
    assert Known(group) == early + onTime + late + veryLate;
    assert early !! onTime !! late !! veryLate;
  }

  /** A percentile of the group: a known delay that at least num / den of them do not exceed, while
      fewer stay below it; none exactly when no delay is known. */
  ghost predicate IsPercentile(group: set<Observation>, num: nat, den: nat, p: Option<int>) {
    && (p.None? <==> Known(group) == {})
    && (p.Some? ==>
          && (exists o :: o in Known(group) && o.observedDelayS == p)
          && den * |AtMost(group, p.value - 1)| < num * |Known(group)| <= den * |AtMost(group, p.value)|)
  }

  lemma {:induction false} AtMostGrows(group: set<Observation>, v: int, w: int)
    requires v <= w
    ensures |AtMost(group, v)| <= |AtMost(group, w)|
  {
    Smaller(AtMost(group, v), AtMost(group, w));
  }

  lemma {:induction false} Smaller<T>(some: set<T>, all: set<T>)
    requires some <= all
    ensures |some| <= |all|
  {
    assert all == some + (all - some);
  }

  /** What a row says of its group's delays, by how many visits were at most so late: not one band
      of it is counted as another. */
  ghost predicate DescribesDelays(t: Thresholds, s: Stats, group: set<Observation>) {
    && s.nEarly == |AtMost(group, t.earlyS - 1)|
    && s.nEarly + s.nOnTime == |AtMost(group, t.lateS)|
    && s.nEarly + s.nOnTime + s.nLate == |AtMost(group, t.veryLateS)|
    && s.nEarly + s.nOnTime + s.nLate + s.nVeryLate == |Known(group)|
    && IsPercentile(group, 1, 2, s.p50) && IsPercentile(group, 9, 10, s.p90)
  }

  /** And of its visits otherwise. */
  ghost predicate DescribesVisits(s: Stats, group: set<Observation>) {
    && s.nObs == |group|
    && s.nSkipped + |(set o | o in group && o.stopTimeRel != 1)| == |group|
    && s.nCancelled + |(set o | o in group && o.tripRel != 3)| == |group|
    && (exists o :: o in group && o.serviceDate == s.serviceDate) && (forall o | o in group :: o.serviceDate <= s.serviceDate)
  }

  ghost predicate Describes(t: Thresholds, s: Stats, group: set<Observation>) {
    DescribesDelays(t, s, group) && DescribesVisits(s, group)
  }

  lemma {:induction false} AggregateDescribes(t: Thresholds, group: set<Observation>)
    requires t.Ordered() && group != {}
    ensures Describes(t, Aggregate(t, group), group)
  {
    BandsAdd(t, group);
    BandsPartition(t, group);
    PercentileSplits(group, 1, 2);
    PercentileSplits(group, 9, 10);
    var s := Aggregate(t, group);
    assert DescribesDelays(t, s, group);
    VisitsDescribed(t, group);
  }

  lemma {:induction false} VisitsDescribed(t: Thresholds, group: set<Observation>)
    requires group != {}
    ensures DescribesVisits(Aggregate(t, group), group)
  {
    LatestDate(t, group);
    SkippedAndCancelled(group);
  }

  lemma {:induction false} SkippedAndCancelled(group: set<Observation>)
    ensures |Skipped(group)| + |(set o | o in group && o.stopTimeRel != 1)| == |group|
    ensures |Cancelled(group)| + |(set o | o in group && o.tripRel != 3)| == |group|
  {
    Complements(group, Skipped(group), (set o | o in group && o.stopTimeRel != 1));
    Complements(group, Cancelled(group), (set o | o in group && o.tripRel != 3));
  }

  lemma {:induction false} BandsAdd(t: Thresholds, group: set<Observation>)
    requires t.Ordered()
    ensures AtMost(group, t.earlyS - 1) == Early(t, group)
    ensures |AtMost(group, t.lateS)| == |Early(t, group)| + |OnTime(t, group)|
    ensures |AtMost(group, t.veryLateS)| == |Early(t, group)| + |OnTime(t, group)| + |Late(t, group)|
  {
    Complements(AtMost(group, t.lateS), Early(t, group), OnTime(t, group));
    Complements(AtMost(group, t.veryLateS), AtMost(group, t.lateS), Late(t, group));
  }

  lemma {:induction false} Complements<T>(all: set<T>, some: set<T>, others: set<T>)
    requires all == some + others && some !! others
    ensures |some| + |others| == |all|
  {}

  /** Only one row describes a group. */
  lemma {:induction false} DescriptionIsUnique(t: Thresholds, s: Stats, s': Stats, group: set<Observation>)
    requires Describes(t, s, group) && Describes(t, s', group)
    ensures s == s'
  {
    PercentileIsUnique(group, 1, 2, s.p50, s'.p50);
    PercentileIsUnique(group, 9, 10, s.p90, s'.p90);
  }

  lemma {:induction false} PercentileIsUnique(group: set<Observation>, num: nat, den: nat, p: Option<int>, q: Option<int>)
    requires IsPercentile(group, num, den, p) && IsPercentile(group, num, den, q)
    ensures p == q
  {
    if p.Some? && p.value < q.value {
      AtMostGrows(group, p.value, q.value - 1);
    } else if p.Some? && q.value < p.value {
      AtMostGrows(group, q.value, p.value - 1);
    }
  }

  /** One more visit moves the row's counts by what it is, and no other count. */
  lemma {:induction false} OneMoreVisit(t: Thresholds, group: set<Observation>, o: Observation)
    requires t.Ordered() && group != {} && o !in group
    ensures var s, s' := Aggregate(t, group), Aggregate(t, group + {o});
            && s'.nObs == s.nObs + 1
            && s'.nSkipped == s.nSkipped + (if o.stopTimeRel == 1 then 1 else 0)
            && s'.nCancelled == s.nCancelled + (if o.tripRel == 3 then 1 else 0)
            && s'.serviceDate == if s.serviceDate < o.serviceDate then o.serviceDate else s.serviceDate
    ensures var s, s', d := Aggregate(t, group), Aggregate(t, group + {o}), o.observedDelayS;
            && s'.nEarly == s.nEarly + (if d.Some? && d.value < t.earlyS then 1 else 0)
            && s'.nOnTime == s.nOnTime + (if d.Some? && t.earlyS <= d.value <= t.lateS then 1 else 0)
            && s'.nLate == s.nLate + (if d.Some? && t.lateS < d.value <= t.veryLateS then 1 else 0)
            && s'.nVeryLate == s.nVeryLate + (if d.Some? && t.veryLateS < d.value then 1 else 0)
  {
    BandsMove(t, group, o);
    CountMore(Skipped(group), Skipped(group + {o}), o);
    CountMore(Cancelled(group), Cancelled(group + {o}), o);
    LatestDate(t, group);
    LatestDate(t, group + {o});
  }

  lemma {:induction false} LatestDate(t: Thresholds, group: set<Observation>)
    requires group != {}
    ensures var d := Aggregate(t, group).serviceDate;
            (exists o :: o in group && o.serviceDate == d) && (forall o | o in group :: o.serviceDate <= d)
  {
    var dates := set o | o in group :: o.serviceDate;
    assert forall o | o in group :: o.serviceDate in dates;
  }

  lemma {:induction false} BandsMove(t: Thresholds, group: set<Observation>, o: Observation)
    requires o !in group
    ensures var more, d := group + {o}, o.observedDelayS;
            && |Early(t, more)| == |Early(t, group)| + (if d.Some? && d.value < t.earlyS then 1 else 0)
            && |OnTime(t, more)| == |OnTime(t, group)| + (if d.Some? && t.earlyS <= d.value <= t.lateS then 1 else 0)
            && |Late(t, more)| == |Late(t, group)| + (if d.Some? && t.lateS < d.value <= t.veryLateS then 1 else 0)
            && |VeryLate(t, more)| == |VeryLate(t, group)| + (if d.Some? && t.veryLateS < d.value then 1 else 0)
  {
    EarlyMoves(t, group, o);
    OnTimeMoves(t, group, o);
    LateMoves(t, group, o);
    VeryLateMoves(t, group, o);
  }

  lemma {:induction false} EarlyMoves(t: Thresholds, group: set<Observation>, o: Observation)
    requires o !in group
    ensures var d := o.observedDelayS; |Early(t, group + {o})| == |Early(t, group)| + (if d.Some? && d.value < t.earlyS then 1 else 0)
  {
    CountMore(Early(t, group), Early(t, group + {o}), o);
  }

  lemma {:induction false} OnTimeMoves(t: Thresholds, group: set<Observation>, o: Observation)
    requires o !in group
    ensures var d := o.observedDelayS; |OnTime(t, group + {o})| == |OnTime(t, group)| + (if d.Some? && t.earlyS <= d.value <= t.lateS then 1 else 0)
  {
    CountMore(OnTime(t, group), OnTime(t, group + {o}), o);
  }

  lemma {:induction false} LateMoves(t: Thresholds, group: set<Observation>, o: Observation)
    requires o !in group
    ensures var d := o.observedDelayS; |Late(t, group + {o})| == |Late(t, group)| + (if d.Some? && t.lateS < d.value <= t.veryLateS then 1 else 0)
  {
    CountMore(Late(t, group), Late(t, group + {o}), o);
  }

  lemma {:induction false} VeryLateMoves(t: Thresholds, group: set<Observation>, o: Observation)
    requires o !in group
    ensures var d := o.observedDelayS; |VeryLate(t, group + {o})| == |VeryLate(t, group)| + (if d.Some? && t.veryLateS < d.value then 1 else 0)
  {
    CountMore(VeryLate(t, group), VeryLate(t, group + {o}), o);
  }

  lemma {:induction false} CountMore<T>(some: set<T>, more: set<T>, x: T)
    requires x !in some && (more == some || more == some + {x})
    ensures |more| == |some| + if x in more then 1 else 0
  {}

  // Grouping.

  function Keys<K>(rows: set<Observation>, key: Observation -> K): set<K> {
    set o | o in rows :: key(o)
  }

  function Group<K(==)>(rows: set<Observation>, key: Observation -> K, k: K): set<Observation> {
    set o | o in rows && key(o) == k
  }

  /** GROUP BY: the rows of each group, by its key. */
  function GroupBy<K(==)>(rows: set<Observation>, key: Observation -> K): (groups: map<K, set<Observation>>)
    ensures forall k | k in groups :: groups[k] != {}
  {
    var groups := map k | k in Keys(rows, key) :: Group(rows, key, k);
    forall k | k in groups ensures groups[k] != {} {
      var o :| o in rows && key(o) == k;
      assert o in groups[k];
    }
    groups
  }

  function Aggregated<K>(t: Thresholds, groups: map<K, set<Observation>>): map<K, Stats>
    requires forall k | k in groups :: groups[k] != {}
  {
    map k | k in groups :: Aggregate(t, groups[k])
  }

  /** The rows of the first statement: one per stop, route, direction and hour. */
  function StopRows(t: Thresholds, finals: set<Observation>): map<StopKey, Stats> {
    Aggregated(t, GroupBy(finals, StopKeyOf))
  }

  /** The rows of the second, whose groups take no account of the route. */
  function AllRoutesRows(t: Thresholds, finals: set<Observation>): map<StopKey, Stats> {
    Aggregated(t, GroupBy(finals, AllRoutesKeyOf))
  }

  /** The rows of the third: one per route, direction and hour. */
  function RouteRows(t: Thresholds, finals: set<Observation>): map<RouteKey, Stats> {
    Aggregated(t, GroupBy(finals, RouteKeyOf))
  }

  // Totals.

  ghost function Visits<K>(table: map<K, Stats>): nat {
    if table == map[] then 0
    else var k :| k in table; table[k].nObs + Visits(table - {k})
  }

  lemma {:induction false} VisitsWithout<K>(table: map<K, Stats>, k: K)
    requires k in table
    ensures Visits(table) == table[k].nObs + Visits(table - {k})
  {
    var j :| j in table && Visits(table) == table[j].nObs + Visits(table - {j});
    if j != k {
      VisitsWithout(table - {j}, k);
      VisitsWithout(table - {k}, j);
      assert table - {j} - {k} == table - {k} - {j};
    }
  }

  lemma {:induction false} VisitsOfDisjoint<K>(table: map<K, Stats>, added: map<K, Stats>)
    requires table.Keys !! added.Keys
    ensures Visits(table + added) == Visits(table) + Visits(added)
    decreases added
  {
    if added == map[] {
      assert table + added == table;
    } else {
      var k :| k in added;
      VisitsOfDisjoint(table, added - {k});
      VisitsWithout(added, k);
      VisitsWithout(table + added, k);
      assert (table + added) - {k} == table + (added - {k});
    }
  }

  /** Grouping loses no visit and counts none twice. */
  lemma {:induction false} GroupsCountVisits<K>(t: Thresholds, rows: set<Observation>, key: Observation -> K)
    ensures Visits(Aggregated(t, GroupBy(rows, key))) == |rows|
    decreases rows
  {
    if o :| o in rows {
      var k := key(o);
      var group := Group(rows, key, k);
      var rest := rows - group;
      assert o in group;
      GroupsCountVisits(t, rest, key);
      GroupsWithout(rows, key, k);
      CountedApart(t, GroupBy(rows, key), k);
    }
  }

  lemma {:induction false} CountedApart<K>(t: Thresholds, groups: map<K, set<Observation>>, k: K)
    requires k in groups && forall j | j in groups :: groups[j] != {}
    ensures Visits(Aggregated(t, groups)) == |groups[k]| + Visits(Aggregated(t, groups - {k}))
  {
    AggregatedWithout(t, groups, k);
    VisitsWithout(Aggregated(t, groups), k);
  }

  lemma {:induction false} AggregatedWithout<K>(t: Thresholds, groups: map<K, set<Observation>>, k: K)
    requires forall j | j in groups :: groups[j] != {}
    ensures Aggregated(t, groups - {k}) == Aggregated(t, groups) - {k}
  {}

  lemma {:induction false} GroupsWithout<K>(rows: set<Observation>, key: Observation -> K, k: K)
    ensures GroupBy(rows - Group(rows, key, k), key) == GroupBy(rows, key) - {k}
  {
    var rest := rows - Group(rows, key, k);
    assert Keys(rest, key) == Keys(rows, key) - {k} by {
      forall j | j in Keys(rows, key) && j != k ensures j in Keys(rest, key) {
        var o :| o in rows && key(o) == j;
        assert o in rest;
      }
    }
    forall j | j != k ensures Group(rest, key, j) == Group(rows, key, j) {}
    assert GroupBy(rest, key).Keys == (GroupBy(rows, key) - {k}).Keys;
  }
}
