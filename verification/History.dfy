/** Merging hourly rows into a history (internal/api/handlers_history.go). */
module History {
  import opened Instants
  import opened Options
  import opened Zones
  import opened Gathering

  /** What an hour's visits came to: all of them, the delay bands, and those skipped or cancelled. */
  datatype Tally = Tally(nObs: int, nEarly: int, nOnTime: int, nLate: int, nVeryLate: int, nSkipped: int, nCancelled: int) {

    /** The visits in some band: those without a delay are in none. */
    function Known(): int { nEarly + nOnTime + nLate + nVeryLate }

    function Plus(t: Tally): Tally {
      Tally(nObs + t.nObs, nEarly + t.nEarly, nOnTime + t.nOnTime, nLate + t.nLate, nVeryLate + t.nVeryLate,
            nSkipped + t.nSkipped, nCancelled + t.nCancelled)
    }
  }

  const ZERO := Tally(0, 0, 0, 0, 0, 0, 0)

  datatype HourRow = HourRow(bucketStart: Instant, tally: Tally, p50: Option<int>, p90: Option<int>, mean: Option<real>)

  // Grouping.

  function Concat<T>(groups: seq<seq<T>>): seq<T> {
    if groups == [] then [] else Concat(groups[..|groups| - 1]) + groups[|groups| - 1]
  }

  /** Each group has rows, all of its key. */
  ghost predicate GroupedBy<T>(key: T -> Instant, groups: seq<seq<T>>, keys: seq<Instant>) {
    && |keys| == |groups|
    && (forall i | 0 <= i < |groups| :: groups[i] != [] && forall r | r in groups[i] :: key(r) == keys[i])
  }

  ghost predicate NoRepeats(keys: seq<Instant>) { forall i, j | 0 <= i && j == i + 1 && j < |keys| :: keys[i] != keys[j] }

  lemma {:induction false} NewGroup<T>(key: T -> Instant, groups: seq<seq<T>>, keys: seq<Instant>, r: T)
    requires GroupedBy(key, groups, keys) && NoRepeats(keys) && (groups == [] || keys[|keys| - 1] != key(r))
    ensures GroupedBy(key, groups + [[r]], keys + [key(r)]) && NoRepeats(keys + [key(r)])
    ensures Concat(groups + [[r]]) == Concat(groups) + [r]
  {
    assert (groups + [[r]])[..|groups|] == groups;
  }

  lemma {:induction false} MoreOfGroup<T>(key: T -> Instant, groups: seq<seq<T>>, keys: seq<Instant>, r: T)
    requires GroupedBy(key, groups, keys) && groups != [] && key(r) == keys[|keys| - 1]
    ensures var n := |groups| - 1; var more := groups[n := groups[n] + [r]];
            GroupedBy(key, more, keys) && Concat(more) == Concat(groups) + [r]
  {
    var n := |groups| - 1;
    assert groups[n := groups[n] + [r]][..n] == groups[..n];
  }

  /** What rows of a group share: their hour or, by day, the start of their calendar day. */
  function GroupKey(loc: Zone, byDay: bool): HourRow -> Instant {
    (r: HourRow) => if byDay then loc.MidnightBefore(r.bucketStart) else r.bucketStart
  }

  /** Cuts the rows where the key of one differs from that of the next. */
  method GroupRows(loc: Zone, rows: seq<HourRow>, byDay: bool) returns (groups: seq<seq<HourRow>>, ghost keys: seq<Instant>)
    ensures Concat(groups) == rows && GroupedBy(GroupKey(loc, byDay), groups, keys) && NoRepeats(keys)
  {
    groups, keys := Grouped(rows, GroupKey(loc, byDay));
  }

  /** Starts a group whenever the key is not that of the row before. */
  method Grouped<T>(rows: seq<T>, key: T -> Instant) returns (groups: seq<seq<T>>, ghost keys: seq<Instant>)
    ensures Concat(groups) == rows && GroupedBy(key, groups, keys) && NoRepeats(keys)
  {
    groups, keys := [], [];
    var last := 0;
    for n := 0 to |rows|
      invariant Concat(groups) == rows[..n] && GroupedBy(key, groups, keys) && NoRepeats(keys)
      invariant groups != [] ==> keys[|keys| - 1] == last
    {
      var r := rows[n];
      PrefixThen(rows, n);
      if |groups| == 0 || key(r) != last {
        NewGroup(key, groups, keys, r);
        groups, keys, last := groups + [[r]], keys + [key(r)], key(r);
      } else {
        MoreOfGroup(key, groups, keys, r);
        groups := groups[|groups| - 1 := groups[|groups| - 1] + [r]];
      }
    }
    assert rows[..|rows|] == rows;
  }

  predicate InOrder(rows: seq<HourRow>) {
    forall i, j | 0 <= i < j < |rows| :: rows[i].bucketStart <= rows[j].bucketStart
  }

  /** Of rows in time order no two groups have one key: the keys ascend. By day that takes
      midnights to be in order too, across the days that are an hour short or long. */
  lemma {:induction false} KeysAscend(loc: Zone, byDay: bool, rows: seq<HourRow>, groups: seq<seq<HourRow>>, keys: seq<Instant>)
    requires Concat(groups) == rows && GroupedBy(GroupKey(loc, byDay), groups, keys) && NoRepeats(keys) && InOrder(rows)
    ensures forall i, j | 0 <= i < j < |keys| :: keys[i] < keys[j]
  {
    if groups != [] {
      var n := |groups| - 1;
      var init := groups[..n];
      var before := Concat(init);
      assert before == rows[..|before|];
      KeysAscend(loc, byDay, before, init, keys[..n]);
      if n > 0 {
        var last, r := groups[n - 1][|groups[n - 1]| - 1], groups[n][0];
        ConcatEnds(init);
        assert rows[|before| - 1] == last && rows[|before|] == r;
        KeyMonotonic(loc, byDay, last, r);
      }
    }
  }

  lemma {:induction false} ConcatEnds<T>(groups: seq<seq<T>>)
    requires groups != [] && groups[|groups| - 1] != []
    ensures var g := groups[|groups| - 1];
            Concat(groups) != [] && Concat(groups)[|Concat(groups)| - 1] == g[|g| - 1]
  {}

  lemma {:induction false} KeyMonotonic(loc: Zone, byDay: bool, q: HourRow, r: HourRow)
    requires q.bucketStart <= r.bucketStart
    ensures GroupKey(loc, byDay)(q) <= GroupKey(loc, byDay)(r)
  {
    loc.MidnightBeforeMonotonic(q.bucketStart, r.bucketStart);
  }

  // Combining.

  function Total(rows: seq<HourRow>): Tally {
    if rows == [] then ZERO else Total(rows[..|rows| - 1]).Plus(rows[|rows| - 1].tally)
  }

  function Totals(groups: seq<seq<HourRow>>): Tally {
    if groups == [] then ZERO else Totals(groups[..|groups| - 1]).Plus(Total(groups[|groups| - 1]))
  }

  lemma {:induction false} TotalAdds(rows: seq<HourRow>, more: seq<HourRow>)
    ensures Total(rows + more) == Total(rows).Plus(Total(more))
  {
    if more == [] {
      assert rows + more == rows;
    } else {
      var n := |more| - 1;
      assert (rows + more)[..|rows| + n] == rows + more[..n];
      TotalAdds(rows, more[..n]);
    }
  }

  /** The buckets' counts add up to the totals', and so do their delays, as their means have them. */
  lemma {:induction false} BucketsAddUp(groups: seq<seq<HourRow>>)
    ensures Totals(groups) == Total(Concat(groups))
    ensures Delays(groups) == Delay(Concat(groups))
  {
    if groups != [] {
      var n := |groups| - 1;
      BucketsAddUp(groups[..n]);
      TotalAdds(Concat(groups[..n]), groups[n]);
      DelayAdds(Concat(groups[..n]), groups[n]);
    }
  }

  /** The sum of the delays a row's mean stands for. */
  function DelayOf(r: HourRow): real { if r.mean.Some? then r.mean.value * r.tally.Known() as real else 0.0 }

  function Delay(rows: seq<HourRow>): real {
    if rows == [] then 0.0 else Delay(rows[..|rows| - 1]) + DelayOf(rows[|rows| - 1])
  }

  function Delays(groups: seq<seq<HourRow>>): real {
    if groups == [] then 0.0 else Delays(groups[..|groups| - 1]) + Delay(groups[|groups| - 1])
  }

  lemma {:induction false} DelayAdds(rows: seq<HourRow>, more: seq<HourRow>)
    ensures Delay(rows + more) == Delay(rows) + Delay(more)
  {
    if more == [] {
      assert rows + more == rows;
    } else {
      var n := |more| - 1;
      assert (rows + more)[..|rows| + n] == rows + more[..n];
      DelayAdds(rows, more[..n]);
    }
  }

  /** A percentile with the number of visits it stands for. */
  datatype Weighted = Weighted(v: int, w: nat)

  function Known(rows: seq<HourRow>, pick: HourRow -> Option<int>): seq<Weighted> {
    if rows == [] then []
    else
      var r := rows[|rows| - 1];
      Known(rows[..|rows| - 1], pick) + if pick(r).Some? && r.tally.Known() > 0 then [Weighted(pick(r).value, r.tally.Known())] else []
  }

  /** The weight of the values up to a limit, or of all. */
  function Weight(values: seq<Weighted>, limit: Option<int>): nat {
    if values == [] then 0
    else
      var x := values[|values| - 1];
      Weight(values[..|values| - 1], limit) + if limit.None? || x.v <= limit.value then x.w else 0
  }

  /** Less than half of the weight lies below v, and at least half at or below it. */
  predicate IsMedian(values: seq<Weighted>, v: int) {
    2 * Weight(values, Some(v - 1)) < Weight(values, None) <= 2 * Weight(values, Some(v))
  }

  lemma {:induction false} WeightMonotonic(values: seq<Weighted>, a: int, b: int)
    requires a <= b
    ensures Weight(values, Some(a)) <= Weight(values, Some(b)) <= Weight(values, None)
  {
    if values != [] {
      WeightMonotonic(values[..|values| - 1], a, b);
    }
  }

  /** A weighted median is the only one, and in whatever order the values come. */
  lemma {:induction false} MedianIsUnique(values: seq<Weighted>, other: seq<Weighted>, v: int, u: int)
    requires multiset(values) == multiset(other) && IsMedian(values, v) && IsMedian(other, u)
    ensures v == u
  {
    forall limit | limit in {None, Some(v), Some(v - 1), Some(u), Some(u - 1)}
      ensures Weight(values, limit) == Weight(other, limit)
    {
      WeightPermutes(values, other, limit);
    }
    if v < u {
      WeightMonotonic(values, v, u - 1);
    } else if u < v {
      WeightMonotonic(values, u, v - 1);
    }
  }

  lemma {:induction false} WeightPermutes(values: seq<Weighted>, other: seq<Weighted>, limit: Option<int>)
    requires multiset(values) == multiset(other)
    ensures Weight(values, limit) == Weight(other, limit)
    decreases |values|
  {
    assert |values| == |multiset(values)| == |multiset(other)| == |other|;
    if values != [] {
      var n := |values| - 1;
      assert values[n] in multiset(values);
      var i :| 0 <= i < |other| && other[i] == values[n];
      WithoutOne(values, n);
      WithoutOne(other, i);
      WeightPermutes(Without(values, n), Without(other, i), limit);
      WeightWithout(values, n, limit);
      WeightWithout(other, i, limit);
    }
  }

  lemma {:induction false} WeightWithout(values: seq<Weighted>, i: nat, limit: Option<int>)
    requires i < |values|
    ensures Weight(values, limit) == Weight(Without(values, i), limit) + Weight([values[i]], limit)
  {
    var n := |values| - 1;
    if i == n {
      assert Without(values, i) == values[..n];
    } else {
      var rest := Without(values, i);
      assert rest[..n - 1] == Without(values[..n], i) && rest[n - 1] == values[n];
      WeightWithout(values[..n], i, limit);
    }
  }

  predicate Ascending(values: seq<Weighted>) {
    forall i, j | 0 <= i < j < |values| :: values[i].v <= values[j].v
  }

  function Sorted(values: seq<Weighted>): (sorted: seq<Weighted>)
    ensures Ascending(sorted)
  {
    if values == [] then [] else Inserted(Sorted(values[..|values| - 1]), values[|values| - 1])
  }

  function Inserted(sorted: seq<Weighted>, x: Weighted): (more: seq<Weighted>)
    requires Ascending(sorted)
    ensures Ascending(more) && more != []
    ensures more[|more| - 1].v == if sorted == [] || sorted[|sorted| - 1].v <= x.v then x.v else sorted[|sorted| - 1].v
  {
    if sorted == [] || sorted[|sorted| - 1].v <= x.v then sorted + [x]
    else Inserted(sorted[..|sorted| - 1], x) + [sorted[|sorted| - 1]]
  }

  /** Sorting leaves every weight. */
  lemma {:induction false} WeightSorted(values: seq<Weighted>, limit: Option<int>)
    ensures Weight(Sorted(values), limit) == Weight(values, limit)
  {
    if values != [] {
      WeightSorted(values[..|values| - 1], limit);
      WeightInserted(Sorted(values[..|values| - 1]), values[|values| - 1], limit);
      WeightThen(Sorted(values[..|values| - 1]), values[|values| - 1], limit);
    }
  }

  lemma {:induction false} WeightInserted(sorted: seq<Weighted>, x: Weighted, limit: Option<int>)
    requires Ascending(sorted)
    ensures Weight(Inserted(sorted, x), limit) == Weight(sorted + [x], limit)
  {
    if sorted != [] && sorted[|sorted| - 1].v > x.v {
      var init, last := sorted[..|sorted| - 1], sorted[|sorted| - 1];
      WeightInserted(init, x, limit);
      InitAndLast(sorted);
      WeightSwapped(init, last, x, Inserted(init, x), limit);
    }
  }

  lemma {:induction false} WeightSwapped(init: seq<Weighted>, last: Weighted, x: Weighted, more: seq<Weighted>, limit: Option<int>)
    requires Weight(more, limit) == Weight(init + [x], limit)
    ensures Weight(more + [last], limit) == Weight(init + [last] + [x], limit)
  {
    WeightThen(init, x, limit);
    WeightThen(init, last, limit);
    WeightThen(init + [last], x, limit);
    WeightThen(more, last, limit);
  }

  lemma {:induction false} WeightNext(values: seq<Weighted>, n: nat)
    requires n < |values|
    ensures Weight(values[..n + 1], None) == Weight(values[..n], None) + values[n].w
  {
    assert values[..n + 1][..n] == values[..n];
  }

  /** When all from the n-th on are greater, those before weigh at least as much as all up to v. */
  lemma {:induction false} WeightBefore(values: seq<Weighted>, n: nat, v: int)
    requires n <= |values| && forall i | n <= i < |values| :: v < values[i].v
    ensures Weight(values, Some(v)) <= Weight(values[..n], None)
  {
    if n < |values| {
      assert values[..|values| - 1][..n] == values[..n];
      WeightBefore(values[..|values| - 1], n, v);
    } else {
      assert values[..n] == values;
      WeightMonotonic(values, v, v);
    }
  }

  /** When none of the first n is greater, they weigh at most as much as all up to v. */
  lemma {:induction false} WeightThrough(values: seq<Weighted>, n: nat, v: int)
    requires n <= |values| && forall i | 0 <= i < n :: values[i].v <= v
    ensures Weight(values[..n], None) <= Weight(values, Some(v))
  {
    if values != [] {
      var m := |values| - 1;
      WeightThrough(values[..m], if n < m then n else m, v);
      assert n <= m ==> values[..m][..n] == values[..n];
      assert n > m ==> values[..n] == values && values[..m][..m] == values[..m];
    }
  }

  lemma {:induction false} KnownThen(rows: seq<HourRow>, n: nat, pick: HourRow -> Option<int>)
    requires n < |rows|
    ensures var r, vals, more := rows[n], Known(rows[..n], pick), Known(rows[..n + 1], pick);
            if pick(r).Some? && r.tally.Known() > 0 then
              && more == vals + [Weighted(pick(r).value, r.tally.Known())]
              && Weight(more, None) == Weight(vals, None) + r.tally.Known()
            else more == vals
  {
    PrefixThen(rows, n);
    var r, vals := rows[n], Known(rows[..n], pick);
    if pick(r).Some? && r.tally.Known() > 0 {
      WeightThen(vals, Weighted(pick(r).value, r.tally.Known()), None);
    }
  }

  lemma {:induction false} WeightThen(values: seq<Weighted>, x: Weighted, limit: Option<int>)
    ensures Weight(values + [x], limit) == Weight(values, limit) + if limit.None? || x.v <= limit.value then x.w else 0
  {
    assert (values + [x])[..|values|] == values;
  }

  /** A median of what is picked from each row, weighted by its visits. */
  method WeightedMedian(rows: seq<HourRow>, pick: HourRow -> Option<int>) returns (median: Option<int>)
    ensures Summarises(rows, pick, median)
  {
    var vals, total := KnownOf(rows, pick);
    if |vals| == 0 {
      return None;
    }
    var v := MedianOf(vals, total);
    median := Some(v);
  }

  /** The percentiles known, and the visits they stand for. */
  method KnownOf(rows: seq<HourRow>, pick: HourRow -> Option<int>) returns (vals: seq<Weighted>, total: nat)
    ensures vals == Known(rows, pick) && total == Weight(vals, None) && (vals != [] ==> 0 < total)
  {
    vals, total := [], 0;
    assert rows[..|rows|] == rows;
    for n := 0 to |rows|
      invariant vals == Known(rows[..n], pick) && total == Weight(vals, None) && (vals != [] ==> 0 < total)
    {
      var r := rows[n];
      var w := r.tally.nEarly + r.tally.nOnTime + r.tally.nLate + r.tally.nVeryLate;
      var v := pick(r);
      KnownThen(rows, n, pick);
      if v.Some? && w > 0 {
        vals := vals + [Weighted(v.value, w)];
        total := total + w;
      }
    }
  }

  /** Sorts the values and takes the first to bring the weight so far to half of the total. */
  method MedianOf(vals: seq<Weighted>, total: nat) returns (median: int)
    requires 0 < total == Weight(vals, None)
    ensures IsMedian(vals, median)
  {
    var sorted := Sorted(vals);
    WeightSorted(vals, None);
    assert sorted[..|sorted|] == sorted;
    var acc := 0;
    for n := 0 to |sorted|
      invariant acc == Weight(sorted[..n], None) && 2 * acc < total
    {
      WeightNext(sorted, n);
      acc := acc + sorted[n].w;
      if 2 * acc >= total {
        MedianFound(vals, n);
        return sorted[n].v;
      }
    }
    assert false;
  }

  lemma {:induction false} MedianFound(vals: seq<Weighted>, n: nat)
    requires n < |Sorted(vals)|
    requires 2 * Weight(Sorted(vals)[..n], None) < Weight(vals, None) <= 2 * Weight(Sorted(vals)[..n + 1], None)
    ensures IsMedian(vals, Sorted(vals)[n].v)
  {
    WeightSorted(vals, None);
    MedianAt(Sorted(vals), n);
    MedianSorted(vals, Sorted(vals)[n].v);
  }

  lemma {:induction false} MedianAt(sorted: seq<Weighted>, n: nat)
    requires Ascending(sorted) && n < |sorted|
    requires 2 * Weight(sorted[..n], None) < Weight(sorted, None) <= 2 * Weight(sorted[..n + 1], None)
    ensures IsMedian(sorted, sorted[n].v)
  {
    WeightBefore(sorted, n, sorted[n].v - 1);
    WeightThrough(sorted, n + 1, sorted[n].v);
  }

  lemma {:induction false} MedianSorted(vals: seq<Weighted>, v: int)
    ensures IsMedian(Sorted(vals), v) <==> IsMedian(vals, v)
  {
    WeightSorted(vals, None);
    WeightSorted(vals, Some(v));
    WeightSorted(vals, Some(v - 1));
  }

  const P50 := (r: HourRow) => r.p50
  const P90 := (r: HourRow) => r.p90

  /** Merges rows: the counts sum, and the mean, before it is rounded for display, is that of all
      the delays; of one row the percentiles stand, of several they are the weighted medians of the
      rows' own. */
  method Combine(rows: seq<HourRow>) returns (tally: Tally, mean: Option<real>, p50: Option<int>, p90: Option<int>)
    ensures Merges(rows, tally, mean, p50, p90)
  {
    var sum;
    tally, sum := AddUp(rows);
    mean := None;
    if tally.Known() > 0 {
      Quotient(sum, tally.Known() as real);
      mean := Some(sum / tally.Known() as real);
    }
    p50, p90 := Percentiles(rows);
  }

  method Percentiles(rows: seq<HourRow>) returns (p50: Option<int>, p90: Option<int>)
    ensures Stands(rows, P50, p50) && Stands(rows, P90, p90)
  {
    if |rows| == 1 {
      return rows[0].p50, rows[0].p90;
    }
    p50 := WeightedMedian(rows, P50);
    p90 := WeightedMedian(rows, P90);
  }

  predicate Stands(rows: seq<HourRow>, pick: HourRow -> Option<int>, p: Option<int>) {
    if |rows| == 1 then p == pick(rows[0]) else Summarises(rows, pick, p)
  }

  method AddUp(rows: seq<HourRow>) returns (tally: Tally, sum: real)
    ensures tally == Total(rows) && sum == Delay(rows)
  {
    tally, sum := ZERO, 0.0;
    assert rows[..|rows|] == rows;
    for n := 0 to |rows|
      invariant tally == Total(rows[..n]) && sum == Delay(rows[..n])
    {
      PrefixThen(rows, n);
      tally := tally.Plus(rows[n].tally);
      if rows[n].mean.Some? {
        sum := sum + rows[n].mean.value * rows[n].tally.Known() as real;
      }
    }
  }

  lemma {:induction false} Quotient(sum: real, k: real)
    requires k != 0.0
    ensures sum / k * k == sum
  {}

  predicate Merges(rows: seq<HourRow>, tally: Tally, mean: Option<real>, p50: Option<int>, p90: Option<int>) {
    && tally == Total(rows)
    && IsMean(tally.Known(), Delay(rows), mean)
    && Stands(rows, P50, p50) && Stands(rows, P90, p90)
  }

  predicate IsMean(known: int, delay: real, mean: Option<real>) {
    mean.Some? == (known > 0) && (mean.Some? ==> mean.value * known as real == delay)
  }

  /** The order of the rows does not matter to anything that is merged of them. */
  lemma {:induction false} MergesAlike(rows: seq<HourRow>, other: seq<HourRow>, t: Tally, u: Tally, m: Option<real>, n: Option<real>,
                                       p: Option<int>, q: Option<int>, p': Option<int>, q': Option<int>)
    requires multiset(rows) == multiset(other) && Merges(rows, t, m, p, q) && Merges(other, u, n, p', q')
    ensures t == u && m == n && p == p' && q == q'
  {
    TotalPermutes(rows, other);
    MeansAlike(t.Known(), Delay(rows), m, n);
    StandsAlike(rows, other, P50, p, p');
    StandsAlike(rows, other, P90, q, q');
  }

  lemma {:induction false} StandsAlike(rows: seq<HourRow>, other: seq<HourRow>, pick: HourRow -> Option<int>, p: Option<int>, q: Option<int>)
    requires multiset(rows) == multiset(other) && Stands(rows, pick, p) && Stands(other, pick, q)
    ensures p == q
  {
    assert |rows| == |multiset(rows)| == |multiset(other)| == |other|;
    if |rows| == 1 {
      assert rows[0] in multiset(other);
    } else {
      MediansAgree(rows, other, pick, p, q);
    }
  }

  lemma {:induction false} MeansAlike(known: int, delay: real, m: Option<real>, n: Option<real>)
    requires IsMean(known, delay, m) && IsMean(known, delay, n)
    ensures m == n
  {
    if m.Some? {
      SameQuotient(m.value, n.value, known as real);
    }
  }

  lemma {:induction false} SameQuotient(a: real, b: real, k: real)
    requires k > 0.0 && a * k == b * k
    ensures a == b
  {
    assert (a - b) * k == 0.0;
  }

  lemma {:induction false} TotalPermutes(rows: seq<HourRow>, other: seq<HourRow>)
    requires multiset(rows) == multiset(other)
    ensures Total(rows) == Total(other) && Delay(rows) == Delay(other)
    decreases |rows|
  {
    assert |rows| == |multiset(rows)| == |multiset(other)| == |other|;
    if rows != [] {
      var n := |rows| - 1;
      assert rows[n] in multiset(rows);
      var i :| 0 <= i < |other| && other[i] == rows[n];
      WithoutOne(rows, n);
      WithoutOne(other, i);
      TotalPermutes(Without(rows, n), Without(other, i));
      TotalWithout(rows, n);
      TotalWithout(other, i);
    }
  }

  lemma {:induction false} TotalWithout(rows: seq<HourRow>, i: nat)
    requires i < |rows|
    ensures Total(rows) == Total(Without(rows, i)).Plus(rows[i].tally) && Delay(rows) == Delay(Without(rows, i)) + DelayOf(rows[i])
  {
    var before, one, after := rows[..i], [rows[i]], rows[i + 1..];
    assert rows == before + one + after && one[..0] == [];
    TotalAdds(before, one);
    TotalAdds(before + one, after);
    TotalAdds(before, after);
    DelayAdds(before, one);
    DelayAdds(before + one, after);
    DelayAdds(before, after);
  }

  /** The weighted medians of the same rows in two orders are the same. */
  lemma {:induction false} MediansAgree(rows: seq<HourRow>, other: seq<HourRow>, pick: HourRow -> Option<int>, m: Option<int>, n: Option<int>)
    requires multiset(rows) == multiset(other) && Summarises(rows, pick, m) && Summarises(other, pick, n)
    ensures m == n
  {
    KnownPermutes(rows, other, pick);
    var values, others := Known(rows, pick), Known(other, pick);
    assert |values| == |multiset(values)| == |multiset(others)| == |others|;
    if m.Some? && n.Some? {
      MedianIsUnique(values, others, m.value, n.value);
    }
  }

  function KnownIn(r: HourRow, pick: HourRow -> Option<int>): seq<Weighted> {
    if pick(r).Some? && r.tally.Known() > 0 then [Weighted(pick(r).value, r.tally.Known())] else []
  }

  lemma {:induction false} KnownPermutes(rows: seq<HourRow>, other: seq<HourRow>, pick: HourRow -> Option<int>)
    requires multiset(rows) == multiset(other)
    ensures multiset(Known(rows, pick)) == multiset(Known(other, pick))
  {
    var parts := map r | r in multiset(rows) :: KnownIn(r, pick);
    forall r | r in rows ensures r in multiset(rows) {}
    forall r | r in other ensures r in multiset(other) {}
    KnownIsGathered(rows, pick, parts);
    KnownIsGathered(other, pick, parts);
    OrderDoesNotMatter(rows, other, parts);
  }

  lemma {:induction false} KnownIsGathered(rows: seq<HourRow>, pick: HourRow -> Option<int>, parts: map<HourRow, seq<Weighted>>)
    requires forall r | r in rows :: r in parts && parts[r] == KnownIn(r, pick)
    ensures Known(rows, pick) == Gathered(rows, parts)
  {
    if rows != [] {
      KnownIsGathered(rows[..|rows| - 1], pick, parts);
    }
  }

  /** The value is the weighted median of the percentiles known, if any is. */
  predicate Summarises(rows: seq<HourRow>, pick: HourRow -> Option<int>, median: Option<int>) {
    match median
    case None => Known(rows, pick) == []
    case Some(v) => IsMedian(Known(rows, pick), v)
  }
}
