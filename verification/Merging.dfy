/** What merged rows of history say, field by field (internal/api/handlers_history.go). */
module Merging {
  import opened Instants
  import opened Options
  import opened Zones
  import opened History

  /** Grouped by day, rows in time order are in one group exactly when they start on one calendar date
      of the zone; grouped by hour, when they are of one hour. */
  lemma {:induction false} GroupsAre(loc: Zone, byDay: bool, rows: seq<HourRow>, groups: seq<seq<HourRow>>, keys: seq<Instant>,
                                     i: nat, j: nat, q: HourRow, r: HourRow)
    requires Concat(groups) == rows && GroupedBy(GroupKey(loc, byDay), groups, keys) && NoRepeats(keys) && InOrder(rows)
    requires i < |groups| && j < |groups| && q in groups[i] && r in groups[j]
    ensures i == j <==> if byDay then loc.DateAt(q.bucketStart) == loc.DateAt(r.bucketStart) else q.bucketStart == r.bucketStart
  {
    KeysAscend(loc, byDay, rows, groups, keys);
    assert i < j ==> keys[i] < keys[j];
    assert j < i ==> keys[j] < keys[i];
    if q.bucketStart <= r.bucketStart {
      loc.MidnightBeforeMonotonic(q.bucketStart, r.bucketStart);
    } else {
      loc.MidnightBeforeMonotonic(r.bucketStart, q.bucketStart);
    }
  }

  /** The counts of a row of an hourly table. */
  datatype Count = Visits | Early | OnTime | Late | VeryLate | Skipped | Cancelled

  function Counted(t: Tally, c: Count): int {
    match c
    case Visits => t.nObs
    case Early => t.nEarly
    case OnTime => t.nOnTime
    case Late => t.nLate
    case VeryLate => t.nVeryLate
    case Skipped => t.nSkipped
    case Cancelled => t.nCancelled
  }

  function SumOf(rows: seq<HourRow>, c: Count): int {
    if rows == [] then 0 else SumOf(rows[..|rows| - 1], c) + Counted(rows[|rows| - 1].tally, c)
  }

  function Sum(rows: seq<HourRow>, of: HourRow -> int): int {
    if rows == [] then 0 else Sum(rows[..|rows| - 1], of) + of(rows[|rows| - 1])
  }

  /** Each count of a merge is the sum over the rows of that count, and of no other. */
  lemma {:induction false} CountsSum(rows: seq<HourRow>, c: Count, t: Tally, mean: Option<real>, p50: Option<int>, p90: Option<int>)
    requires Merges(rows, t, mean, p50, p90)
    ensures Counted(t, c) == SumOf(rows, c)
  {
    TotalSums(rows, c);
  }

  lemma {:induction false} TotalSums(rows: seq<HourRow>, c: Count)
    ensures Counted(Total(rows), c) == SumOf(rows, c)
  {
    if rows != [] {
      TotalSums(rows[..|rows| - 1], c);
    }
  }

  /** The visits of a row with a delay. */
  function Delayed(r: HourRow): int { r.tally.nEarly + r.tally.nOnTime + r.tally.nLate + r.tally.nVeryLate }

  /** A merge of one row is that row; its mean is known if any delay is. */
  lemma {:induction false} OneRowStands(r: HourRow, t: Tally, mean: Option<real>, p50: Option<int>, p90: Option<int>)
    requires Merges([r], t, mean, p50, p90)
    ensures t == r.tally && p50 == r.p50 && p90 == r.p90
    ensures mean.Some? <==> 0 < Delayed(r)
    ensures mean.Some? && r.mean.Some? ==> mean == r.mean
  {
    assert [r][..0] == [];
    assert Total([r]) == r.tally && History.Delay([r]) == DelayOf(r);
    if mean.Some? && r.mean.Some? {
      SameQuotient(mean.value, r.mean.value, Delayed(r) as real);
    }
  }

  /** The visits of some rows with a delay, and their delays by the rows' means. */
  function AllDelayed(rows: seq<HourRow>): int {
    if rows == [] then 0 else AllDelayed(rows[..|rows| - 1]) + Delayed(rows[|rows| - 1])
  }

  function AllDelays(rows: seq<HourRow>): real {
    if rows == [] then 0.0
    else
      var r := rows[|rows| - 1];
      AllDelays(rows[..|rows| - 1]) + if r.mean.Some? then r.mean.value * Delayed(r) as real else 0.0
  }

  predicate Averages(n: int, total: real, mean: Option<real>) {
    (mean.Some? <==> 0 < n) && (mean.Some? ==> mean.value * n as real == total)
  }

  /** The mean weighs each row's by its visits that have a delay. */
  lemma {:induction false} MeanWeighs(rows: seq<HourRow>, t: Tally, mean: Option<real>, p50: Option<int>, p90: Option<int>)
    requires Merges(rows, t, mean, p50, p90)
    ensures Averages(AllDelayed(rows), AllDelays(rows), mean)
  {
    DelayedAre(rows);
    DelaysAre(rows);
    MeanAlike(t.Known(), AllDelayed(rows), History.Delay(rows), AllDelays(rows), mean);
  }

  lemma {:induction false} MeanAlike(known: int, known': int, delay: real, delay': real, mean: Option<real>)
    requires known == known' && delay == delay' && IsMean(known, delay, mean)
    ensures Averages(known', delay', mean)
  {}

  lemma {:induction false} DelayedAre(rows: seq<HourRow>)
    ensures AllDelayed(rows) == Total(rows).Known()
  {
    if rows != [] {
      DelayedAre(rows[..|rows| - 1]);
    }
  }

  lemma {:induction false} DelaysAre(rows: seq<HourRow>)
    ensures AllDelays(rows) == History.Delay(rows)
  {
    if rows != [] {
      DelaysAre(rows[..|rows| - 1]);
      assert Delayed(rows[|rows| - 1]) == rows[|rows| - 1].tally.Known();
    }
  }

  /** What a row weighs whose percentile is known and, if there is a limit, at most that. */
  function Weighs(pick: HourRow -> Option<int>, limit: Option<int>): HourRow -> int {
    (r: HourRow) => if pick(r).Some? && 0 < Delayed(r) && (limit.Some? ==> pick(r).value <= limit.value) then Delayed(r) else 0
  }

  /** Of several rows the percentile is one of theirs, with less than half of the visits that have a
      delay in rows below it and at least half in rows at or below it. */
  lemma {:induction false} PercentileWeighs(rows: seq<HourRow>, pick: HourRow -> Option<int>, p: Option<int>)
    requires |rows| != 1 && Stands(rows, pick, p)
    ensures p.None? <==> forall r | r in rows :: Weighs(pick, None)(r) == 0
    ensures p.Some? ==> 2 * Sum(rows, Weighs(pick, Some(p.value - 1))) < Sum(rows, Weighs(pick, None)) <= 2 * Sum(rows, Weighs(pick, p))
    ensures p.Some? ==> exists r :: r in rows && pick(r) == p
  {
    KnownIs(rows, pick);
    if p.Some? {
      WeightSums(rows, pick, None);
      WeightSums(rows, pick, p);
      WeightSums(rows, pick, Some(p.value - 1));
      SomeRowHas(rows, pick, p.value);
    }
  }

  lemma {:induction false} KnownIs(rows: seq<HourRow>, pick: HourRow -> Option<int>)
    ensures Known(rows, pick) == [] <==> forall r | r in rows :: Weighs(pick, None)(r) == 0
  {
    if rows != [] {
      var init, last := rows[..|rows| - 1], rows[|rows| - 1];
      KnownIs(init, pick);
      assert last in rows && forall r | r in init :: r in rows;
      assert forall r | r in rows :: r in init || r == last;
      assert Weighs(pick, None)(last) == 0 <==> !(pick(last).Some? && last.tally.Known() > 0);
    }
  }

  lemma {:induction false} WeightSums(rows: seq<HourRow>, pick: HourRow -> Option<int>, limit: Option<int>)
    ensures Weight(Known(rows, pick), limit) == Sum(rows, Weighs(pick, limit))
  {
    if rows != [] {
      var n := |rows| - 1;
      WeightSums(rows[..n], pick, limit);
      assert rows[..n + 1] == rows;
      KnownThen(rows, n, pick);
      if pick(rows[n]).Some? && rows[n].tally.Known() > 0 {
        WeightThen(Known(rows[..n], pick), Weighted(pick(rows[n]).value, rows[n].tally.Known()), limit);
      }
    }
  }

  /** If more is weighed up to v than up to the value before, some row has it. */
  lemma {:induction false} SomeRowHas(rows: seq<HourRow>, pick: HourRow -> Option<int>, v: int)
    requires Sum(rows, Weighs(pick, Some(v - 1))) < Sum(rows, Weighs(pick, Some(v)))
    ensures exists r :: r in rows && pick(r) == Some(v)
  {
    var n := |rows| - 1;
    if pick(rows[n]) != Some(v) {
      SomeRowHas(rows[..n], pick, v);
      var r :| r in rows[..n] && pick(r) == Some(v);
      assert r in rows;
    } else {
      assert rows[n] in rows;
    }
  }
}
