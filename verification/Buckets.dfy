/** Token buckets: what the upstream throttle and the per-client limiter have in common. Rates and
    tokens are exact reals; the instants are whole nanoseconds. */
module Buckets {
  import opened Instants

  /** The tokens a rate per second gives in a duration. */
  function Refill(rate: real, elapsed: Duration): real { rate * (elapsed as real / 1000000000.0) }

  lemma {:induction false} RefillAdds(rate: real, a: Duration, b: Duration)
    ensures Refill(rate, a + b) == Refill(rate, a) + Refill(rate, b)
  {}

  lemma {:induction false} RefillMonotonic(rate: real, a: Duration, b: Duration)
    requires 0.0 <= rate && a <= b
    ensures Refill(rate, a) <= Refill(rate, b)
    ensures 0.0 < rate && a < b ==> Refill(rate, a) < Refill(rate, b)
  {
    RefillAdds(rate, a, b - a);
    var x := (b - a) as real / 1000000000.0;
    assert rate * x >= 0.0;
    if 0.0 < rate && a < b {
      assert x > 0.0;
      assert rate * x > 0.0;
    }
  }

  function Least(a: real, b: real): real { if a < b then a else b }

  /** The nanoseconds a deficit of tokens takes to refill, truncated. */
  function WaitFor(rate: real, deficit: real): (wait: Duration)
    requires 0.0 < rate && 0.0 <= deficit
    ensures 0 <= wait
    ensures Refill(rate, wait) <= deficit < Refill(rate, wait + 1)
  {
    var exact := deficit / rate * 1000000000.0;
    WaitIsExact(rate, deficit, exact);
    exact.Floor
  }

  lemma {:induction false} WaitIsExact(rate: real, deficit: real, exact: real)
    requires 0.0 < rate && 0.0 <= deficit && exact == deficit / rate * 1000000000.0
    ensures 0 <= exact.Floor && Refill(rate, exact.Floor) <= deficit < Refill(rate, exact.Floor + 1)
    ensures Refill(rate, exact.Floor) == deficit <==> exact.Floor as real == exact
  {
    var n, x := exact.Floor, exact / 1000000000.0;
    assert deficit == rate * x && n as real <= exact < (n + 1) as real;
    Scaled(rate, n as real / 1000000000.0, x);
    var y := (n + 1) as real / 1000000000.0;
    assert x < y;
    Scaled(rate, x, y);
    assert deficit < rate * y;
    assert Refill(rate, n + 1) == rate * y;
  }

  lemma {:induction false} Scaled(rate: real, x: real, y: real)
    requires 0.0 < rate
    ensures rate * x < rate * y <==> x < y
    ensures rate * x == rate * y <==> x == y
  {
    if x < y {
      assert rate * (y - x) > 0.0;
    } else if y < x {
      assert rate * (x - y) > 0.0;
    }
  }

  /** A number of tokens that some whole number of nanoseconds gives. */
  ghost predicate Whole(rate: real, tokens: real) { exists ns: Duration :: Refill(rate, ns) == tokens }

  lemma {:induction false} WholeAdds(rate: real, tokens: real, more: real)
    requires Whole(rate, tokens) && Whole(rate, more)
    ensures Whole(rate, tokens + more) && Whole(rate, tokens - more)
  {
    var ns: Duration, ms: Duration :| Refill(rate, ns) == tokens && Refill(rate, ms) == more;
    RefillAdds(rate, ns, ms);
    RefillAdds(rate, ns - ms, ms);
    assert Refill(rate, ns + ms) == tokens + more && Refill(rate, ns - ms) == tokens - more;
  }

  /** A second gives as many tokens as the rate says. */
  lemma {:induction false} SecondIsWhole(rate: real)
    ensures Refill(rate, Seconds(1)) == rate && Whole(rate, rate)
  {}

  /** The wait for a whole number of nanoseconds' tokens is not truncated. */
  lemma {:induction false} WholeWaitIsExact(rate: real, deficit: real)
    requires 0.0 < rate && 0.0 <= deficit
    ensures Refill(rate, WaitFor(rate, deficit)) == deficit <==> Whole(rate, deficit)
  {
    if Whole(rate, deficit) {
      var ns: Duration, wait :| Refill(rate, ns) == deficit && wait == WaitFor(rate, deficit);
      if wait < ns {
        RefillMonotonic(rate, wait + 1, ns);
      } else if ns < wait {
        RefillMonotonic(rate, ns, wait);
      }
    }
  }

  // Counting what falls in a window of time.

  predicate Ascending(times: seq<Instant>) {
    forall i, j | 0 <= i < j < |times| :: times[i] <= times[j]
  }

  function InWindow(times: seq<Instant>, a: Instant, b: Instant): (n: nat) {
    if times == [] then 0
    else InWindow(times[..|times| - 1], a, b) + if a <= times[|times| - 1] <= b then 1 else 0
  }

  lemma {:induction false} AllInWindow(times: seq<Instant>, a: Instant, b: Instant)
    requires forall t | t in times :: a <= t <= b
    ensures InWindow(times, a, b) == |times|
  {
    if times != [] {
      var init := times[..|times| - 1];
      forall t | t in init ensures a <= t <= b {
        assert t in times;
      }
      assert times[|times| - 1] in times;
      AllInWindow(init, a, b);
    }
  }

  /** No run of times fits more than burst + rate * (its length, and slack) of them. */
  ghost predicate Paced(times: seq<Instant>, rate: real, burst: real, slack: Duration) {
    forall i, j | 0 <= i <= j < |times| :: (j - i + 1) as real <= burst + Refill(rate, times[j] - times[i] + slack)
  }

  lemma {:induction false} PacedThen(times: seq<Instant>, rate: real, burst: real, slack: Duration, t: Instant)
    requires Ascending(times) && Paced(times, rate, burst, slack)
    requires 1.0 <= burst + Refill(rate, slack)
    requires forall i | 0 <= i < |times| ::
               times[i] <= t && (|times| - i + 1) as real <= burst + Refill(rate, t - times[i] + slack)
    ensures Ascending(times + [t]) && Paced(times + [t], rate, burst, slack)
  {}

  /** Times in order and paced, a window of length T holds at most burst + rate * (T + slack). */
  lemma {:induction false} WindowHolds(times: seq<Instant>, rate: real, burst: real, slack: Duration, a: Instant, b: Instant)
    requires Ascending(times) && Paced(times, rate, burst, slack) && 0.0 <= rate && 0.0 <= burst && 0 <= slack && a <= b
    ensures InWindow(times, a, b) as real <= burst + Refill(rate, b - a + slack)
  {
    InWindowIsSpan(times, a, b);
    if InWindow(times, a, b) == 0 {
      RefillMonotonic(rate, 0, b - a + slack);
    } else {
      var i, j :| Span(times, a, b, i, j) && InWindow(times, a, b) == j - i + 1;
      SpanHolds(times, rate, burst, slack, i, j, b - a);
    }
  }

  lemma {:induction false} SpanHolds(times: seq<Instant>, rate: real, burst: real, slack: Duration, i: nat, j: nat, length: Duration)
    requires Paced(times, rate, burst, slack) && 0.0 <= rate && i <= j < |times| && times[j] - times[i] <= length
    ensures (j - i + 1) as real <= burst + Refill(rate, length + slack)
  {
    RefillMonotonic(rate, times[j] - times[i] + slack, length + slack);
  }

  /** Indices i to j are exactly those of the times in the window. */
  ghost predicate Span(times: seq<Instant>, a: Instant, b: Instant, i: int, j: int) {
    && 0 <= i <= j < |times| && a <= times[i] && times[j] <= b
    && (i == 0 || times[i - 1] < a) && (j == |times| - 1 || b < times[j + 1])
  }

  lemma {:induction false} InWindowIsSpan(times: seq<Instant>, a: Instant, b: Instant)
    requires Ascending(times)
    ensures if InWindow(times, a, b) == 0 then forall t | t in times :: !(a <= t <= b)
            else exists i, j :: Span(times, a, b, i, j) && InWindow(times, a, b) == j - i + 1
  {
    if times != [] {
      var n := |times| - 1;
      var init := times[..n];
      InWindowIsSpan(init, a, b);
      if InWindow(init, a, b) != 0 {
        var i, j :| Span(init, a, b, i, j) && InWindow(init, a, b) == j - i + 1;
        SpanThen(times, a, b, i, j);
      } else if a <= times[n] <= b {
        assert n > 0 ==> times[n - 1] in init;
        assert Span(times, a, b, n, n);
      } else {
        assert forall t | t in times :: t in init || t == times[n];
      }
    }
  }

  lemma {:induction false} SpanThen(times: seq<Instant>, a: Instant, b: Instant, i: int, j: int)
    requires Ascending(times) && times != [] && Span(times[..|times| - 1], a, b, i, j)
    ensures var n := |times| - 1;
            if a <= times[n] <= b then j == n - 1 && Span(times, a, b, i, n) else Span(times, a, b, i, j)
  {
    var n := |times| - 1;
    assert times[i] <= times[n] && times[j] <= times[n];
    assert j + 1 < n ==> times[j + 1] <= times[n];
  }
}
