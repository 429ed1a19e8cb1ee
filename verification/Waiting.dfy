/** Whether a client that waits as long as it was told is then allowed (internal/api/ratelimit.go). */
module Waiting {
  import opened Instants
  import opened Options
  import opened Buckets
  import opened IpLimiter

  lemma {:induction false} FilledIsWithin(rate: real, times: seq<Instant>, now: Instant)
    requires 0.0 < rate && Ascending(times + [now])
    ensures 0.0 <= Filled(rate, Remembered(rate, times), now).tokens <= rate
  {
    var all := times + [now];
    assert forall i | 0 <= i < |times| :: all[i] == times[i] && all[i] <= all[|times|];
    if times != [] {
      ClientIsMetered(rate, times);
    }
    TakenIsWithin(rate, Remembered(rate, times), now);
  }

  /** How long a client alone waits that was refused and stays silent. */
  lemma {:induction false} AloneWaits(rate: real, times: seq<Instant>, now: Instant, later: Instant)
    requires 0.0 < rate && Ascending(times + [now]) && now <= later
    requires AnswerAfter(rate, times, now).Refused?
    ensures var wait, deficit := AnswerAfter(rate, times, now).wait, 1.0 - Filled(rate, Remembered(rate, times), now).tokens;
            AnswerAfter(rate, times + [now], later).Allowed? <==>
            rate >= 1.0 && now + wait <= later && (later == now + wait ==> Refill(rate, wait) == deficit)
  {
    assert (times + [now])[..|times|] == times;
    FilledIsWithin(rate, times, now);
    BucketWaits(rate, Filled(rate, Remembered(rate, times), now), later);
  }

  lemma {:induction false} BucketWaits(rate: real, b: Bucket, later: Instant)
    requires 0.0 < rate && 0.0 <= b.tokens <= rate && b.tokens < 1.0 && b.last <= later
    ensures var wait := WaitFor(rate, 1.0 - b.tokens);
            Filled(rate, Some(b), later).tokens >= 1.0 <==>
            rate >= 1.0 && b.last + wait <= later && (later == b.last + wait ==> Refill(rate, wait) == 1.0 - b.tokens)
  {
    var wait := WaitFor(rate, 1.0 - b.tokens);
    if later < b.last + wait {
      RefillMonotonic(rate, later - b.last, wait);
    } else if b.last + wait < later {
      RefillMonotonic(rate, wait + 1, later - b.last);
    }
  }

  /** A client refused and then silent is refused until its wait is over, and at that very moment is
      allowed when the wait did not have to be truncated. */
  lemma {:induction false} WaitIsRight<K>(rate: real, start: Instant, requests: seq<Request<K>>, r: Request<K>,
                                          others: seq<Request<K>>, later: Instant)
    requires 0.0 < rate && Clocked(start, requests + [r] + others + [Request(r.ip, later)])
    requires Answered(rate, start, requests, r).Refused? && forall q | q in others :: q.ip != r.ip
    ensures var wait, deficit := Answered(rate, start, requests, r).wait, Deficit(rate, start, requests, r);
            Answered(rate, start, requests + [r] + others, Request(r.ip, later)).Allowed? <==>
            rate >= 1.0 && r.now + wait <= later && (later == r.now + wait ==> Refill(rate, wait) == deficit)
  {
    var times := TimesOf(requests, r.ip);
    SilenceIsSeen(rate, start, requests, r, others, later);
    AloneWaits(rate, times, r.now, later);
  }

  /** How far short of a token a request's bucket is. */
  function Deficit<K(==)>(rate: real, start: Instant, requests: seq<Request<K>>, r: Request<K>): real {
    1.0 - Filled(rate, Found(Run(rate, start, requests), r.ip, r.now), r.now).tokens
  }

  /** What the limiter answers a client that was silent is what it would answer it alone. */
  lemma {:induction false} SilenceIsSeen<K>(rate: real, start: Instant, requests: seq<Request<K>>, r: Request<K>,
                                            others: seq<Request<K>>, later: Instant)
    requires 0.0 < rate && Clocked(start, requests + [r] + others + [Request(r.ip, later)])
    requires forall q | q in others :: q.ip != r.ip
    ensures var times := TimesOf(requests, r.ip);
            && Ascending(times + [r.now]) && r.now <= later
            && Answered(rate, start, requests, r) == AnswerAfter(rate, times, r.now)
            && Deficit(rate, start, requests, r) == 1.0 - Filled(rate, Remembered(rate, times), r.now).tokens
            && Answered(rate, start, requests + [r] + others, Request(r.ip, later)) == AnswerAfter(rate, times + [r.now], later)
  {
    var before, last := requests + [r] + others, Request(r.ip, later);
    ClockedUntil(start, requests, r, others, last);
    FilledAlike(rate, start, requests, r);
    FilledAlike(rate, start, before, last);
    TimesWith(requests, r, others);
    TimesAscend(start, requests + [r], r.ip);
  }

  lemma {:induction false} TimesWith<K>(requests: seq<Request<K>>, r: Request<K>, others: seq<Request<K>>)
    requires forall q | q in others :: q.ip != r.ip
    ensures TimesOf(requests + [r], r.ip) == TimesOf(requests, r.ip) + [r.now]
    ensures TimesOf(requests + [r] + others, r.ip) == TimesOf(requests, r.ip) + [r.now]
  {
    TimesOfBoth(requests + [r], others, r.ip);
    TimesOfBoth(requests, [r], r.ip);
    NoTimes(others, r.ip);
    assert [r][..0] == [] && TimesOf([r], r.ip) == [r.now];
  }

  lemma {:induction false} ClockedUntil<K>(start: Instant, requests: seq<Request<K>>, r: Request<K>, others: seq<Request<K>>, last: Request<K>)
    requires Clocked(start, requests + [r] + others + [last])
    ensures Clocked(start, requests + [r]) && r.now <= last.now
  {
    var all, n := requests + [r] + others + [last], |requests|;
    assert all[n] == r && all[|all| - 1] == last;
    forall i | 0 <= i <= n ensures (requests + [r])[i] == all[i] {}
  }

  // As long as Allow said.

  /** A client that was refused and is then silent, whatever others do, until its wait is over or
      longer, is allowed. */
  ghost predicate WaitsWork(rate: real)
    requires 0.0 < rate
  {
    forall start, requests: seq<Request<string>>, r, others, later |
      && Clocked(start, requests + [r] + others + [Request(r.ip, later)]) && (forall q | q in others :: q.ip != r.ip)
      && Answered(rate, start, requests, r).Refused?
      && r.now + Answered(rate, start, requests, r).wait <= later ::
      Answered(rate, start, requests + [r] + others, Request(r.ip, later)).Allowed?
  }

  /** The wait can be relied on exactly when the rate is at least one and the time a token takes is
      a whole number of nanoseconds: otherwise some wait, truncated, ends before the token is there. */
  lemma {:induction false} WaitsWorkExactly(rate: real)
    requires 0.0 < rate
    ensures WaitsWork(rate) <==> rate >= 1.0 && Whole(rate, 1.0)
  {
    if rate >= 1.0 && Whole(rate, 1.0) {
      forall start, requests: seq<Request<string>>, r, others, later |
        && Clocked(start, requests + [r] + others + [Request(r.ip, later)]) && (forall q | q in others :: q.ip != r.ip)
        && Answered(rate, start, requests, r).Refused?
        && r.now + Answered(rate, start, requests, r).wait <= later
        ensures Answered(rate, start, requests + [r] + others, Request(r.ip, later)).Allowed?
      {
        WaitIsRight(rate, start, requests, r, others, later);
        SilenceIsSeen(rate, start, requests, r, others, later);
        WaitStaysExact(rate, TimesOf(requests, r.ip), r.now);
      }
    }
    if WaitsWork(rate) {
      WorkingWaitsAreWhole(rate);
    }
  }

  lemma {:induction false} WaitStaysExact(rate: real, times: seq<Instant>, now: Instant)
    requires 1.0 <= rate && Whole(rate, 1.0) && Ascending(times + [now]) && AnswerAfter(rate, times, now).Refused?
    ensures Refill(rate, AnswerAfter(rate, times, now).wait) == 1.0 - Filled(rate, Remembered(rate, times), now).tokens
  {
    var tokens := Filled(rate, Remembered(rate, times), now).tokens;
    FilledIsWithin(rate, times, now);
    TokensStayWhole(rate, times);
    FillingKeepsWhole(rate, Remembered(rate, times), now);
    WholeAdds(rate, 1.0, tokens);
    WholeWaitIsExact(rate, 1.0 - tokens);
  }

  lemma {:induction false} TokensStayWhole(rate: real, times: seq<Instant>)
    requires Whole(rate, 1.0)
    ensures times != [] ==> Whole(rate, Remembered(rate, times).value.tokens)
  {
    if times != [] {
      var before, now := times[..|times| - 1], times[|times| - 1];
      TokensStayWhole(rate, before);
      FillingKeepsWhole(rate, Remembered(rate, before), now);
      WholeAdds(rate, Filled(rate, Remembered(rate, before), now).tokens, 1.0);
    }
  }

  lemma {:induction false} FillingKeepsWhole(rate: real, b: Option<Bucket>, now: Instant)
    requires b.Some? ==> Whole(rate, b.value.tokens)
    ensures Whole(rate, Filled(rate, b, now).tokens)
  {
    SecondIsWhole(rate);
    if b.Some? {
      assert Whole(rate, Refill(rate, now - b.value.last));
      WholeAdds(rate, b.value.tokens, Refill(rate, now - b.value.last));
    }
  }

  /** Requests of the only client. */
  function Asking(times: seq<Instant>): (requests: seq<Request<string>>)
    ensures |requests| == |times| && forall i | 0 <= i < |times| :: requests[i] == Request("", times[i])
  {
    seq(|times|, i requires 0 <= i < |times| => Request("", times[i]))
  }

  lemma {:induction false} AskingIs(times: seq<Instant>)
    ensures TimesOf(Asking(times), "") == times
  {
    if times != [] {
      var n := |times| - 1;
      AskingIs(times[..n]);
      assert Asking(times)[..n] == Asking(times[..n]);
    }
  }

  /** If waits work, every wait a client alone is told is exact. */
  lemma {:induction false} WorkingWaitIsExact(rate: real, times: seq<Instant>, now: Instant)
    requires 0.0 < rate && WaitsWork(rate) && Ascending(times + [now]) && (forall t | t in times + [now] :: 0 <= t)
    requires AnswerAfter(rate, times, now).Refused?
    ensures rate >= 1.0 && Refill(rate, AnswerAfter(rate, times, now).wait) == 1.0 - Filled(rate, Remembered(rate, times), now).tokens
  {
    var requests, r, others := Asking(times), Request("", now), [];
    var later := now + AnswerAfter(rate, times, now).wait;
    AskedAlone(times, now, later);
    AskingIs(times);
    SilenceIsSeen(rate, 0, requests, r, others, later);
    AloneWaits(rate, times, now, later);
  }

  lemma {:induction false} AskedAlone(times: seq<Instant>, now: Instant, later: Instant)
    requires Ascending(times + [now]) && (forall t | t in times + [now] :: 0 <= t) && now <= later
    ensures Clocked(0, Asking(times) + [Request("", now)] + [] + [Request("", later)])
  {
    var all, asked := times + [now], Asking(times) + [Request("", now)] + [] + [Request("", later)];
    forall i | 0 <= i < |asked| ensures asked[i].now == if i < |all| then all[i] else later {}
    assert forall i | 0 <= i < |all| :: all[i] in all && all[i] <= all[|all| - 1];
  }

  /** As many tokens as the bucket holds, and one more, asked for at once; the client comes back when
      the wait is over, which empties the bucket, and asks again: it waits for a whole token. */
  lemma {:induction false} WorkingWaitsAreWhole(rate: real)
    requires 0.0 < rate && WaitsWork(rate)
    ensures rate >= 1.0 && Whole(rate, 1.0)
  {
    var n: nat := rate.Floor;
    var zeros := seq(n, _ => 0);
    AtOnce(rate, n);
    WorkingWaitIsExact(rate, zeros, 0);
    var wait := AnswerAfter(rate, zeros, 0).wait;
    var times := zeros + [0] + [wait];
    EmptiedAfter(rate, zeros, 0, wait);
    WorkingWaitIsExact(rate, times, wait);
  }

  /** Requests at one instant take a token each while there are any. */
  lemma {:induction false} AtOnce(rate: real, n: nat)
    requires 0.0 < rate && n <= rate.Floor
    ensures var zeros := seq(n, _ => 0);
            && Filled(rate, Remembered(rate, zeros), 0) == Bucket(rate - n as real, 0)
            && Ascending(zeros + [0]) && forall t | t in zeros :: t == 0
  {
    var zeros := seq(n, _ => 0);
    if n > 0 {
      AtOnce(rate, n - 1);
      assert zeros[..n - 1] == seq(n - 1, _ => 0);
      assert Refill(rate, 0) == 0.0;
    }
  }

  lemma {:induction false} EmptiedAfter(rate: real, times: seq<Instant>, now: Instant, later: Instant)
    requires 1.0 <= rate && now <= later
    requires var tokens := Filled(rate, Remembered(rate, times), now).tokens; tokens < 1.0 && Refill(rate, later - now) == 1.0 - tokens
    ensures Filled(rate, Remembered(rate, times + [now] + [later]), later).tokens == 0.0
  {
    assert (times + [now])[..|times|] == times;
    assert (times + [now] + [later])[..|times| + 1] == times + [now];
    assert Refill(rate, 0) == 0.0;
  }

  /** At three a second the fourth of four requests at once is told to wait a third of a second, less
      a fraction of a nanosecond; and, asking then, it is refused again. */
  lemma {:induction false} ThirdOfASecondIsTooShort(ip: string)
    ensures var r := Request(ip, 0);
            && Answered(3.0, 0, [r, r, r], r) == Refused(333_333_333)
            && Answered(3.0, 0, [r, r, r, r], Request(ip, 333_333_333)).Refused?
  {
    var r, wait := Request(ip, 0), 333_333_333;
    var three, others: seq<Request<string>> := [r, r, r], [];
    AtOnce(3.0, 3);
    assert seq(3, _ => 0) == [0, 0, 0];
    ThreeTimes(ip);
    assert three + [r] + others == [r, r, r, r];
    SilenceIsSeen(3.0, 0, three, r, others, wait);
    AloneWaits(3.0, [0, 0, 0], 0, wait);
  }

  lemma {:induction false} ThreeTimes(ip: string)
    ensures var r := Request(ip, 0); TimesOf([r, r, r], ip) == [0, 0, 0]
  {
    var r := Request(ip, 0);
    assert [r, r, r][..2] == [r, r] && [r, r][..1] == [r] && [r][..0] == [];
    assert TimesOf([r], ip) == [0];
  }

  // As long as the header says.

  /** What the 429 answer's Retry-After header says: whole seconds, rounded up, and at least one. */
  function RetryAfter(wait: Duration): (secs: int)
    requires 0 <= wait
    ensures 1 <= secs && wait <= Seconds(secs)
    ensures forall fewer | 1 <= fewer < secs :: Seconds(fewer) < wait
  {
    var secs := (wait + 999_999_999) / 1_000_000_000;
    if secs < 1 then 1 else secs
  }

  /** A client that was refused and is then silent for as long as the header says, is allowed. */
  ghost predicate RetryAfterWorks(rate: real)
    requires 0.0 < rate
  {
    forall start, requests: seq<Request<string>>, r, others, later |
      && Clocked(start, requests + [r] + others + [Request(r.ip, later)]) && (forall q | q in others :: q.ip != r.ip)
      && Answered(rate, start, requests, r).Refused?
      && r.now + Seconds(RetryAfter(Answered(rate, start, requests, r).wait)) <= later ::
      Answered(rate, start, requests + [r] + others, Request(r.ip, later)).Allowed?
  }

  /** The header can be relied on exactly while the rate is at least one. */
  lemma {:induction false} RetryAfterWorksExactly(rate: real)
    requires 0.0 < rate
    ensures RetryAfterWorks(rate) <==> rate >= 1.0
  {
    if rate >= 1.0 {
      forall start, requests: seq<Request<string>>, r, others, later |
        && Clocked(start, requests + [r] + others + [Request(r.ip, later)]) && (forall q | q in others :: q.ip != r.ip)
        && Answered(rate, start, requests, r).Refused?
        && r.now + Seconds(RetryAfter(Answered(rate, start, requests, r).wait)) <= later
        ensures Answered(rate, start, requests + [r] + others, Request(r.ip, later)).Allowed?
      {
        WaitIsRight(rate, start, requests, r, others, later);
        SilenceIsSeen(rate, start, requests, r, others, later);
        WholeSecondIsExact(rate, TimesOf(requests, r.ip), r.now);
      }
    } else {
      NoOneIsAllowed(rate);
    }
  }

  /** Below one request a second a client that comes twice is refused twice. */
  lemma {:induction false} NoOneIsAllowed(rate: real)
    requires 0.0 < rate < 1.0
    ensures !RetryAfterWorks(rate)
  {
    var requests: seq<Request<string>>, r, others := [], Request("", 0), [];
    assert Answered(rate, 0, requests, r).Refused?;
    var later := Seconds(RetryAfter(Answered(rate, 0, requests, r).wait));
    var all := requests + [r] + others + [Request(r.ip, later)];
    assert all == [r, Request(r.ip, later)] && Clocked(0, all);
    WaitIsRight(rate, 0, requests, r, others, later);
  }

  lemma {:induction false} WholeSecondIsExact(rate: real, times: seq<Instant>, now: Instant)
    requires 1.0 <= rate && Ascending(times + [now]) && AnswerAfter(rate, times, now).Refused?
    ensures var wait := AnswerAfter(rate, times, now).wait;
            wait >= Seconds(1) ==> Refill(rate, wait) == 1.0 - Filled(rate, Remembered(rate, times), now).tokens
  {
    FilledIsWithin(rate, times, now);
    if Seconds(1) <= AnswerAfter(rate, times, now).wait {
      RefillMonotonic(rate, Seconds(1), AnswerAfter(rate, times, now).wait);
      assert Refill(rate, Seconds(1)) == rate;
    }
  }
}
