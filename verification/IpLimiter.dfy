/** The limit on each client's requests (internal/api/ratelimit.go): a token bucket per address,
    forgotten when idle. */
module IpLimiter {
  import opened Instants
  import opened Options
  import opened Buckets

  const IDLE_AFTER: Duration := 60_000_000_000

  datatype Bucket = Bucket(tokens: real, last: Instant)

  /** The answer to a request. */
  datatype Answer = Allowed | Refused(wait: Duration)

  predicate Idle(b: Bucket, now: Instant) { now - b.last > IDLE_AFTER }

  /** A client's bucket at a request: refilled, or a full one for a client not known. */
  function Filled(rate: real, b: Option<Bucket>, now: Instant): Bucket {
    match b
    case None => Bucket(rate, now)
    case Some(b) => Bucket(Least(rate, b.tokens + Refill(rate, now - b.last)), now)
  }

  /** The answer to a request, given the client's bucket, filled. */
  function AnswerOf(rate: real, b: Bucket): Answer
    requires 0.0 < rate
  {
    if b.tokens >= 1.0 then Allowed else Refused(WaitFor(rate, 1.0 - b.tokens))
  }

  /** The bucket after a request. */
  function Taken(b: Bucket): Bucket { if b.tokens >= 1.0 then b.(tokens := b.tokens - 1.0) else b }

  class IpLimiter {
    const rate: real  // what a second refills, and the most a bucket holds
    var buckets: map<string, Bucket>
    var lastSweep: Instant

    function Now(): State<string>
      reads this
    {
      State(buckets, lastSweep)
    }

    constructor (rate: real, now: Instant)
      ensures this.rate == rate && Now() == Run(rate, now, [])
    {
      this.rate, buckets, lastSweep := rate, map[], now;
    }

    /** Answers a request as one step of the runs below. */
    method Allow(ip: string, now: Instant) returns (answer: Answer)
      requires 0.0 < rate
      modifies this
      ensures Now() == After(rate, old(Now()), Request(ip, now))
      ensures answer == AnswerOf(rate, Filled(rate, Found(old(Now()), ip, now), now))
    {
      if now - lastSweep > IDLE_AFTER {
        Sweep(now);
      }
      if ip !in buckets {
        buckets := buckets[ip := Bucket(rate, now)];
      }
      var b := buckets[ip];
      b := Bucket(Least(rate, b.tokens + Refill(rate, now - b.last)), now);
      buckets := buckets[ip := b];
      if b.tokens >= 1.0 {
        buckets := buckets[ip := b.(tokens := b.tokens - 1.0)];
        return Allowed;
      }
      return Refused(WaitFor(rate, 1.0 - b.tokens));
    }

    /** Forgets the idle buckets. */
    method Sweep(now: Instant)
      modifies this
      ensures buckets == Swept(old(buckets), now) && lastSweep == now
    {
      var rest := buckets.Keys;
      ghost var before := buckets;
      while rest != {}
        invariant rest <= before.Keys
        invariant buckets == map k | k in before && (k in rest || !Idle(before[k], now)) :: before[k]
        decreases rest
      {
        var k :| k in rest;
        rest := rest - {k};
        if Idle(buckets[k], now) {
          buckets := buckets - {k};
        }
      }
      lastSweep := now;
    }
  }

  function Swept<K>(buckets: map<K, Bucket>, now: Instant): map<K, Bucket> {
    map k | k in buckets && !Idle(buckets[k], now) :: buckets[k]
  }

  function SweptBy<K>(buckets: map<K, Bucket>, lastSweep: Instant, now: Instant): map<K, Bucket> {
    if now - lastSweep > IDLE_AFTER then Swept(buckets, now) else buckets
  }

  function Lookup<K>(buckets: map<K, Bucket>, k: K): Option<Bucket> {
    if k in buckets then Some(buckets[k]) else None
  }

  // Runs.

  datatype Request<K> = Request(ip: K, now: Instant)

  datatype State<K> = State(buckets: map<K, Bucket>, lastSweep: Instant)

  function After<K(==)>(rate: real, s: State<K>, r: Request<K>): State<K> {
    var kept := SweptBy(s.buckets, s.lastSweep, r.now);
    State(kept[r.ip := Taken(Filled(rate, Lookup(kept, r.ip), r.now))],
          if r.now - s.lastSweep > IDLE_AFTER then r.now else s.lastSweep)
  }

  function Run<K(==)>(rate: real, start: Instant, requests: seq<Request<K>>): State<K> {
    if requests == [] then State(map[], start)
    else After(rate, Run(rate, start, requests[..|requests| - 1]), requests[|requests| - 1])
  }

  /** The bucket a request finds once the idle ones are swept. */
  function Found<K(==)>(s: State<K>, ip: K, now: Instant): Option<Bucket> { Lookup(SweptBy(s.buckets, s.lastSweep, now), ip) }

  /** The limiter's answer to a request after others. */
  function Answered<K(==)>(rate: real, start: Instant, requests: seq<Request<K>>, r: Request<K>): Answer
    requires 0.0 < rate
  {
    AnswerOf(rate, Filled(rate, Found(Run(rate, start, requests), r.ip, r.now), r.now))
  }

  /** When a client's requests came. */
  function TimesOf<K(==)>(requests: seq<Request<K>>, ip: K): seq<Instant> {
    if requests == [] then []
    else
      var r := requests[|requests| - 1];
      TimesOf(requests[..|requests| - 1], ip) + if r.ip == ip then [r.now] else []
  }

  /** A bucket that is never forgotten, after requests by its one client. */
  function Remembered(rate: real, times: seq<Instant>): Option<Bucket> {
    if times == [] then None
    else Some(Taken(Filled(rate, Remembered(rate, times[..|times| - 1]), times[|times| - 1])))
  }

  predicate Clocked<K>(start: Instant, requests: seq<Request<K>>) {
    && (forall i | 0 <= i < |requests| :: start <= requests[i].now)
    && (forall i, j | 0 <= i < j < |requests| :: requests[i].now <= requests[j].now)
  }

  /** Idle, a bucket is full again, as good as new. */
  lemma {:induction false} IdleIsFull(rate: real, b: Bucket, now: Instant)
    requires 0.0 <= rate && 0.0 <= b.tokens && Idle(b, now)
    ensures Filled(rate, Some(b), now) == Filled(rate, None, now)
  {
    var x := (now - b.last) as real / 1000000000.0;
    assert x >= 1.0;
    assert rate * (x - 1.0) >= 0.0;
  }

  lemma {:induction false} TakenIsWithin(rate: real, b: Option<Bucket>, now: Instant)
    requires 0.0 <= rate && (b.Some? ==> 0.0 <= b.value.tokens && b.value.last <= now)
    ensures 0.0 <= Filled(rate, b, now).tokens <= rate && 0.0 <= Taken(Filled(rate, b, now)).tokens
  {
    if b.Some? {
      RefillMonotonic(rate, 0, now - b.value.last);
    }
  }

  /** What the limiter has on a client is what it would have had it never forgotten anyone or, if
      it has nothing, it would have a bucket idle by now. */
  ghost predicate Faithful(kept: Option<Bucket>, remembered: Option<Bucket>, now: Instant) {
    && (remembered.Some? ==> 0.0 <= remembered.value.tokens && remembered.value.last <= now)
    && (kept == remembered || (kept.None? && Idle(remembered.value, now)))
  }

  lemma {:induction false} SweepIsFaithful<K>(s: State<K>, ip: K, remembered: Option<Bucket>, now: Instant, later: Instant)
    requires Faithful(Lookup(s.buckets, ip), remembered, now) && now <= later
    ensures Faithful(Found(s, ip, later), remembered, later)
  {}

  lemma {:induction false} FaithfulFills(rate: real, kept: Option<Bucket>, remembered: Option<Bucket>, now: Instant)
    requires 0.0 <= rate && Faithful(kept, remembered, now)
    ensures Filled(rate, kept, now) == Filled(rate, remembered, now)
  {
    if kept != remembered {
      IdleIsFull(rate, remembered.value, now);
    }
  }

  lemma {:induction false} AlwaysFaithful<K>(rate: real, start: Instant, requests: seq<Request<K>>, ip: K)
    requires 0.0 <= rate && Clocked(start, requests)
    ensures Faithful(Lookup(Run(rate, start, requests).buckets, ip), Remembered(rate, TimesOf(requests, ip)),
                     if requests == [] then start else requests[|requests| - 1].now)
  {
    if requests != [] {
      var before, r := requests[..|requests| - 1], requests[|requests| - 1];
      AlwaysFaithful(rate, start, before, ip);
      var s, times := Run(rate, start, before), TimesOf(before, ip);
      StepIsFaithful(rate, s, ip, Remembered(rate, times), if before == [] then start else before[|before| - 1].now, r);
      assert Run(rate, start, requests) == After(rate, s, r);
      assert (times + [r.now])[..|times|] == times && times + [] == times;
    }
  }

  lemma {:induction false} StepIsFaithful<K>(rate: real, s: State<K>, ip: K, remembered: Option<Bucket>, now: Instant, r: Request<K>)
    requires 0.0 <= rate && Faithful(Lookup(s.buckets, ip), remembered, now) && now <= r.now
    ensures Faithful(Lookup(After(rate, s, r).buckets, ip),
                     if r.ip == ip then Some(Taken(Filled(rate, remembered, r.now))) else remembered, r.now)
  {
    SweepIsFaithful(s, ip, remembered, now, r.now);
    if r.ip == ip {
      FaithfulFills(rate, Found(s, ip, r.now), remembered, r.now);
      TakenIsWithin(rate, remembered, r.now);
    }
  }

  lemma {:induction false} FilledAlike<K>(rate: real, start: Instant, requests: seq<Request<K>>, r: Request<K>)
    requires 0.0 <= rate && Clocked(start, requests + [r])
    ensures Filled(rate, Found(Run(rate, start, requests), r.ip, r.now), r.now) ==
            Filled(rate, Remembered(rate, TimesOf(requests, r.ip)), r.now)
  {
    var all := requests + [r];
    assert forall i | 0 <= i < |requests| :: requests[i] == all[i];
    assert all[|requests|] == r;
    AlwaysFaithful(rate, start, requests, r.ip);
    var remembered := Remembered(rate, TimesOf(requests, r.ip));
    var s := Run(rate, start, requests);
    SweepIsFaithful(s, r.ip, remembered, if requests == [] then start else requests[|requests| - 1].now, r.now);
    FaithfulFills(rate, Found(s, r.ip, r.now), remembered, r.now);
  }

  /** Sweeping cannot be observed, nor can other clients: every answer is the one a bucket that is
      never forgotten gives, knowing only the client's own earlier requests. */
  lemma {:induction false} SweepingIsInvisible<K>(rate: real, start: Instant, requests: seq<Request<K>>, r: Request<K>)
    requires 0.0 < rate && Clocked(start, requests + [r])
    ensures Answered(rate, start, requests, r) == AnswerOf(rate, Filled(rate, Remembered(rate, TimesOf(requests, r.ip)), r.now))
  {
    FilledAlike(rate, start, requests, r);
  }

  // The rate.

  /** The answer a client that is alone gets after its earlier requests. */
  function AnswerAfter(rate: real, times: seq<Instant>, now: Instant): Answer
    requires 0.0 < rate
  {
    AnswerOf(rate, Filled(rate, Remembered(rate, times), now))
  }

  /** When a client's requests were allowed. */
  function AllowedAt(rate: real, times: seq<Instant>): seq<Instant> {
    if times == [] then []
    else
      var before, now := times[..|times| - 1], times[|times| - 1];
      AllowedAt(rate, before) + if Filled(rate, Remembered(rate, before), now).tokens >= 1.0 then [now] else []
  }

  /** Tokens ever given out, against a bucket that never stopped filling. */
  function Drawn(rate: real, b: Bucket): real { Refill(rate, b.last) - b.tokens }

  ghost predicate Metered(rate: real, b: Bucket, allowed: seq<Instant>) {
    && 0.0 <= b.tokens <= rate
    && forall i | 0 <= i < |allowed| ::
         allowed[i] <= b.last && Refill(rate, allowed[i]) + (|allowed| - i) as real <= Drawn(rate, b) + rate
  }

  lemma {:induction false} ClientIsMetered(rate: real, times: seq<Instant>)
    requires 0.0 <= rate && Ascending(times) && times != []
    ensures var b, allowed := Remembered(rate, times).value, AllowedAt(rate, times);
            b.last == times[|times| - 1] && Metered(rate, b, allowed) && Ascending(allowed) && Paced(allowed, rate, rate, 0)
  {
    var before, now := times[..|times| - 1], times[|times| - 1];
    if before == [] {
      FirstIsMetered(rate, now);
    } else {
      ClientIsMetered(rate, before);
      RequestIsMetered(rate, Remembered(rate, before).value, AllowedAt(rate, before), now);
    }
  }

  lemma {:induction false} FirstIsMetered(rate: real, now: Instant)
    requires 0.0 <= rate
    ensures var filled := Filled(rate, None, now);
            var allowed := if filled.tokens >= 1.0 then [now] else [];
            Metered(rate, Taken(filled), allowed) && Ascending(allowed) && Paced(allowed, rate, rate, 0)
  {}

  lemma {:induction false} RequestIsMetered(rate: real, b: Bucket, allowed: seq<Instant>, now: Instant)
    requires 0.0 <= rate && b.last <= now && Metered(rate, b, allowed) && Ascending(allowed) && Paced(allowed, rate, rate, 0)
    ensures var filled := Filled(rate, Some(b), now);
            var more := allowed + if filled.tokens >= 1.0 then [now] else [];
            Metered(rate, Taken(filled), more) && Ascending(more) && Paced(more, rate, rate, 0)
  {
    TakenIsWithin(rate, Some(b), now);
    RefillAdds(rate, b.last, now - b.last);
    forall i | 0 <= i < |allowed|
      ensures Refill(rate, now - allowed[i]) == Refill(rate, now) - Refill(rate, allowed[i])
    {
      RefillAdds(rate, allowed[i], now - allowed[i]);
    }
  }

  lemma {:induction false} AloneRateIsKept(rate: real, times: seq<Instant>, a: Instant, b: Instant)
    requires 0.0 <= rate && Ascending(times) && a <= b
    ensures InWindow(AllowedAt(rate, times), a, b) as real <= rate + Refill(rate, b - a)
  {
    var allowed := AllowedAt(rate, times);
    if times != [] {
      ClientIsMetered(rate, times);
    }
    WindowHolds(allowed, rate, rate, 0, a, b);
  }

  /** When the limiter allowed a client's requests. */
  function GrantedTo<K(==)>(rate: real, start: Instant, requests: seq<Request<K>>, ip: K): seq<Instant>
    requires 0.0 < rate
  {
    if requests == [] then []
    else
      var before, r := requests[..|requests| - 1], requests[|requests| - 1];
      GrantedTo(rate, start, before, ip) + if r.ip == ip && Answered(rate, start, before, r).Allowed? then [r.now] else []
  }

  lemma {:induction false} GrantedAlone<K>(rate: real, start: Instant, requests: seq<Request<K>>, ip: K)
    requires 0.0 < rate && Clocked(start, requests)
    ensures GrantedTo(rate, start, requests, ip) == AllowedAt(rate, TimesOf(requests, ip))
  {
    if requests != [] {
      var before, r := requests[..|requests| - 1], requests[|requests| - 1];
      GrantedAlone(rate, start, before, ip);
      assert requests == before + [r];
      GrantedThen(rate, start, before, r, ip);
    }
  }

  lemma {:induction false} GrantedThen<K>(rate: real, start: Instant, requests: seq<Request<K>>, r: Request<K>, ip: K)
    requires 0.0 < rate && Clocked(start, requests + [r])
    ensures var granted := if r.ip == ip && Answered(rate, start, requests, r).Allowed? then [r.now] else [];
            AllowedAt(rate, TimesOf(requests, ip)) + granted ==
            AllowedAt(rate, TimesOf(requests, ip) + if r.ip == ip then [r.now] else [])
  {
    AllowedThen(rate, TimesOf(requests, ip), r.now);
    if r.ip == ip {
      SweepingIsInvisible(rate, start, requests, r);
    }
  }

  lemma {:induction false} AllowedThen(rate: real, times: seq<Instant>, now: Instant)
    requires 0.0 < rate
    ensures AllowedAt(rate, times + [now]) == AllowedAt(rate, times) + if AnswerAfter(rate, times, now).Allowed? then [now] else []
    ensures times + [] == times
  {
    assert (times + [now])[..|times|] == times;
  }

  /** Any window of length T allows a client at most rate + rate * T requests, whoever else asks. */
  lemma {:induction false} ClientRateIsKept<K>(rate: real, start: Instant, requests: seq<Request<K>>, ip: K, a: Instant, b: Instant)
    requires 0.0 < rate && Clocked(start, requests) && a <= b
    ensures InWindow(GrantedTo(rate, start, requests, ip), a, b) as real <= rate + Refill(rate, b - a)
  {
    GrantedAlone(rate, start, requests, ip);
    TimesAscend(start, requests, ip);
    AloneRateIsKept(rate, TimesOf(requests, ip), a, b);
  }

  lemma {:induction false} TimesOfBoth<K>(requests: seq<Request<K>>, more: seq<Request<K>>, ip: K)
    ensures TimesOf(requests + more, ip) == TimesOf(requests, ip) + TimesOf(more, ip)
  {
    if more == [] {
      assert requests + more == requests;
    } else {
      var n := |more| - 1;
      assert (requests + more)[..|requests| + n] == requests + more[..n];
      TimesOfBoth(requests, more[..n], ip);
    }
  }

  lemma {:induction false} NoTimes<K>(requests: seq<Request<K>>, ip: K)
    requires forall q | q in requests :: q.ip != ip
    ensures TimesOf(requests, ip) == []
  {
    if requests != [] {
      forall q | q in requests[..|requests| - 1] ensures q.ip != ip {
        assert q in requests;
      }
      assert requests[|requests| - 1] in requests;
      NoTimes(requests[..|requests| - 1], ip);
    }
  }

  lemma {:induction false} TimesAscend<K>(start: Instant, requests: seq<Request<K>>, ip: K)
    requires Clocked(start, requests)
    ensures Ascending(TimesOf(requests, ip))
    ensures forall t | t in TimesOf(requests, ip) :: requests != [] && t <= requests[|requests| - 1].now
  {
    if requests != [] {
      TimesAscend(start, requests[..|requests| - 1], ip);
      var times := TimesOf(requests[..|requests| - 1], ip);
      assert forall i | 0 <= i < |times| :: times[i] in times;
    }
  }

  // What is remembered.

  /** Every bucket was used within a minute of the last sweep, which was within a minute of now. */
  ghost predicate Recent<K>(s: State<K>, now: Instant) {
    && now - Seconds(60) <= s.lastSweep <= now
    && forall k | k in s.buckets :: s.lastSweep - Seconds(60) <= s.buckets[k].last <= now
  }

  lemma {:induction false} StepStaysRecent<K>(rate: real, s: State<K>, r: Request<K>, before: Instant)
    requires Recent(s, before) && before <= r.now
    ensures Recent(After(rate, s, r), r.now)
  {}

  /** The limiter remembers a client that asked within the last minute, none that has not for two, and
      so needs room for two minutes' clients. */
  lemma {:induction false} RemembersTheRecent<K>(rate: real, start: Instant, requests: seq<Request<K>>)
    requires Clocked(start, requests) && requests != []
    ensures var s, now := Run(rate, start, requests), requests[|requests| - 1].now;
            && (forall k | k in s.buckets :: now - Seconds(120) <= s.buckets[k].last)
            && (forall i | 0 <= i < |requests| && now - Seconds(60) <= requests[i].now :: requests[i].ip in s.buckets)
  {
    RunIsRecent(rate, start, requests);
    forall i | 0 <= i < |requests| && requests[|requests| - 1].now - Seconds(60) <= requests[i].now
      ensures requests[i].ip in Run(rate, start, requests).buckets
    {
      StaysRemembered(rate, start, requests, i);
    }
  }

  lemma {:induction false} RunIsRecent<K>(rate: real, start: Instant, requests: seq<Request<K>>)
    requires Clocked(start, requests)
    ensures Recent(Run(rate, start, requests), if requests == [] then start else requests[|requests| - 1].now)
  {
    if requests != [] {
      var before := requests[..|requests| - 1];
      RunIsRecent(rate, start, before);
      StepStaysRecent(rate, Run(rate, start, before), requests[|requests| - 1], if before == [] then start else before[|before| - 1].now);
    }
  }

  lemma {:induction false} StaysRemembered<K>(rate: real, start: Instant, requests: seq<Request<K>>, i: nat)
    requires Clocked(start, requests) && i < |requests| && requests[|requests| - 1].now - Seconds(60) <= requests[i].now
    ensures var s := Run(rate, start, requests); requests[i].ip in s.buckets && requests[i].now <= s.buckets[requests[i].ip].last
  {
    var n := |requests| - 1;
    if i < n {
      StaysRemembered(rate, start, requests[..n], i);
    }
  }
}
