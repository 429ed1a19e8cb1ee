/** The throttle delays no request for nothing (internal/feed/limiter.go). */
module Promptness {
  import opened Instants
  import opened Buckets
  import opened Limiter

  /** Since instant c, when the bucket was last full, each grant has drawn one token and nothing was
      lost at the brim; the requests granted since are the sends from number k on, and each that had
      to wait goes out as soon as those since c allow. */
  ghost predicate Since(l: Limits, s: State, sends: seq<Instant>, start: Instant, c: Instant, k: nat) {
    && k <= |sends| && c <= s.last && (c == start || c in sends)
    && s.tokens == l.Burst() - (|sends| - k) as real + Refill(l.rate, s.last - c)
    && forall j | k <= j < |sends| :: c <= sends[j] && (sends[j] <= s.last || NotSooner(l, sends[j], c, j - k + 1))
  }

  /** n requests from c on, the last sent a nanosecond before the instant, would be too many. */
  predicate NotSooner(l: Limits, send: Instant, c: Instant, n: int) {
    n as real > l.Burst() + Refill(l.rate, send - 1 - c)
  }

  /** The run's state and sends, with the instant and number that describe them. */
  lemma {:induction false} RunIsSince(l: Limits, start: Instant, calls: seq<Call>) returns (c: Instant, k: nat)
    requires 0.0 < l.rate && Clocked(start, calls)
    ensures Since(l, Run(l, start, calls), Sends(l, start, calls), start, c, k)
    ensures Run(l, start, calls).last <= if calls == [] then start else calls[|calls| - 1].now
  {
    if calls == [] {
      c, k := start, 0;
      assert Refill(l.rate, 0) == 0.0;
    } else {
      var before, call := calls[..|calls| - 1], calls[|calls| - 1];
      c, k := RunIsSince(l, start, before);
      c, k := StepIsSince(l, Run(l, start, before), Sends(l, start, before), start, call, c, k);
    }
  }

  lemma {:induction false} StepIsSince(l: Limits, s: State, sends: seq<Instant>, start: Instant, call: Call, c: Instant, k: nat)
      returns (c': Instant, k': nat)
    requires 0.0 < l.rate && s.last <= call.now && Since(l, s, sends, start, c, k)
    ensures var t := After(l, s, call);
            t.last <= call.now && Since(l, t, sends + if Grants(l, s, call) then [call.now + Delay(l, t)] else [], start, c', k')
  {
    if Grants(l, s, call) {
      c', k' := GrantIsSince(l, Rolled(s, call.now), sends, start, call.now, c, k);
    } else {
      c', k' := c, k;
      assert sends + [] == sends;
    }
  }

  lemma {:induction false} GrantIsSince(l: Limits, s: State, sends: seq<Instant>, start: Instant, now: Instant, c: Instant, k: nat)
      returns (c': Instant, k': nat)
    requires 0.0 < l.rate && s.last <= now && Since(l, s, sends, start, c, k)
    ensures var t := Spent(l, s, now);
            t.last == now && Since(l, t, sends + [now + Delay(l, t)], start, c', k')
  {
    var t := Spent(l, s, now);
    var filled := s.tokens + Refill(l.rate, now - s.last);
    RefillAdds(l.rate, s.last - c, now - s.last);
    assert Refill(l.rate, 0) == 0.0;
    if l.Burst() <= filled && s.last < now {
      c', k' := now, |sends|;
      assert t.tokens == l.Burst() - 1.0;
    } else {
      c', k' := c, k;
      assert t.tokens == filled - 1.0;
      LastIsNotSooner(l, t, c, |sends| - k + 1);
    }
  }

  /** A request that must wait is told the least wait, to the nanosecond. */
  lemma {:induction false} LastIsNotSooner(l: Limits, t: State, c: Instant, n: int)
    requires 0.0 < l.rate && c <= t.last && t.tokens == l.Burst() - n as real + Refill(l.rate, t.last - c)
    ensures var send := t.last + Delay(l, t); send == t.last || NotSooner(l, send, c, n)
  {
    var delay := Delay(l, t);
    if 0 < delay {
      RefillAdds(l.rate, t.last - c, delay - 1);
      RefillMonotonic(l.rate, delay - 1, delay);
    }
  }

  // What a delayed request would exceed.

  /** At least so many of the times fall in the window as those of a stretch that all do. */
  lemma {:induction false} StretchInWindow(times: seq<Instant>, a: Instant, b: Instant, i: nat, j: nat)
    requires i <= j <= |times| && forall n | i <= n < j :: a <= times[n] <= b
    ensures j - i <= InWindow(times, a, b)
  {
    if i < j {
      StretchInWindow(times[..|times| - 1], a, b, i, if j == |times| then j - 1 else j);
    }
  }

  /** With one more a nanosecond before the instant, the window from a would hold too many. */
  predicate TooMany(l: Limits, sends: seq<Instant>, a: Instant, send: Instant) {
    (InWindow(sends, a, send - 1) + 1) as real > l.Burst() + Refill(l.rate, send - 1 - a)
  }

  ghost predicate SomeWindowIsFull(l: Limits, sends: seq<Instant>, start: Instant, send: Instant) {
    exists a :: (a == start || a in sends) && TooMany(l, sends, a, send)
  }

  /** The limiter conserves work: a granted request is delayed only if, sent a nanosecond sooner, it
      would be one too many for some window that starts at an earlier send, or where the limiter
      started. */
  lemma {:induction false} DelayedOnlyIfNeeded(l: Limits, start: Instant, calls: seq<Call>, now: Instant)
    requires 0.0 < l.rate && Clocked(start, calls + [Reserve(now)]) && Grants(l, Run(l, start, calls), Reserve(now))
    ensures var sends, delay := Sends(l, start, calls), Delay(l, Run(l, start, calls + [Reserve(now)]));
            && Sends(l, start, calls + [Reserve(now)]) == sends + [now + delay]
            && (0 < delay ==> SomeWindowIsFull(l, sends, start, now + delay))
  {
    var all := calls + [Reserve(now)];
    assert all[..|calls|] == calls;
    var c, k := RunIsSince(l, start, all);
    var t, more := RunIsMetered(l, start, all, 1);
    LastGrantIs(l, start, calls, now);
    if 0 < Delay(l, t) {
      WouldExceed(l, t, Sends(l, start, calls), start, c, k);
    }
  }

  lemma {:induction false} LastGrantIs(l: Limits, start: Instant, calls: seq<Call>, now: Instant)
    requires 0.0 < l.rate && Clocked(start, calls + [Reserve(now)]) && Grants(l, Run(l, start, calls), Reserve(now))
    ensures Run(l, start, calls + [Reserve(now)]).last == now
  {
    ClockedThen(start, calls, Reserve(now));
    RunThen(l, start, calls, Reserve(now));
    var c, k := RunIsSince(l, start, calls);
  }

  lemma {:induction false} WouldExceed(l: Limits, t: State, sends: seq<Instant>, start: Instant, c: Instant, k: nat)
    requires 0.0 < l.rate && 0 < Delay(l, t)
    requires Since(l, t, sends + [t.last + Delay(l, t)], start, c, k) && Ascending(sends + [t.last + Delay(l, t)])
    ensures SomeWindowIsFull(l, sends, start, t.last + Delay(l, t))
  {
    var send := t.last + Delay(l, t);
    var more := sends + [send];
    HasWaited(l, t, |more| - k, c);
    var j := FirstFrom(more, send, k);
    assert forall n | 0 <= n < |sends| :: sends[n] == more[n];
    forall n | k <= n < j ensures c <= sends[n] <= send - 1 {
      assert more[n] <= more[|sends|];
    }
    StretchInWindow(sends, c, send - 1, k, j);
    NotSoonerIsTooMany(l, sends, c, send, j - k);
    assert c == start || c in sends;
  }

  lemma {:induction false} NotSoonerIsTooMany(l: Limits, sends: seq<Instant>, a: Instant, send: Instant, n: nat)
    requires NotSooner(l, send, a, n + 1) && n <= InWindow(sends, a, send - 1)
    ensures TooMany(l, sends, a, send)
  {}

  lemma {:induction false} HasWaited(l: Limits, t: State, n: int, c: Instant)
    requires 0.0 < l.rate && c <= t.last && t.tokens == l.Burst() - n as real + Refill(l.rate, t.last - c) && 0 < Delay(l, t)
    ensures 0 < n
  {
    RefillMonotonic(l.rate, 0, t.last - c);
    assert Refill(l.rate, 0) == 0.0;
  }

  lemma {:induction false} FirstFrom(times: seq<Instant>, t: Instant, k: nat) returns (j: nat)
    requires k < |times| && times[|times| - 1] == t
    ensures k <= j < |times| && times[j] == t && forall n | k <= n < j :: times[n] != t
    decreases |times| - k
  {
    if times[k] == t {
      j := k;
    } else {
      j := FirstFrom(times, t, k + 1);
    }
  }

  // After a quiet spell.

  /** What was drawn has refilled a nanosecond after the last send. */
  ghost predicate Repaid(l: Limits, s: State, sends: seq<Instant>) {
    if sends == [] then s.tokens == l.Burst() else Drawn(l, s) < Refill(l.rate, sends[|sends| - 1] + 1)
  }

  lemma {:induction false} RunIsRepaid(l: Limits, start: Instant, calls: seq<Call>)
    requires 0.0 < l.rate && Clocked(start, calls)
    ensures Repaid(l, Run(l, start, calls), Sends(l, start, calls))
  {
    if calls != [] {
      var before, call := calls[..|calls| - 1], calls[|calls| - 1];
      RunIsRepaid(l, start, before);
      var c, k := RunIsSince(l, start, before);
      StepIsRepaid(l, Run(l, start, before), Sends(l, start, before), call);
    }
  }

  lemma {:induction false} StepIsRepaid(l: Limits, s: State, sends: seq<Instant>, c: Call)
    requires 0.0 < l.rate && s.last <= c.now && Repaid(l, s, sends)
    ensures var t := After(l, s, c);
            Repaid(l, t, sends + if Grants(l, s, c) then [c.now + Delay(l, t)] else [])
  {
    if Grants(l, s, c) {
      GrantIsRepaid(l, Spent(l, Rolled(s, c.now), c.now));
    } else {
      assert sends + [] == sends;
    }
  }

  lemma {:induction false} GrantIsRepaid(l: Limits, t: State)
    requires 0.0 < l.rate
    ensures Drawn(l, t) < Refill(l.rate, t.last + Delay(l, t) + 1)
  {
    RefillAdds(l.rate, t.last, Delay(l, t) + 1);
    RefillMonotonic(l.rate, 0, 1);
    assert Refill(l.rate, 0) == 0.0;
  }

  /** Short of a full bucket by less than a nanosecond's tokens, and n requests. */
  predicate AlmostFull(l: Limits, tokens: real, n: int) { tokens > l.Burst() - n as real - Refill(l.rate, 1) }

  function Filled(l: Limits, s: State, now: Instant): real {
    if now > s.last then Least(s.tokens + Refill(l.rate, now - s.last), l.Burst()) else s.tokens
  }

  lemma {:induction false} QuietFills(l: Limits, s: State, sends: seq<Instant>, now: Instant)
    requires 0.0 < l.rate && s.last <= now && s.tokens <= l.Burst() && Repaid(l, s, sends)
    requires forall t | t in sends :: l.Burst() <= Refill(l.rate, now - t)
    ensures AlmostFull(l, Filled(l, s, now), 0)
  {
    RefillMonotonic(l.rate, 0, 1);
    RefillMonotonic(l.rate, 0, now - s.last);
    assert Refill(l.rate, 0) == 0.0;
    if sends != [] {
      var last := sends[|sends| - 1];
      assert last in sends;
      RefillAdds(l.rate, s.last, now - s.last);
      RefillAdds(l.rate, last, now - last);
      RefillAdds(l.rate, last, 1);
    }
  }

  function AtOnce(n: nat, now: Instant): seq<Call> { seq(n, _ => Reserve(now)) }

  /** When all that was granted was sent so long ago that the bucket has refilled, or nothing ever was,
      as many requests at one instant as the burst and the budget allow go out at that instant. */
  lemma {:induction false} BurstGoesAtOnce(l: Limits, start: Instant, calls: seq<Call>, now: Instant, n: nat)
    requires 0.0 < l.rate && Clocked(start, calls) && start <= now && (calls != [] ==> calls[|calls| - 1].now <= now)
    requires forall t | t in Sends(l, start, calls) :: l.Burst() <= Refill(l.rate, now - t)
    requires n as real <= l.Burst() && Rolled(Run(l, start, calls), now).used + n <= l.budget
    ensures Sends(l, start, calls + AtOnce(n, now)) == Sends(l, start, calls) + seq(n, _ => now)
    ensures Ready(l, Run(l, start, calls + AtOnce(n, now)), now, n, Rolled(Run(l, start, calls), now).used + n)
  {
    if n == 0 {
      NoneGo(l, start, calls, now);
    } else {
      BurstGoesAtOnce(l, start, calls, now, n - 1);
      NextOfBurst(l, start, calls, now, n, Rolled(Run(l, start, calls), now).used + n);
    }
  }

  lemma {:induction false} NextOfBurst(l: Limits, start: Instant, calls: seq<Call>, now: Instant, n: nat, used: int)
    requires 0.0 < l.rate && 0 < n && n as real <= l.Burst() && used <= l.budget
    requires Ready(l, Run(l, start, calls + AtOnce(n - 1, now)), now, n - 1, used - 1)
    requires Sends(l, start, calls + AtOnce(n - 1, now)) == Sends(l, start, calls) + seq(n - 1, _ => now)
    ensures Ready(l, Run(l, start, calls + AtOnce(n, now)), now, n, used)
    ensures Sends(l, start, calls + AtOnce(n, now)) == Sends(l, start, calls) + seq(n, _ => now)
  {
    var before := calls + AtOnce(n - 1, now);
    OneMore(calls, AtOnce(n - 1, now), AtOnce(n, now), Reserve(now));
    OneMore(Sends(l, start, calls), seq(n - 1, _ => now), seq(n, _ => now), now);
    NextGoesAtOnce(l, Run(l, start, before), now, n, used);
    SendsThen(l, start, before, now);
  }

  lemma {:induction false} NoneGo(l: Limits, start: Instant, calls: seq<Call>, now: Instant)
    requires 0.0 < l.rate && Clocked(start, calls) && start <= now && (calls != [] ==> calls[|calls| - 1].now <= now)
    requires forall t | t in Sends(l, start, calls) :: l.Burst() <= Refill(l.rate, now - t)
    ensures calls + AtOnce(0, now) == calls && Sends(l, start, calls) + seq(0, _ => now) == Sends(l, start, calls)
    ensures Ready(l, Run(l, start, calls), now, 0, Rolled(Run(l, start, calls), now).used)
  {
    var s, sends := RunIsMetered(l, start, calls, 1);
    RunIsRepaid(l, start, calls);
    QuietFills(l, s, sends, now);
  }

  lemma {:induction false} OneMore<T>(a: seq<T>, b: seq<T>, b': seq<T>, x: T)
    requires |b'| == |b| + 1 && b'[..|b|] == b && b'[|b|] == x
    ensures a + b' == (a + b) + [x]
  {}

  lemma {:induction false} SendsThen(l: Limits, start: Instant, calls: seq<Call>, now: Instant)
    requires 0.0 < l.rate && Grants(l, Run(l, start, calls), Reserve(now))
    ensures var s := Run(l, start, calls);
            && Run(l, start, calls + [Reserve(now)]) == After(l, s, Reserve(now))
            && Sends(l, start, calls + [Reserve(now)]) == Sends(l, start, calls) + [now + Delay(l, After(l, s, Reserve(now)))]
  {
    assert (calls + [Reserve(now)])[..|calls|] == calls;
  }

  /** The state after n requests at the instant: so full still, with so many of the day used. */
  predicate Ready(l: Limits, s: State, now: Instant, n: int, used: int) {
    s.last <= now && AlmostFull(l, Filled(l, s, now), n) && Rolled(s, now).used == used
  }

  lemma {:induction false} NextGoesAtOnce(l: Limits, s: State, now: Instant, n: nat, used: int)
    requires 0.0 < l.rate && 0 < n && n as real <= l.Burst() && used <= l.budget && Ready(l, s, now, n - 1, used - 1)
    ensures Grants(l, s, Reserve(now))
    ensures var t := After(l, s, Reserve(now)); Delay(l, t) == 0 && Ready(l, t, now, n, used)
  {
    var t := After(l, s, Reserve(now));
    assert t.tokens == Filled(l, s, now) - 1.0;
    if t.tokens < 0.0 && 0 < Delay(l, t) {
      RefillMonotonic(l.rate, 1, Delay(l, t));
    }
  }
}
