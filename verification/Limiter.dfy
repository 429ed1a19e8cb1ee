/** The account-wide throttle on requests upstream (internal/feed/limiter.go): a token bucket that
    may be overdrawn, and a daily budget. */
module Limiter {
  import opened Instants
  import opened Options
  import opened Buckets

  datatype Limits = Limits(rate: real, budget: int) {
    /** The bucket's capacity: one second's worth. */
    function Burst(): real { if rate < 1.0 then 1.0 else rate }
  }

  datatype State = State(tokens: real, last: Instant, used: int, day: Instant)

  function UtcMidnight(now: Instant): Instant { Days(UtcDay(now)) }

  function Fresh(l: Limits, now: Instant): State { State(l.Burst(), now, 0, UtcMidnight(now)) }

  /** The state on a later UTC day than its own has nothing used. */
  function Rolled(s: State, now: Instant): State {
    if UtcMidnight(now) > s.day then s.(day := UtcMidnight(now), used := 0) else s
  }

  /** The state after a request is granted its place. */
  function Spent(l: Limits, s: State, now: Instant): State {
    s.(used := s.used + 1,
       tokens := (if now > s.last then Least(s.tokens + Refill(l.rate, now - s.last), l.Burst()) else s.tokens) - 1.0,
       last := if now > s.last then now else s.last)
  }

  /** How long a request granted its place must wait. */
  function Delay(l: Limits, s: State): Duration
    requires 0.0 < l.rate
  {
    if s.tokens >= 0.0 then 0 else WaitFor(l.rate, -s.tokens)
  }

  class Limiter {
    const limits: Limits
    var tokens: real  // below zero by what is granted and yet to be refilled
    var last: Instant
    var used: int
    var day: Instant

    function Now(): State
      reads this
    {
      State(tokens, last, used, day)
    }

    constructor (limits: Limits, now: Instant)
      ensures this.limits == limits && Now() == Fresh(limits, now)
    {
      this.limits := limits;
      tokens, last, used, day := limits.Burst(), now, 0, UtcMidnight(now);
    }

    /** Grants a request while the day's budget lasts, with the delay that paces it, and otherwise
        refuses it until the next UTC midnight. */
    method Reserve(now: Instant) returns (delay: Result<Duration, Duration>)
      requires 0.0 < limits.rate
      modifies this
      ensures Now() == After(limits, old(Now()), Call.Reserve(now))
      ensures delay == if Grants(limits, old(Now()), Call.Reserve(now)) then Ok(Delay(limits, Now()))
                       else Err(Now().day + Hours(24) - now)
    {
      Rollover(now);
      if used >= limits.budget {
        return Err(ResetsIn(now));
      }
      used := used + 1;
      var elapsed := now - last;
      if elapsed > 0 {
        tokens := Least(tokens + Refill(limits.rate, elapsed), limits.Burst());
        last := now;
      }
      tokens := tokens - 1.0;
      if tokens >= 0.0 {
        return Ok(0);
      }
      return Ok(WaitFor(limits.rate, -tokens));
    }

    method Rollover(now: Instant)
      modifies this
      ensures Now() == Rolled(old(Now()), now)
    {
      if UtcMidnight(now) > day {
        day, used := UtcMidnight(now), 0;
      }
    }

    function ResetsIn(now: Instant): Duration
      reads this
    {
      day + Hours(24) - now
    }

    /** Leaves no request to be granted before the next UTC midnight. */
    method Exhaust(now: Instant)
      modifies this
      ensures Now() == After(limits, old(Now()), Call.Exhaust(now))
    {
      Rollover(now);
      used := limits.budget;
    }

    method Used(now: Instant) returns (n: int)
      modifies this
      ensures Now() == After(limits, old(Now()), Call.Used(now)) && n == used
    {
      Rollover(now);
      n := used;
    }
  }

  // Runs.

  datatype Call = Reserve(now: Instant) | Exhaust(now: Instant) | Used(now: Instant)

  predicate Grants(l: Limits, s: State, c: Call) { c.Reserve? && Rolled(s, c.now).used < l.budget }

  function After(l: Limits, s: State, c: Call): State {
    if Grants(l, s, c) then Spent(l, Rolled(s, c.now), c.now)
    else if c.Exhaust? then Rolled(s, c.now).(used := l.budget)
    else Rolled(s, c.now)
  }

  function Run(l: Limits, start: Instant, calls: seq<Call>): State {
    if calls == [] then Fresh(l, start) else After(l, Run(l, start, calls[..|calls| - 1]), calls[|calls| - 1])
  }

  /** When the requests granted a place are sent, in the order they were granted. */
  function Sends(l: Limits, start: Instant, calls: seq<Call>): seq<Instant>
    requires 0.0 < l.rate
  {
    if calls == [] then []
    else
      var before, c := calls[..|calls| - 1], calls[|calls| - 1];
      var s := Run(l, start, before);
      Sends(l, start, before) + if Grants(l, s, c) then [c.now + Delay(l, After(l, s, c))] else []
  }

  /** The clock does not go back. */
  predicate Clocked(start: Instant, calls: seq<Call>) {
    && (forall i | 0 <= i < |calls| :: start <= calls[i].now)
    && (forall i, j | 0 <= i < j < |calls| :: calls[i].now <= calls[j].now)
  }

  // The rate.

  /** Tokens ever given out, against a bucket that never stopped filling. */
  function Drawn(l: Limits, s: State): real { Refill(l.rate, s.last) - s.tokens }

  /** A grant draws a token or more. */
  lemma {:induction false} SpendingDraws(l: Limits, s: State, now: Instant)
    requires 0.0 < l.rate && s.last <= now && s.tokens <= l.Burst()
    ensures Drawn(l, Spent(l, s, now)) >= Drawn(l, s) + 1.0
    ensures Spent(l, s, now).last == now && Spent(l, s, now).tokens <= l.Burst() - 1.0
  {
    RefillAdds(l.rate, s.last, now - s.last);
  }

  /** The slack to be reckoned with: a nanosecond, or none while tokens stay whole. */
  ghost predicate Slack(l: Limits, s: State, slack: Duration) {
    slack == 1 || (slack == 0 && Whole(l.rate, 1.0) && Whole(l.rate, s.tokens))
  }

  lemma {:induction false} BurstIsWhole(l: Limits)
    requires Whole(l.rate, 1.0)
    ensures Whole(l.rate, l.Burst())
  {
    SecondIsWhole(l.rate);
  }

  lemma {:induction false} SpendingKeepsSlack(l: Limits, s: State, now: Instant, slack: Duration)
    requires Slack(l, s, slack)
    ensures Slack(l, Spent(l, s, now), slack)
  {
    if slack == 0 {
      var elapsed := if now > s.last then now - s.last else 0;
      assert Whole(l.rate, Refill(l.rate, elapsed));
      BurstIsWhole(l);
      WholeAdds(l.rate, s.tokens, Refill(l.rate, elapsed));
      WholeAdds(l.rate, s.tokens + Refill(l.rate, elapsed), 1.0);
      WholeAdds(l.rate, l.Burst(), 1.0);
      assert Refill(l.rate, 0) == 0.0;
    }
  }

  /** The request goes out as what it drew has refilled, or at most a nanosecond early. */
  lemma {:induction false} SendMeetsDrawn(l: Limits, s: State, slack: Duration)
    requires 0.0 < l.rate && s.tokens <= l.Burst() - 1.0 && Slack(l, s, slack)
    ensures var send := s.last + Delay(l, s);
            && s.last <= send && Refill(l.rate, send) <= Drawn(l, s) + l.Burst() - 1.0
            && Drawn(l, s) <= Refill(l.rate, send + slack)
            && (s.last == send || Refill(l.rate, send) <= Drawn(l, s))
  {
    var delay := Delay(l, s);
    RefillAdds(l.rate, s.last, delay);
    RefillAdds(l.rate, s.last, delay + 1);
    RefillMonotonic(l.rate, 0, 1);
    if slack == 0 && s.tokens < 0.0 {
      DelayIsExact(l, s);
    }
  }

  lemma {:induction false} DelayIsExact(l: Limits, s: State)
    requires 0.0 < l.rate && s.tokens < 0.0 && Whole(l.rate, s.tokens)
    ensures Refill(l.rate, Delay(l, s)) == -s.tokens
  {
    assert Refill(l.rate, 0) == 0.0;
    WholeAdds(l.rate, 0.0, s.tokens);
    WholeWaitIsExact(l.rate, -s.tokens);
  }

  /** Each send is within the burst of what has been drawn since. */
  ghost predicate Metered(l: Limits, s: State, sends: seq<Instant>) {
    && s.tokens <= l.Burst()
    && forall i | 0 <= i < |sends| ::
         && Refill(l.rate, sends[i]) + (|sends| - i) as real <= Drawn(l, s) + l.Burst()
         && (sends[i] <= s.last || Refill(l.rate, sends[i]) <= Drawn(l, s))
  }

  lemma {:induction false} GrantIsMetered(l: Limits, s: State, sends: seq<Instant>, now: Instant, slack: Duration)
    requires 0.0 < l.rate && s.last <= now && Slack(l, s, slack)
    requires Metered(l, s, sends) && Ascending(sends) && Paced(sends, l.rate, l.Burst(), slack)
    ensures var t := Spent(l, s, now);
            var more := sends + [now + Delay(l, t)];
            Slack(l, t, slack) && Metered(l, t, more) && Ascending(more) && Paced(more, l.rate, l.Burst(), slack)
  {
    var t := Spent(l, s, now);
    SpendingDraws(l, s, now);
    SpendingKeepsSlack(l, s, now, slack);
    SendMeetsDrawn(l, t, slack);
    var send := now + Delay(l, t);
    forall i | 0 <= i < |sends|
      ensures sends[i] <= send
      ensures (|sends| - i + 1) as real <= l.Burst() + Refill(l.rate, send - sends[i] + slack)
    {
      if send < sends[i] {
        RefillMonotonic(l.rate, send + slack, sends[i]);
      }
      RefillAdds(l.rate, sends[i], send - sends[i] + slack);
    }
    RefillMonotonic(l.rate, 0, slack);
    PacedThen(sends, l.rate, l.Burst(), slack, send);
  }

  lemma {:induction false} RunIsMetered(l: Limits, start: Instant, calls: seq<Call>, slack: Duration) returns (s: State, sends: seq<Instant>)
    requires 0.0 < l.rate && Clocked(start, calls) && (slack == 1 || (slack == 0 && Whole(l.rate, 1.0)))
    ensures s == Run(l, start, calls) && sends == Sends(l, start, calls)
    ensures s.last <= if calls == [] then start else calls[|calls| - 1].now
    ensures Slack(l, s, slack) && Metered(l, s, sends) && Ascending(sends) && Paced(sends, l.rate, l.Burst(), slack)
  {
    if calls == [] {
      s, sends := Fresh(l, start), [];
      FreshIsMetered(l, start, slack);
    } else {
      var before, c := calls[..|calls| - 1], calls[|calls| - 1];
      var prior;
      prior, sends := RunIsMetered(l, start, before, slack);
      StepIsMetered(l, prior, sends, c, slack);
      s := After(l, prior, c);
      sends := sends + if Grants(l, prior, c) then [c.now + Delay(l, s)] else [];
    }
  }

  lemma {:induction false} FreshIsMetered(l: Limits, start: Instant, slack: Duration)
    requires slack == 1 || (slack == 0 && Whole(l.rate, 1.0))
    ensures var s := Fresh(l, start); s.last <= start && Slack(l, s, slack) && Metered(l, s, []) && Paced([], l.rate, l.Burst(), slack)
  {
    if slack == 0 {
      BurstIsWhole(l);
    }
  }

  lemma {:induction false} StepIsMetered(l: Limits, s: State, sends: seq<Instant>, c: Call, slack: Duration)
    requires 0.0 < l.rate && s.last <= c.now && Slack(l, s, slack)
    requires Metered(l, s, sends) && Ascending(sends) && Paced(sends, l.rate, l.Burst(), slack)
    ensures var t := After(l, s, c);
            var more := sends + if Grants(l, s, c) then [c.now + Delay(l, t)] else [];
            t.last <= c.now && Slack(l, t, slack) && Metered(l, t, more) && Ascending(more) && Paced(more, l.rate, l.Burst(), slack)
  {
    if Grants(l, s, c) {
      GrantIsMetered(l, Rolled(s, c.now), sends, c.now, slack);
    } else {
      assert sends + [] == sends;
    }
  }

  /** Whatever the calls, requests go out in the order they were granted, and any window of length
      T holds at most burst + rate * T of them, to the nanosecond. */
  lemma {:induction false} RateIsKept(l: Limits, start: Instant, calls: seq<Call>, a: Instant, b: Instant)
    requires 0.0 < l.rate && Clocked(start, calls) && a <= b
    ensures Ascending(Sends(l, start, calls))
    ensures InWindow(Sends(l, start, calls), a, b) as real <= l.Burst() + Refill(l.rate, b - a + 1)
  {
    var _, sends := RunIsMetered(l, start, calls, 1);
    WindowHolds(sends, l.rate, l.Burst(), 1, a, b);
  }

  /** At a rate, whatever the budget and the calls, a window of length T never holds more than
      burst + rate * T. */
  ghost predicate RateIsExact(rate: real)
    requires 0.0 < rate
  {
    forall budget, start, calls, a, b | Clocked(start, calls) && a <= b ::
      var l := Limits(rate, budget);
      InWindow(Sends(l, start, calls), a, b) as real <= l.Burst() + Refill(rate, b - a)
  }

  /** The bound needs no slack exactly when one token takes a whole number of nanoseconds: at four
      requests a second it does, at three it does not. */
  lemma {:induction false} RateIsKeptExactly(rate: real)
    requires 0.0 < rate
    ensures RateIsExact(rate) <==> Whole(rate, 1.0)
  {
    if Whole(rate, 1.0) {
      forall budget, start, calls, a, b | Clocked(start, calls) && a <= b
        ensures var l := Limits(rate, budget);
                InWindow(Sends(l, start, calls), a, b) as real <= l.Burst() + Refill(rate, b - a)
      {
        var l := Limits(rate, budget);
        var _, sends := RunIsMetered(l, start, calls, 0);
        WindowHolds(sends, rate, l.Burst(), 0, a, b);
      }
    }
    if RateIsExact(rate) {
      ExactRateIsWhole(rate);
    }
  }

  /** So many requests at one instant. */
  function Together(n: nat): seq<Call> { seq(n, _ => Reserve(0)) }

  lemma {:induction false} TogetherSpend(l: Limits, n: nat)
    requires 0.0 < l.rate && n <= l.budget
    ensures Run(l, 0, Together(n)) == State(l.Burst() - n as real, 0, n, UtcMidnight(0))
    ensures |Sends(l, 0, Together(n))| == n
    ensures forall t | t in Sends(l, 0, Together(n)) :: 0 <= t
    ensures n > 0 && l.Burst() < n as real ==> Sends(l, 0, Together(n))[n - 1] == WaitFor(l.rate, n as real - l.Burst())
  {
    if n > 0 {
      TogetherSpend(l, n - 1);
      assert Together(n)[..n - 1] == Together(n - 1);
    }
  }

  /** Requests made together keep to the bound only if each wait is exact; and two exact waits in a
      row are a token's worth of whole nanoseconds apart. */
  lemma {:induction false} ExactRateIsWhole(rate: real)
    requires 0.0 < rate && RateIsExact(rate)
    ensures Whole(rate, 1.0)
  {
    var burst := Limits(rate, 0).Burst();
    var n: nat := burst.Floor + 1;
    TogetherIsExact(rate, n);
    TogetherIsExact(rate, n + 1);
    var a, b := WaitFor(rate, n as real - burst), WaitFor(rate, (n + 1) as real - burst);
    RefillAdds(rate, a, b - a);
    assert Refill(rate, b - a) == 1.0;
  }

  /** At three requests a second four of them go out within a third of one, less a nanosecond. */
  lemma {:induction false} ThreeASecondExceeds()
    ensures var l := Limits(3.0, 4);
            InWindow(Sends(l, 0, Together(4)), 0, 333_333_333) as real > l.Burst() + Refill(3.0, 333_333_333)
  {
    var l := Limits(3.0, 4);
    TogetherSpend(l, 4);
    var _, sends := RunIsMetered(l, 0, Together(4), 1);
    assert sends[3] == WaitFor(3.0, 1.0) == 333_333_333;
    AllInWindow(sends, 0, 333_333_333);
  }

  lemma {:induction false} TogetherIsExact(rate: real, n: nat)
    requires 0.0 < rate && RateIsExact(rate) && Limits(rate, n).Burst() < n as real
    ensures var deficit := n as real - Limits(rate, n).Burst(); Refill(rate, WaitFor(rate, deficit)) == deficit
  {
    var l, calls := Limits(rate, n), Together(n);
    TogetherSpend(l, n);
    assert Clocked(0, calls);
    var _, sends := RunIsMetered(l, 0, calls, 1);
    var last := sends[n - 1];
    assert InWindow(sends, 0, last) as real <= l.Burst() + Refill(rate, last - 0);
    AllInWindow(sends, 0, last);
  }

  // The budget.

  /** How many requests were granted on a UTC day. */
  function GrantsOn(l: Limits, start: Instant, calls: seq<Call>, day: Date): (n: nat)
  {
    if calls == [] then 0
    else
      var before, c := calls[..|calls| - 1], calls[|calls| - 1];
      GrantsOn(l, start, before, day) + if Grants(l, Run(l, start, before), c) && UtcDay(c.now) == day then 1 else 0
  }

  predicate ExhaustedOn(calls: seq<Call>, day: Date) {
    exists c | c in calls :: c.Exhaust? && UtcDay(c.now) == day
  }

  /** The day the calls have got to. */
  function Today(start: Instant, calls: seq<Call>): Date { UtcDay(if calls == [] then start else calls[|calls| - 1].now) }

  lemma {:induction false} NothingAfterToday(l: Limits, start: Instant, calls: seq<Call>, day: Date)
    requires Clocked(start, calls) && Today(start, calls) < day
    ensures GrantsOn(l, start, calls, day) == 0 && !ExhaustedOn(calls, day)
  {
    if calls != [] {
      NothingAfterToday(l, start, calls[..|calls| - 1], day);
    }
  }

  lemma {:induction false} ExhaustedThen(before: seq<Call>, c: Call, day: Date)
    ensures ExhaustedOn(before + [c], day) <==> ExhaustedOn(before, day) || (c.Exhaust? && UtcDay(c.now) == day)
  {
    assert forall e :: e in before + [c] <==> e in before || e == c;
  }

  /** The counter counts the day's grants, unless the upstream called the day's budget spent. */
  lemma {:induction false} UsedIs(l: Limits, start: Instant, calls: seq<Call>)
    requires Clocked(start, calls)
    ensures var s, today := Run(l, start, calls), Today(start, calls);
            && s.day == Days(today)
            && s.used == if ExhaustedOn(calls, today) then l.budget else GrantsOn(l, start, calls, today)
    decreases |calls|, 0
  {
    if calls != [] {
      var before, c := calls[..|calls| - 1], calls[|calls| - 1];
      var s, today := Run(l, start, before), UtcDay(c.now);
      assert calls == before + [c];
      ExhaustedThen(before, c, today);
      UsedBefore(l, start, before, today);
      UsedThen(l, s, c, Today(start, before), GrantsOn(l, start, before, today), ExhaustedOn(before, today));
      assert Run(l, start, calls) == After(l, s, c);
    }
  }

  lemma {:induction false} UsedBefore(l: Limits, start: Instant, calls: seq<Call>, day: Date)
    requires Clocked(start, calls) && Today(start, calls) <= day
    ensures var s, today := Run(l, start, calls), Today(start, calls);
            && s.day == Days(today)
            && if day == today then s.used == (if ExhaustedOn(calls, day) then l.budget else GrantsOn(l, start, calls, day))
               else GrantsOn(l, start, calls, day) == 0 && !ExhaustedOn(calls, day)
    decreases |calls|, 1
  {
    UsedIs(l, start, calls);
    if Today(start, calls) < day {
      NothingAfterToday(l, start, calls, day);
    }
  }

  lemma {:induction false} UsedThen(l: Limits, s: State, c: Call, day: Date, grants: nat, exhausted: bool)
    requires s.day == Days(day) && day <= UtcDay(c.now)
    requires if day == UtcDay(c.now) then s.used == (if exhausted then l.budget else grants) else grants == 0 && !exhausted
    ensures var t := After(l, s, c);
            && t.day == Days(UtcDay(c.now))
            && t.used == if exhausted || c.Exhaust? then l.budget else grants + if Grants(l, s, c) then 1 else 0
  {}

  lemma {:induction false} BudgetIsKept(l: Limits, start: Instant, calls: seq<Call>, day: Date)
    requires Clocked(start, calls)
    ensures GrantsOn(l, start, calls, day) <= if l.budget < 0 then 0 else l.budget
  {
    if calls != [] {
      var before, c := calls[..|calls| - 1], calls[|calls| - 1];
      BudgetIsKept(l, start, before, day);
      GrantedExactly(l, start, before, c.now);
    }
  }

  lemma {:induction false} GrantedExactly(l: Limits, start: Instant, calls: seq<Call>, now: Instant)
    requires Clocked(start, calls) && start <= now && (calls != [] ==> calls[|calls| - 1].now <= now)
    ensures Grants(l, Run(l, start, calls), Reserve(now)) <==>
            GrantsOn(l, start, calls, UtcDay(now)) < l.budget && !ExhaustedOn(calls, UtcDay(now))
  {
    UsedBefore(l, start, calls, UtcDay(now));
  }

  /** A request is granted exactly while the UTC day's grants are under budget and the upstream has
      not called the budget spent that day; so no day has more grants than the budget, and none
      come between Exhaust and the next UTC midnight. */
  lemma {:induction false} BudgetIsKeptExactly(l: Limits, start: Instant, calls: seq<Call>, now: Instant)
    requires Clocked(start, calls + [Reserve(now)])
    ensures var day := UtcDay(now);
            && (Grants(l, Run(l, start, calls), Reserve(now)) <==>
                GrantsOn(l, start, calls, day) < l.budget && !ExhaustedOn(calls, day))
            && GrantsOn(l, start, calls, day) <= if l.budget < 0 then 0 else l.budget
  {
    ClockedThen(start, calls, Reserve(now));
    GrantedExactly(l, start, calls, now);
    BudgetIsKept(l, start, calls, UtcDay(now));
  }

  /** A refused caller is told how long to wait: until then it is refused, and at that instant, if
      nobody comes first, granted. */
  lemma {:induction false} ResetIsExact(l: Limits, start: Instant, calls: seq<Call>, now: Instant, later: Instant)
    requires Clocked(start, calls + [Reserve(now)]) && !Grants(l, Run(l, start, calls), Reserve(now)) && now <= later && 0 < l.budget
    ensures var s := Run(l, start, calls + [Reserve(now)]);
            && now < s.day + Hours(24)
            && (Grants(l, s, Reserve(later)) <==> s.day + Hours(24) <= later)
  {
    ClockedThen(start, calls, Reserve(now));
    UsedBefore(l, start, calls, UtcDay(now));
    var s := Run(l, start, calls);
    RunThen(l, start, calls, Reserve(now));
    RefusedUntilMidnight(l, s, now, later);
  }

  lemma {:induction false} RunThen(l: Limits, start: Instant, calls: seq<Call>, c: Call)
    ensures Run(l, start, calls + [c]) == After(l, Run(l, start, calls), c)
  {
    assert (calls + [c])[..|calls|] == calls;
  }

  lemma {:induction false} ClockedThen(start: Instant, calls: seq<Call>, c: Call)
    requires Clocked(start, calls + [c])
    ensures Clocked(start, calls) && start <= c.now && (calls != [] ==> calls[|calls| - 1].now <= c.now)
    ensures Today(start, calls) <= UtcDay(c.now)
  {
    var all := calls + [c];
    assert forall i | 0 <= i < |calls| :: calls[i] == all[i];
    assert all[|calls|] == c;
  }

  lemma {:induction false} RefusedUntilMidnight(l: Limits, before: State, now: Instant, later: Instant)
    requires !Grants(l, before, Reserve(now)) && before.day <= UtcMidnight(now) && now <= later && 0 < l.budget
    ensures var s := After(l, before, Reserve(now));
            && now < s.day + Hours(24)
            && (Grants(l, s, Reserve(later)) <==> s.day + Hours(24) <= later)
  {}
}
