/** One poll through the matcher (Match in internal/match/matcher.go). */
module Match {
  import opened Instants
  import opened Options
  import opened Zones
  import ServiceTime
  import opened Observations
  import opened Timetable
  import opened Dating
  import opened LastWins
  import opened Matcher

  /** How many updates of a poll had each outcome. */
  datatype Counts = Counts(
    fullMatch: nat,
    bySequence: nat,
    tripOnly: nat,
    unknownTrip: nat,
    added: nat,
    noSchedule: nat,
    ambiguousStop: nat,
    cancelledStops: nat,
    tripLevelSkipped: nat,
    noStopId: nat,
    badStartDate: nat,
    delayDisagreements: nat)

  const NOTHING := Counts(0, 0, 0, 0, 0, 0, 0, 0, 0, 0, 0, 0)

  function StopsCancelled(verdicts: seq<Verdict>): nat {
    if verdicts == [] then 0
    else StopsCancelled(verdicts[..|verdicts| - 1]) + match verdicts[|verdicts| - 1] case Cancelled(n) => n case _ => 0
  }

  /** The counters say how many updates had each outcome. */
  ghost predicate Tallies(c: Counts, verdicts: seq<Verdict>) {
    var of := multiset(verdicts);
    && c.badStartDate == of[BadStartDate]
    && c.tripLevelSkipped == of[TripLevelSkipped]
    && c.noStopId == of[NoStopId]
    && c.noSchedule == of[NoSchedule]
    && c.added == of[Added]
    && c.unknownTrip == of[UnknownTrip]
    && c.ambiguousStop == of[TripOnly(true)]
    && c.tripOnly == of[TripOnly(true)] + of[TripOnly(false)]
    && c.bySequence == of[FullMatch(true, true)] + of[FullMatch(true, false)]
    && c.delayDisagreements == of[FullMatch(true, true)] + of[FullMatch(false, true)]
    && c.fullMatch == c.bySequence + of[FullMatch(false, true)] + of[FullMatch(false, false)]
    && c.cancelledStops == StopsCancelled(verdicts)
  }

  /** The counters after one more outcome. */
  function Counted(c: Counts, v: Verdict): Counts {
    match v
    case BadStartDate => c.(badStartDate := c.badStartDate + 1)
    case TripLevelSkipped => c.(tripLevelSkipped := c.tripLevelSkipped + 1)
    case NoStopId => c.(noStopId := c.noStopId + 1)
    case NoSchedule => c.(noSchedule := c.noSchedule + 1)
    case Added => c.(added := c.added + 1)
    case UnknownTrip => c.(unknownTrip := c.unknownTrip + 1)
    case Cancelled(n) => c.(cancelledStops := c.cancelledStops + n)
    case TripOnly(ambiguous) =>
      c.(tripOnly := c.tripOnly + 1, ambiguousStop := c.ambiguousStop + if ambiguous then 1 else 0)
    case FullMatch(bySequence, disagrees) =>
      c.(fullMatch := c.fullMatch + 1,
         bySequence := c.bySequence + (if bySequence then 1 else 0),
         delayDisagreements := c.delayDisagreements + if disagrees then 1 else 0)
  }

  function Tally(verdicts: seq<Verdict>): Counts {
    if verdicts == [] then NOTHING else Counted(Tally(verdicts[..|verdicts| - 1]), verdicts[|verdicts| - 1])
  }

  lemma {:induction false} TalliesNext(c: Counts, verdicts: seq<Verdict>, v: Verdict)
    requires Tallies(c, verdicts)
    ensures Tallies(Counted(c, v), verdicts + [v])
  {
    assert (verdicts + [v])[..|verdicts|] == verdicts;
    assert multiset(verdicts + [v]) == multiset(verdicts) + multiset{v};
  }

  /** The counters say how many updates had each outcome. */
  lemma {:induction false} TallyCounts(verdicts: seq<Verdict>)
    ensures Tallies(Tally(verdicts), verdicts)
  {
    if verdicts != [] {
      var init, v := verdicts[..|verdicts| - 1], verdicts[|verdicts| - 1];
      TallyCounts(init);
      TalliesNext(Tally(init), init, v);
      assert verdicts == init + [v];
    }
  }

  function Cancellations(verdicts: seq<Verdict>): nat {
    if verdicts == [] then 0
    else Cancellations(verdicts[..|verdicts| - 1]) + if verdicts[|verdicts| - 1].Cancelled? then 1 else 0
  }

  /** Every update has exactly one of the outcomes counted, or is a cancellation. */
  lemma {:induction false} OneOutcomeEach(verdicts: seq<Verdict>)
    ensures var c := Tally(verdicts);
            |verdicts| == c.badStartDate + c.tripLevelSkipped + c.noStopId + c.noSchedule + c.added + c.unknownTrip
                          + c.tripOnly + c.fullMatch + Cancellations(verdicts)
  {
    if verdicts != [] {
      OneOutcomeEach(verdicts[..|verdicts| - 1]);
    }
  }

  /** How many observations came of the outcomes counted. */
  function Yields(c: Counts): nat {
    c.noSchedule + c.added + c.unknownTrip + c.tripOnly + c.fullMatch + c.cancelledStops
  }

  /** Turns a poll's updates into observations, one for each key, and counts what happened. */
  class Poll {
    var out: seq<Observation>
    var at: map<Key, nat>
    var counts: Counts
    var duplicates: nat
    var unknownStop: nat
    ghost var produced: seq<Observation>

    ghost predicate Valid()
      reads this
    {
      && LastOfEach(Keys(produced), produced, out) && Indexes(Keys(produced), at)
      && |out| + duplicates == |produced|
    }

    /** The poll is as the updates so far leave it. */
    ghost predicate HasTaken(m: Settings, sched: Option<Schedule>, updates: seq<Update>)
      reads this
    {
      && Valid() && produced == AllProduced(m, sched, updates)
      && counts == Tally(AllJudged(m, sched, updates)) && unknownStop == UnknownStops(sched, updates)
    }

    constructor ()
      ensures Valid() && out == produced == [] && counts == NOTHING && unknownStop == 0
    {
      out, at, counts, duplicates, unknownStop, produced := [], map[], NOTHING, 0, 0, [];
    }

    /** Adds an observation, in place of an earlier one of its key if there is one. */
    method Add(o: Observation)
      requires Valid()
      modifies this`out, this`at, this`duplicates, this`produced
      ensures Valid() && produced == old(produced) + [o]
    {
      var k := o.Key();
      KeysThen(produced, o);
      if k in at {
        KeepsAgain(Keys(produced), produced, at, out, k, o);
        out := out[at[k] := o];
        duplicates := duplicates + 1;
      } else {
        KeepsNew(Keys(produced), produced, at, out, k, o);
        at := at[k := |out|];
        out := out + [o];
      }
      produced := produced + [o];
    }

    /** An update of a trip the timetable does not have. */
    method TakeUnscheduled(m: Settings, sched: Option<Schedule>, u: Update, cands: seq<Date>)
      requires Valid() && !OnTimetable(sched, u) && !u.startDate.Unreadable? && cands == DatesOf(m, u)
      modifies this
      ensures Valid() && unknownStop == old(unknownStop)
      ensures produced == old(produced) + Produced(m, sched, u) && counts == Counted(old(counts), Judged(m, sched, u))
    {
      if u.tripLevel {
        counts := counts.(tripLevelSkipped := counts.tripLevelSkipped + 1);
        return;
      }
      if u.stopId == "" {
        counts := counts.(noStopId := counts.noStopId + 1);
        return;
      }
      if sched.None? {
        counts := counts.(noSchedule := counts.noSchedule + 1);
      } else if u.tripRel == TRIP_ADDED {
        counts := counts.(added := counts.added + 1);
      } else {
        counts := counts.(unknownTrip := counts.unknownTrip + 1);
      }
      Add(Base(u, cands[0]));
    }

    /** A cancellation: one observation for every call of the trip. */
    method TakeCancelled(m: Settings, s: Schedule, t: Trip, u: Update, cands: seq<Date>)
      requires Valid() && cands == DatesOf(m, u)
      modifies this
      ensures Valid() && unknownStop == old(unknownStop)
      ensures produced == old(produced) + CancelledVisits(m.loc, t, u, DateOf(m, s, t, u, u.headerTs, NO_TIME))
      ensures counts == Counted(old(counts), Cancelled(|t.stops|))
    {
      var d := PickDate(m, s, t, cands, u.headerTs, NO_TIME);
      AddCancelled(m.loc, t, u, d);
    }

    method AddCancelled(loc: Zone, t: Trip, u: Update, d: Date)
      requires Valid()
      modifies this
      ensures Valid() && unknownStop == old(unknownStop)
      ensures produced == old(produced) + CancelledVisits(loc, t, u, d)
      ensures counts == Counted(old(counts), Cancelled(|t.stops|))
    {
      ghost var visits := CancelledVisits(loc, t, u, d);
      for i := 0 to |t.stops|
        invariant Valid() && unknownStop == old(unknownStop)
        invariant produced == old(produced) + visits[..i]
        invariant counts == Counted(old(counts), Cancelled(i))
      {
        var o := CancelledVisit(loc, t, u, d, t.stops[i]);
        assert o == visits[i];
        SliceThen(visits, i);
        Add(o);
        counts := counts.(cancelledStops := counts.cancelledStops + 1);
      }
      assert visits[..|t.stops|] == visits;
    }

    /** An update of a scheduled trip that is not about one of its calls. */
    method TakeUnresolved(m: Settings, s: Schedule, t: Trip, u: Update, cands: seq<Date>, ambiguous: bool)
      requires Valid() && cands == DatesOf(m, u)
      modifies this
      ensures Valid() && unknownStop == old(unknownStop)
      ensures produced == old(produced) + if u.stopId == "" then [] else [TripVisit(m, s, t, u)]
      ensures counts == Counted(old(counts), if u.stopId == "" then NoStopId else TripOnly(ambiguous))
    {
      if u.stopId == "" {
        counts := counts.(noStopId := counts.noStopId + 1);
        return;
      }
      counts := counts.(tripOnly := counts.tripOnly + 1);
      if ambiguous {
        counts := counts.(ambiguousStop := counts.ambiguousStop + 1);
      }
      var d := PickDate(m, s, t, cands, Reference(u), NO_TIME);
      Add(Matched(Base(u, d), t));
    }

    /** An update about one call of a scheduled trip. */
    method TakeVisit(m: Settings, s: Schedule, t: Trip, u: Update, cands: seq<Date>, i: nat)
      requires Valid() && cands == DatesOf(m, u) && i < |t.stops|
      modifies this
      ensures Valid() && unknownStop == old(unknownStop)
      ensures produced == old(produced) + [CallVisit(m, s, t, u, i)]
      ensures counts == Counted(old(counts), FullMatch(HasSequence(t, i, u.stopSequence), VisitDisagrees(m, s, t, u, t.stops[i])))
    {
      var st := t.stops[i];
      var d := PickDate(m, s, t, cands, Reference(u), st.Scheduled());
      var disagrees := Disagrees(m, u, d, st);
      assert disagrees == VisitDisagrees(m, s, t, u, st);
      CountMatch(u.stopSequence.Some? && Uint32(st.order) == u.stopSequence.value, disagrees);
      Add(Visit(m, t, u, d, st));
    }

    method CountMatch(bySequence: bool, disagrees: bool)
      modifies this`counts
      ensures counts == Counted(old(counts), FullMatch(bySequence, disagrees))
    {
      counts := counts.(fullMatch := counts.fullMatch + 1);
      if bySequence {
        counts := counts.(bySequence := counts.bySequence + 1);
      }
      if disagrees {
        counts := counts.(delayDisagreements := counts.delayDisagreements + 1);
      }
    }

    /** Resolves one update. */
    method Take(m: Settings, sched: Option<Schedule>, u: Update)
      requires Valid()
      modifies this
      ensures Valid() && unknownStop == old(unknownStop) + if StopIsUnknown(sched, u) then 1 else 0
      ensures produced == old(produced) + Produced(m, sched, u) && counts == Counted(old(counts), Judged(m, sched, u))
    {
      if sched.Some? && u.stopId != "" && sched.value.stops != {} && u.stopId !in sched.value.stops {
        unknownStop := unknownStop + 1;
      }
      if u.startDate.Unreadable? {
        counts := counts.(badStartDate := counts.badStartDate + 1);
        return;
      }
      var cands := [];
      if u.startDate.Given? {
        cands := [u.startDate.d];
      } else {
        cands := ServiceTime.CandidateServiceDates(m.loc, u.headerTs, m.overlap);
      }
      if sched.None? || u.tripId !in sched.value.trips {
        TakeUnscheduled(m, sched, u, cands);
        return;
      }
      TakeScheduled(m, sched.value, sched.value.trips[u.tripId], u, cands);
    }

    method TakeNext(m: Settings, sched: Option<Schedule>, updates: seq<Update>, n: nat)
      requires n < |updates| && HasTaken(m, sched, updates[..n])
      modifies this
      ensures HasTaken(m, sched, updates[..n + 1])
    {
      PrefixThen(m, sched, updates, n);
      Take(m, sched, updates[n]);
    }

    method TakeScheduled(m: Settings, s: Schedule, t: Trip, u: Update, cands: seq<Date>)
      requires Valid() && cands == DatesOf(m, u)
      modifies this
      ensures Valid() && unknownStop == old(unknownStop)
      ensures produced == old(produced) + ProducedOn(m, s, t, u) && counts == Counted(old(counts), JudgedOn(m, s, t, u))
    {
      if u.tripLevel {
        if u.tripRel != TRIP_CANCELED {
          counts := counts.(tripLevelSkipped := counts.tripLevelSkipped + 1);
          return;
        }
        TakeCancelled(m, s, t, u, cands);
        return;
      }
      var call, ambiguous := ResolveStop(t, u.stopSequence, u.stopId);
      if call.None? {
        TakeUnresolved(m, s, t, u, cands, ambiguous);
      } else {
        TakeVisit(m, s, t, u, cands, call.value);
      }
    }
  }

  /** The timetable's stops are known, and the update's is not among them. */
  predicate StopIsUnknown(sched: Option<Schedule>, u: Update) {
    sched.Some? && sched.value.stops != {} && u.stopId !in sched.value.stops + {""}
  }

  function UnknownStops(sched: Option<Schedule>, updates: seq<Update>): nat {
    if updates == [] then 0
    else UnknownStops(sched, updates[..|updates| - 1]) + if StopIsUnknown(sched, updates[|updates| - 1]) then 1 else 0
  }

  ghost function AllJudged(m: Settings, sched: Option<Schedule>, updates: seq<Update>): (verdicts: seq<Verdict>)
    ensures |verdicts| == |updates|
  {
    if updates == [] then []
    else AllJudged(m, sched, updates[..|updates| - 1]) + [Judged(m, sched, updates[|updates| - 1])]
  }

  ghost function AllProduced(m: Settings, sched: Option<Schedule>, updates: seq<Update>): seq<Observation> {
    if updates == [] then []
    else AllProduced(m, sched, updates[..|updates| - 1]) + Produced(m, sched, updates[|updates| - 1])
  }

  /** As many observations come of the updates as their outcomes say. */
  lemma {:induction false} ProducedAddUp(m: Settings, sched: Option<Schedule>, updates: seq<Update>)
    ensures |AllProduced(m, sched, updates)| == Yields(Tally(AllJudged(m, sched, updates)))
  {
    if updates != [] {
      var init, u := updates[..|updates| - 1], updates[|updates| - 1];
      ProducedAddUp(m, sched, init);
      var verdicts := AllJudged(m, sched, init);
      assert (verdicts + [Judged(m, sched, u)])[..|verdicts|] == verdicts;
      OneYields(m, sched, u, Tally(verdicts));
    }
  }

  lemma {:induction false} OneYields(m: Settings, sched: Option<Schedule>, u: Update, c: Counts)
    ensures Yields(Counted(c, Judged(m, sched, u))) == Yields(c) + |Produced(m, sched, u)|
  {}

  /** Resolves one poll's updates. The rows have distinct keys, each row being the last produced
      for its key; and every observation produced is a row or is counted as a duplicate. */
  method Match(m: Settings, sched: Option<Schedule>, updates: seq<Update>)
    returns (rows: seq<Observation>, counts: Counts, duplicates: nat, unknownStop: nat)
    ensures LastOfEach(Keys(AllProduced(m, sched, updates)), AllProduced(m, sched, updates), rows)
    ensures counts == Tally(AllJudged(m, sched, updates)) && unknownStop == UnknownStops(sched, updates)
    ensures |rows| + duplicates == Yields(counts)
  {
    var poll := new Poll();
    for n := 0 to |updates|
      invariant fresh(poll) && poll.HasTaken(m, sched, updates[..n])
    {
      poll.TakeNext(m, sched, updates, n);
    }
    assert updates[..|updates|] == updates;
    ProducedAddUp(m, sched, updates);
    return poll.out, poll.counts, poll.duplicates, poll.unknownStop;
  }

  lemma {:induction false} PrefixThen(m: Settings, sched: Option<Schedule>, updates: seq<Update>, n: nat)
    requires n < |updates|
    ensures AllProduced(m, sched, updates[..n + 1]) == AllProduced(m, sched, updates[..n]) + Produced(m, sched, updates[n])
    ensures Tally(AllJudged(m, sched, updates[..n + 1])) == Counted(Tally(AllJudged(m, sched, updates[..n])), Judged(m, sched, updates[n]))
    ensures UnknownStops(sched, updates[..n + 1]) == UnknownStops(sched, updates[..n]) + if StopIsUnknown(sched, updates[n]) then 1 else 0
  {
    assert updates[..n + 1][..n] == updates[..n];
    var verdicts := AllJudged(m, sched, updates[..n]);
    assert (verdicts + [Judged(m, sched, updates[n])])[..n] == verdicts;
  }

  /** Each key has one row: the last observation produced for it, at the place of its first. */
  lemma {:induction false} OneRowPerKey(produced: seq<Observation>, rows: seq<Observation>)
    requires LastOfEach(Keys(produced), produced, rows)
    ensures forall k | k in Keys(produced) :: produced[LastIndex(Keys(produced), k)] in rows
    ensures forall i, j | 0 <= i < j < |rows| ::
              && rows[i].Key() in Keys(produced) && rows[j].Key() in Keys(produced)
              && FirstIndex(Keys(produced), rows[i].Key()) < FirstIndex(Keys(produced), rows[j].Key())
  {
    var keys := Keys(produced);
    FirstsAre(keys);
    assert forall i | 0 <= i < |rows| :: rows[i].Key() == Firsts(keys)[i];
    forall k | k in keys
      ensures produced[LastIndex(keys, k)] in rows
    {
      LastOfEachHolds(keys, produced, rows, k);
    }
  }

  lemma {:induction false} SliceThen<T>(s: seq<T>, i: nat)
    requires i < |s|
    ensures s[..i + 1] == s[..i] + [s[i]]
  {}

  lemma {:induction false} KeysThen(rows: seq<Observation>, o: Observation)
    ensures Keys(rows + [o]) == Keys(rows) + [o.Key()]
  {}

  function Keys(rows: seq<Observation>): (keys: seq<Key>)
    ensures |keys| == |rows|
  {
    seq(|rows|, i requires 0 <= i < |rows| => rows[i].Key())
  }
}
