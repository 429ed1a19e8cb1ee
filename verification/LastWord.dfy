/** Which of a visit's observations is its last word in the table, and when that says what the feed
    said last. */
module LastWord {
  import opened Observations
  import opened Filter
  import opened Pipeline
  import opened Survivors

  /** The last admitted observation of the visit was lost: none follows it on the way. */
  predicate Lost(cfg: Config, run: seq<Event>, k: Key) {
    if run == [] then false
    else
      var before, e := run[..|run| - 1], run[|run| - 1];
      var s := Run(cfg, before);
      if Admits(cfg, s, e, k) then false
      else (Loses(cfg, s, e, k) && (e.Flush? ==> Of(s.queue, k) + AboutToSend(s, k) == [])) || Lost(cfg, before, k)
  }

  /** The last let through stands for the last one offered. */
  ghost predicate Represents(cfg: Config, s: State, k: Key) {
    var h := s.history;
    && (k in h.offered <==> k in h.passed)
    && (k in h.offered ==> h.offered[k].Key() == k)
    && (k in s.remembered ==> k in h.passed && s.remembered[k] == ValueOf(h.passed[k]))
    && (k in h.passed ==> h.passed[k].Key() == k && !Changed(ValueOf(h.passed[k]), ValueOf(h.offered[k]), cfg.minDelta))
  }

  lemma {:induction false} StepRepresents(cfg: Config, s: State, e: Event, k: Key)
    requires 0 <= cfg.minDelta && Enabled(cfg, s, e) && Represents(cfg, s, k)
    ensures Represents(cfg, Effect(cfg, s, e), k)
  {}

  lemma {:induction false} AlwaysRepresents(cfg: Config, run: seq<Event>, k: Key)
    requires 0 <= cfg.minDelta
    ensures Represents(cfg, Run(cfg, run), k)
  {
    if run != [] {
      var before, e := run[..|run| - 1], run[|run| - 1];
      AlwaysRepresents(cfg, before, k);
      if Enabled(cfg, Run(cfg, before), e) {
        StepRepresents(cfg, Run(cfg, before), e, k);
      }
    }
  }

  /** Unless it was itself lost, the last let through is the last to survive. */
  lemma {:induction false} LastPassedSurvives(cfg: Config, run: seq<Event>, k: Key)
    requires k in Run(cfg, run).history.passed && !Lost(cfg, run, k)
    ensures Surviving(cfg, run, k) != []
    ensures Surviving(cfg, run, k)[|Surviving(cfg, run, k)| - 1] == Run(cfg, run).history.passed[k]
  {
    var before, e := run[..|run| - 1], run[|run| - 1];
    var s := Run(cfg, before);
    PassedIs(cfg, s, e, k);
    if !Admits(cfg, s, e, k) {
      LastPassedSurvives(cfg, before, k);
    }
    if Loses(cfg, s, e, k) {
      LossSurvives(cfg, run, k);
    } else {
      StepSurvives(cfg, run, k);
    }
  }

  lemma {:induction false} PassedIs(cfg: Config, s: State, e: Event, k: Key)
    ensures var t := After(cfg, s, e);
            if Admits(cfg, s, e, k) then k in t.history.passed && t.history.passed[k] == e.o
            else (k in t.history.passed <==> k in s.history.passed) &&
                 (k in s.history.passed ==> t.history.passed[k] == s.history.passed[k])
  {}

  ghost predicate NothingPending(s: State, k: Key) {
    Unwritten(s, k) == []
  }

  /** Once nothing of a visit is on its way, its last word is the newest of what survived of it, in
      whatever order it came and whatever was lost: of two with one timestamp, the earlier. */
  lemma {:induction false} LastWordIsNewest(cfg: Config, run: seq<Event>, k: Key)
    requires NothingPending(Run(cfg, run), k)
    ensures forall o: Observation :: o.Key() == k && IsLastWord(Run(cfg, run).store, o) <==>
              Surviving(cfg, run, k) != [] && o == Narrowed(Newest(Surviving(cfg, run, k)))
  {
    var store, said := Run(cfg, run).store, WrittenOf(cfg, run, k);
    assert Surviving(cfg, run, k) == said;
    WrittenIsOf(cfg, run, k);
    StoreIsWritten(cfg, run, k);
    NewestIsLastWord(said, k);
    LastWordOf(store, k);
  }

  lemma {:induction false} LastWordOf(rows: set<Observation>, k: Key)
    ensures forall o: Observation :: o.Key() == k && IsLastWord(rows, o) <==> IsLastWord(RowsOf(rows, k), o)
  {
    forall o: Observation ensures o.Key() == k && IsLastWord(rows, o) <==> IsLastWord(RowsOf(rows, k), o) {
      if IsLastWord(RowsOf(rows, k), o) {
        forall p | p in rows && p.Key() == k ensures p.feedTs <= o.feedTs {
          assert p in RowsOf(rows, k);
        }
      }
    }
  }

  lemma {:induction false} SurvivingAreOf(cfg: Config, run: seq<Event>, k: Key)
    requires NothingPending(Run(cfg, run), k)
    ensures forall o | o in Surviving(cfg, run, k) :: o.Key() == k
  {
    WrittenIsOf(cfg, run, k);
    assert Surviving(cfg, run, k) == WrittenOf(cfg, run, k);
  }

  lemma {:induction false} WrittenIsOf(cfg: Config, run: seq<Event>, k: Key)
    ensures forall o | o in WrittenOf(cfg, run, k) :: o.Key() == k
  {
    if run != [] {
      WrittenIsOf(cfg, run[..|run| - 1], k);
      OfAre(Run(cfg, run[..|run| - 1]).batch, k);
    }
  }

  /** Two observations that give the same answer to every query, but for a delay off by at most
      the filter's threshold. */
  predicate SaySame(o: Observation, p: Observation, minDelta: int) {
    && o.stopTimeRel == p.stopTimeRel && o.tripRel == p.tripRel && o.matched == p.matched
    && o.observedDelayS.Some? == p.observedDelayS.Some?
    && (o.observedDelayS.Some? ==> -minDelta <= o.observedDelayS.value - p.observedDelayS.value <= minDelta)
  }

  /** The last word on its visit says what an observation said, as the table's columns hold it. */
  ghost predicate Says(rows: set<Observation>, said: Observation, minDelta: int) {
    && (exists o: Observation :: o.Key() == said.Key() && IsLastWord(rows, o))
    && (forall o: Observation | o.Key() == said.Key() && IsLastWord(rows, o) :: SaySame(o, Narrowed(said), minDelta))
  }

  /** Two observations of a visit in time order, where one poll says one thing. */
  predicate Precedes(o: Observation, p: Observation) {
    o.feedTs <= p.feedTs && (o.feedTs == p.feedTs ==> ValueOf(o) == ValueOf(p))
  }

  /** The last of these was said last: the feed did not go back in time before it. */
  predicate LastIsLatest(said: seq<Observation>) {
    forall o | o in said :: Precedes(o, said[|said| - 1])
  }

  /** If, of what survived of a visit, the last let through is also the latest, then once nothing of
      the visit is on its way its last word says what the feed last said, whatever was evicted,
      expired, suppressed, dropped or failed, unless the last let through was itself lost. The delays
      do not drift: one threshold bounds the difference however many observations were suppressed. */
  lemma {:induction false} LastWordIsKept(cfg: Config, run: seq<Event>, k: Key)
    requires 0 <= cfg.minDelta && k in Run(cfg, run).history.offered && !Lost(cfg, run, k)
    requires NothingPending(Run(cfg, run), k) && LastIsLatest(Surviving(cfg, run, k))
    ensures Run(cfg, run).history.offered[k].Key() == k
    ensures Says(Run(cfg, run).store, Run(cfg, run).history.offered[k], cfg.minDelta)
    ensures var offered := Run(cfg, run).history.offered[k]; Fits(offered) ==> Narrowed(offered) == offered
  {
    AlwaysRepresents(cfg, run, k);
    LastPassedSurvives(cfg, run, k);
    LastWordIsNewest(cfg, run, k);
    SurvivingAreOf(cfg, run, k);
    KeptIn(cfg, Run(cfg, run), Surviving(cfg, run, k), k);
  }

  lemma {:induction false} KeptIn(cfg: Config, s: State, said: seq<Observation>, k: Key)
    requires 0 <= cfg.minDelta && k in s.history.offered && Represents(cfg, s, k)
    requires said != [] && said[|said| - 1] == s.history.passed[k] && LastIsLatest(said) && forall o | o in said :: o.Key() == k
    requires forall o: Observation :: o.Key() == k && IsLastWord(s.store, o) <==> o == Narrowed(Newest(said))
    ensures var offered := s.history.offered[k];
            offered.Key() == k && Says(s.store, offered, cfg.minDelta) && (Fits(offered) ==> Narrowed(offered) == offered)
  {
    NewestSaysLast(said, k);
    SameValueSaysSame(Newest(said), said[|said| - 1], s.history.offered[k], cfg.minDelta);
    OneLastWord(s.store, Newest(said), s.history.offered[k], cfg.minDelta);
  }

  lemma {:induction false} NewestSaysLast(said: seq<Observation>, k: Key)
    requires said != [] && LastIsLatest(said) && forall o | o in said :: o.Key() == k
    ensures ValueOf(Newest(said)) == ValueOf(said[|said| - 1]) && Newest(said).Key() == k
  {
    var i := NewestIs(said);
    assert said[i] in said;
  }

  lemma {:induction false} OneLastWord(rows: set<Observation>, newest: Observation, said: Observation, minDelta: int)
    requires forall o: Observation :: o.Key() == said.Key() && IsLastWord(rows, o) <==> o == Narrowed(newest)
    requires SaySame(Narrowed(newest), Narrowed(said), minDelta)
    ensures Says(rows, said, minDelta)
  {
    assert IsLastWord(rows, Narrowed(newest)) && Narrowed(newest).Key() == said.Key();
  }

  lemma {:induction false} SameValueSaysSame(o: Observation, passed: Observation, offered: Observation, minDelta: int)
    requires 0 <= minDelta && ValueOf(o) == ValueOf(passed) && !Changed(ValueOf(passed), ValueOf(offered), minDelta)
    ensures SaySame(Narrowed(o), Narrowed(offered), minDelta)
  {}

  /** Each observation of the visit let through comes in time order after the one let through before. */
  predicate AdmitsInOrder(cfg: Config, run: seq<Event>, k: Key) {
    run == [] ||
    var before, e := run[..|run| - 1], run[|run| - 1];
    var s := Run(cfg, before);
    && AdmitsInOrder(cfg, before, k)
    && (Admits(cfg, s, e, k) && k in s.history.passed ==> Precedes(s.history.passed[k], e.o))
  }

  /** Time order suffices, then. */
  lemma {:induction false} InOrderIsLatest(cfg: Config, run: seq<Event>, k: Key)
    requires AdmitsInOrder(cfg, run, k) && !Lost(cfg, run, k)
    ensures LastIsLatest(Surviving(cfg, run, k))
  {
    PassedIsLatest(cfg, run, k);
    if Surviving(cfg, run, k) != [] {
      assert Surviving(cfg, run, k)[0] in Surviving(cfg, run, k);
      LastPassedSurvives(cfg, run, k);
    }
  }

  lemma {:induction false} PassedIsLatest(cfg: Config, run: seq<Event>, k: Key)
    requires AdmitsInOrder(cfg, run, k)
    ensures var passed := Run(cfg, run).history.passed; forall o | o in Surviving(cfg, run, k) :: k in passed && Precedes(o, passed[k])
  {
    if run != [] {
      var before, e := run[..|run| - 1], run[|run| - 1];
      PassedIsLatest(cfg, before, k);
      PassedIs(cfg, Run(cfg, before), e, k);
      if Loses(cfg, Run(cfg, before), e, k) {
        LossSurvives(cfg, run, k);
      } else {
        StepSurvives(cfg, run, k);
      }
    }
  }

  // Going back in time.

  /** When the last word on a visit is o and nothing of it is on its way, a further observation that
      is let through and stored is what the table then says exactly when it is later than o, or says
      the same. */
  lemma {:induction false} NextWordIsKeptExactly(cfg: Config, run: seq<Event>, n: nat, o: Observation, p: Observation)
    requires 0 <= cfg.minDelta && n <= |run| && o.Key() == p.Key()
    requires NothingPending(Run(cfg, run[..n]), p.Key()) && IsLastWord(Run(cfg, run[..n]).store, o)
    requires NothingPending(Run(cfg, run), p.Key()) && LosesNoneSince(cfg, run, n, p.Key())
    requires AdmittedSince(cfg, run, n, p.Key()) == [p]
    ensures Says(Run(cfg, run).store, p, cfg.minDelta) <==> o.feedTs < p.feedTs || SaySame(o, Narrowed(p), cfg.minDelta)
  {
    var k := p.Key();
    var said := Surviving(cfg, run[..n], k);
    LastWordIsNewest(cfg, run[..n], k);
    LastWordIsNewest(cfg, run, k);
    AdmittedSurvive(cfg, run, n, k);
    NextWordIs(Run(cfg, run).store, said, o, p, cfg.minDelta);
  }

  lemma {:induction false} NextWordIs(rows: set<Observation>, said: seq<Observation>, o: Observation, p: Observation, minDelta: int)
    requires 0 <= minDelta && said != [] && o == Narrowed(Newest(said)) && o.Key() == p.Key()
    requires forall q: Observation :: q.Key() == p.Key() && IsLastWord(rows, q) <==> q == Narrowed(Newest(said + [p]))
    ensures Says(rows, p, minDelta) <==> o.feedTs < p.feedTs || SaySame(o, Narrowed(p), minDelta)
  {
    assert (said + [p])[..|said|] == said;
    var newest := Newest(said + [p]);
    assert newest == if o.feedTs < p.feedTs then p else Newest(said);
    assert IsLastWord(rows, Narrowed(newest));
  }

  /** The visit's last let through is its last word in the table, and nothing more is to come. */
  ghost predicate KeepsLast(s: State, k: Key) {
    NothingPending(s, k) && k in s.history.passed && IsLastWord(s.store, s.history.passed[k])
  }

  /** So, of a visit the filter remembers, whose last let through is its last word in the table, the
      next let through becomes the last word exactly when it is later: it says something else. */
  lemma {:induction false} NextChangeIsKeptExactly(cfg: Config, run: seq<Event>, n: nat, gone: set<Key>, p: Observation)
    requires 0 <= cfg.minDelta && n < |run| && run[n] == Offer(p, gone) && Admits(cfg, Run(cfg, run[..n]), run[n], p.Key())
    requires p.Key() in Run(cfg, run[..n]).remembered
    requires KeepsLast(Run(cfg, run[..n]), p.Key()) && Fits(p) && Fits(Run(cfg, run[..n]).history.passed[p.Key()])
    requires NothingPending(Run(cfg, run), p.Key()) && LosesNoneSince(cfg, run, n, p.Key())
    requires AdmittedSince(cfg, run, n, p.Key()) == [p]
    ensures Says(Run(cfg, run).store, p, cfg.minDelta) <==> Run(cfg, run[..n]).history.passed[p.Key()].feedTs < p.feedTs
  {
    var last := Run(cfg, run[..n]).history.passed[p.Key()];
    AlwaysRepresents(cfg, run[..n], p.Key());
    NextWordIsKeptExactly(cfg, run, n, last, p);
    ChangedSaysOther(last, p, cfg.minDelta);
  }

  lemma {:induction false} ChangedSaysOther(o: Observation, p: Observation, minDelta: int)
    requires Fits(o) && Fits(p)
    ensures SaySame(o, Narrowed(p), minDelta) <==> !Changed(ValueOf(o), ValueOf(p), minDelta)
  {}

  /** An observation goes through to the table before the next comes. */
  function Delivery(o: Observation): seq<Event> {
    [Offer(o, {}), Send(o.feedId), Receive, Flush(Written(false))]
  }

  predicate CanDeliver(cfg: Config, s: State, feed: string) {
    && 1 <= cfg.queueSize && 1 <= cfg.batchSize && Writing(s) && !s.life.stopped
    && feed !in s.inFlight && s.queue == [] && s.batch == []
  }

  lemma {:induction false} DeliveryIs(cfg: Config, run: seq<Event>, o: Observation)
    requires CanDeliver(cfg, Run(cfg, run), o.feedId) && !Suppresses(cfg, Run(cfg, run), o)
    ensures var s, t := Run(cfg, run), Run(cfg, run + Delivery(o));
            && CanDeliver(cfg, t, o.feedId) && t.inFlight == s.inFlight
            && t.counts.dropped == s.counts.dropped && t.counts.failed == s.counts.failed
            && t.remembered == s.remembered[o.Key() := ValueOf(o)]
            && t.store == InsertRow(s.store, Narrowed(o))
  {
    var s := Run(cfg, run);
    RunOn(cfg, run, Offer(o, {}));
    RunOn(cfg, run + [Offer(o, {})], Send(o.feedId));
    RunOn(cfg, run + [Offer(o, {})] + [Send(o.feedId)], Receive);
    RunOn(cfg, run + [Offer(o, {})] + [Send(o.feedId)] + [Receive], Flush(Written(false)));
    assert run + Delivery(o) == run + [Offer(o, {})] + [Send(o.feedId)] + [Receive] + [Flush(Written(false))];
    DeliveredIs(cfg, s, o);
  }

  lemma {:induction false} DeliveredIs(cfg: Config, s: State, o: Observation)
    requires CanDeliver(cfg, s, o.feedId) && !Suppresses(cfg, s, o)
    ensures var t := After(cfg, After(cfg, After(cfg, After(cfg, s, Offer(o, {})), Send(o.feedId)), Receive), Flush(Written(false)));
            && CanDeliver(cfg, t, o.feedId) && t.inFlight == s.inFlight
            && t.counts.dropped == s.counts.dropped && t.counts.failed == s.counts.failed
            && t.remembered == s.remembered[o.Key() := ValueOf(o)]
            && t.store == InsertRow(s.store, Narrowed(o))
  {
    var sent := After(cfg, After(cfg, s, Offer(o, {})), Send(o.feedId));
    assert sent.inFlight == s.inFlight && sent.queue == [o];
    OneIsWritten(cfg, sent, o);
  }

  lemma {:induction false} OneIsWritten(cfg: Config, s: State, o: Observation)
    requires 1 <= cfg.batchSize && Writing(s) && s.queue == [o] && s.batch == []
    ensures var t := After(cfg, After(cfg, s, Receive), Flush(Written(false)));
            && t == s.(queue := [], store := InsertRow(s.store, Narrowed(o)), counts := t.counts)
            && t.counts.dropped == s.counts.dropped && t.counts.failed == s.counts.failed
  {
    var received := After(cfg, s, Receive);
    assert received.batch == [o] && received.store == s.store;
    InsertNext(s.store, [], Narrowed(o));
    assert RowsFor([o]) == [] + [Narrowed(o)];
  }

  /** Two observations of a visit, one after the other. */
  function SteppingBack(o: Observation, p: Observation): seq<Event> { [Start] + Delivery(o) + Delivery(p) }

  /** A change that is not later is let through and written, and does not become the last word; the
      feed's repeating it, however late, is suppressed. Nothing was dropped, lost or is on its way. */
  lemma {:induction false} SteppingBackIsSilenced(cfg: Config, o: Observation, p: Observation)
    requires 0 <= cfg.minDelta && 1 <= cfg.queueSize && 1 <= cfg.batchSize
    requires o.Key() == p.Key() && p.feedTs <= o.feedTs && Changed(ValueOf(o), ValueOf(p), cfg.minDelta)
    ensures var s := Run(cfg, SteppingBack(o, p));
            && s.inFlight == map[] && s.queue == [] && s.batch == [] && s.counts.dropped == s.counts.failed == 0
            && (forall q: Observation | q.Key() == p.Key() :: IsLastWord(s.store, q) <==> q == Narrowed(o))
            && (forall q: Observation | q.Key() == p.Key() && ValueOf(q) == ValueOf(p) :: Suppresses(cfg, s, q))
  {
    RunOn(cfg, [], Start);
    assert [] + [Start] == [Start];
    DeliveryIs(cfg, [Start], o);
    DeliveryIs(cfg, [Start] + Delivery(o), p);
    var first := InsertRow({}, Narrowed(o));
    FirstWord(Narrowed(o));
    NewerWins(first, Narrowed(o), Narrowed(p), p.Key());
  }

  /** So it is when a timetable loads between two polls of one header: the table keeps the row that
      had no match, and what the feed repeats with its match is suppressed. */
  lemma {:induction false} MatchComesTooLate(cfg: Config, o: Observation)
    requires 0 <= cfg.minDelta && 1 <= cfg.queueSize && 1 <= cfg.batchSize && !o.matched
    ensures var s, matched := Run(cfg, SteppingBack(o, o.(matched := true))), o.(matched := true);
            && !Says(s.store, matched, cfg.minDelta)
            && forall ts :: Suppresses(cfg, s, matched.(feedTs := ts))
  {
    var matched := o.(matched := true);
    assert o.Key() == matched.Key();
    SteppingBackIsSilenced(cfg, o, matched);
    forall ts ensures Suppresses(cfg, Run(cfg, SteppingBack(o, matched)), matched.(feedTs := ts)) {
      var q := matched.(feedTs := ts);
      assert q.Key() == matched.Key() && ValueOf(q) == ValueOf(matched);
    }
    assert IsLastWord(Run(cfg, SteppingBack(o, matched)).store, Narrowed(o));
  }
}
