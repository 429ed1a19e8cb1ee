/** How a failed write silences a visit, and what ends the silence. */
module Silence {
  import opened Observations
  import opened Filter
  import opened Pipeline
  import opened Remembered
  import opened Survivors

  /** The event makes the filter forget what it remembers of the visit, or remember another value:
      an expiry or an eviction of the visit, a changed value, or a drop. */
  predicate EndsMemory(cfg: Config, s: State, e: Event, k: Key) {
    && Enabled(cfg, s, e)
    && match e
       case Expire(gone) => k in gone
       case Offer(o, gone) => !Suppresses(cfg, s, o) && (o.Key() == k || k in gone)
       case Forget(feed) => s.inFlight[feed].o.Key() == k
       case _ => false
  }

  lemma {:induction false} MemoryEndsExactly(cfg: Config, s: State, e: Event, k: Key)
    requires 0 <= cfg.minDelta && k in s.remembered
    ensures var t := After(cfg, s, e);
            EndsMemory(cfg, s, e, k) <==> k !in t.remembered || t.remembered[k] != s.remembered[k]
  {}

  /** Once memory of the visit ends, the value that was remembered passes again. */
  lemma {:induction false} ForgottenPasses(cfg: Config, s: State, e: Event, o: Observation)
    requires 0 <= cfg.minDelta && o.Key() in s.remembered && s.remembered[o.Key()] == ValueOf(o)
    ensures EndsMemory(cfg, s, e, o.Key()) <==> !Suppresses(cfg, After(cfg, s, e), o)
  {}

  /** No event of more, coming after run, ends memory of the visit. */
  predicate Undisturbed(cfg: Config, run: seq<Event>, more: seq<Event>, k: Key) {
    more == [] ||
    var n := |more| - 1;
    Undisturbed(cfg, run, more[..n], k) && !EndsMemory(cfg, Run(cfg, run + more[..n]), more[n], k)
  }

  /** The tables hold the same rows of the visit. */
  ghost predicate SameRows(rows: set<Observation>, others: set<Observation>, k: Key) {
    RowsOf(rows, k) == RowsOf(others, k)
  }

  lemma {:induction false} StepIsSilent(cfg: Config, s: State, e: Event, k: Key)
    requires OnePollerPerFeed(s) && Unwritten(s, k) == [] && !EndsMemory(cfg, s, e, k)
    ensures Unwritten(After(cfg, s, e), k) == [] && SameRows(After(cfg, s, e).store, s.store, k)
  {
    StepMoves(cfg, s, e, k);
    StoreGains(cfg, s, e, k);
  }

  lemma {:induction false} SilenceLasts(cfg: Config, run: seq<Event>, more: seq<Event>, k: Key)
    requires 0 <= cfg.minDelta && k in Run(cfg, run).remembered && Unwritten(Run(cfg, run), k) == []
    requires Undisturbed(cfg, run, more, k)
    ensures var s, t := Run(cfg, run), Run(cfg, run + more);
            k in t.remembered && t.remembered[k] == s.remembered[k] && Unwritten(t, k) == [] && SameRows(t.store, s.store, k)
  {
    if more == [] {
      assert run + more == run;
    } else {
      var n := |more| - 1;
      var before := run + more[..n];
      SilenceLasts(cfg, run, more[..n], k);
      AlwaysRemembersQueued(cfg, before, k);
      assert (run + more)[..|run + more| - 1] == before;
      MemoryEndsExactly(cfg, Run(cfg, before), more[n], k);
      StepIsSilent(cfg, Run(cfg, before), more[n], k);
    }
  }

  const FAILURE := Flush(Failed(false))

  /** A batch that fails silences its visits: the filter remembers values that were never stored, so
      the feed's repeating itself does not help. Until the visit is expired or evicted from the
      filter, changes or is dropped, what repeats its lost value is suppressed and no row of the
      visit is stored. */
  lemma {:induction false} FailedWriteSilences(cfg: Config, run: seq<Event>, more: seq<Event>, k: Key)
    requires 0 <= cfg.minDelta && Enabled(cfg, Run(cfg, run), FAILURE)
    requires k in Run(cfg, run).remembered && Unwritten(Run(cfg, run), k) == Of(Run(cfg, run).batch, k)
    requires Undisturbed(cfg, run + [FAILURE], more, k)
    ensures var s, t := Run(cfg, run), Run(cfg, run + [FAILURE] + more);
            && SameRows(t.store, s.store, k)
            && forall o: Observation | o.Key() == k && !Changed(s.remembered[k], ValueOf(o), cfg.minDelta) :: Suppresses(cfg, t, o)
  {
    RunOn(cfg, run, FAILURE);
    FlushMoves(Run(cfg, run), FAILURE.outcome, k);
    SilenceLasts(cfg, run + [FAILURE], more, k);
  }

  // A visit that is never stored.

  /** The visit's first observation is in the writer's batch when writing it fails. */
  function Losing(o: Observation): seq<Event> { [Start, Offer(o, {}), Send(o.feedId), Receive] }

  function Repeating(said: seq<Observation>): (events: seq<Event>)
    ensures |events| == |said| && forall i | 0 <= i < |said| :: events[i] == Offer(said[i], {})
  {
    seq(|said|, i requires 0 <= i < |said| => Offer(said[i], {}))
  }

  /** However often the feed goes on repeating it, nothing of the visit is ever stored. */
  lemma {:induction false} RepeatedAndNeverStored(cfg: Config, o: Observation, said: seq<Observation>)
    requires 0 <= cfg.minDelta && 1 <= cfg.queueSize && 1 <= cfg.batchSize
    requires forall p | p in said :: p.Key() == o.Key() && ValueOf(p) == ValueOf(o)
    ensures RowsOf(Run(cfg, Losing(o) + [FAILURE] + Repeating(said)).store, o.Key()) == {}
  {
    LosingIs(cfg, o);
    RepeatingIsUndisturbed(cfg, o, said);
    FailedWriteSilences(cfg, Losing(o), Repeating(said), o.Key());
  }

  lemma {:induction false} LosingIs(cfg: Config, o: Observation)
    requires 1 <= cfg.queueSize && 1 <= cfg.batchSize
    ensures var s := Run(cfg, Losing(o));
            && Enabled(cfg, s, FAILURE) && s.store == {} && s.batch == [o] && s.queue == [] && s.inFlight == map[]
            && s.remembered == map[o.Key() := ValueOf(o)]
  {
    var start, asked := [Start], [Start, Offer(o, {})];
    var sent := asked + [Send(o.feedId)];
    assert [] + [Start] == start && start + [Offer(o, {})] == asked && sent + [Receive] == Losing(o);
    RunOn(cfg, [], Start);
    RunOn(cfg, start, Offer(o, {}));
    RunOn(cfg, asked, Send(o.feedId));
    RunOn(cfg, sent, Receive);
    TakenIs(cfg, o);
  }

  lemma {:induction false} TakenIs(cfg: Config, o: Observation)
    requires 1 <= cfg.queueSize && 1 <= cfg.batchSize
    ensures var s := After(cfg, After(cfg, After(cfg, After(cfg, EMPTY, Start), Offer(o, {})), Send(o.feedId)), Receive);
            && Enabled(cfg, s, FAILURE) && s.store == {} && s.batch == [o] && s.queue == [] && s.inFlight == map[]
            && s.remembered == map[o.Key() := ValueOf(o)]
  {
    var asked := After(cfg, After(cfg, EMPTY, Start), Offer(o, {}));
    assert asked.inFlight == map[o.feedId := Sending(o)];
    var sent := After(cfg, asked, Send(o.feedId));
    assert sent.inFlight == map[] && sent.queue == [o];
  }

  lemma {:induction false} RepeatingIsUndisturbed(cfg: Config, o: Observation, said: seq<Observation>)
    requires 0 <= cfg.minDelta && 1 <= cfg.queueSize && 1 <= cfg.batchSize
    requires forall p | p in said :: p.Key() == o.Key() && ValueOf(p) == ValueOf(o)
    ensures Undisturbed(cfg, Losing(o) + [FAILURE], Repeating(said), o.Key())
  {
    if said != [] {
      var n := |said| - 1;
      var failed := Losing(o) + [FAILURE];
      RepeatingIsUndisturbed(cfg, o, said[..n]);
      assert Repeating(said)[..n] == Repeating(said[..n]);
      LosingIs(cfg, o);
      RunOn(cfg, Losing(o), FAILURE);
      FlushMoves(Run(cfg, Losing(o)), FAILURE.outcome, o.Key());
      SilenceLasts(cfg, failed, Repeating(said[..n]), o.Key());
      assert said[n] in said;
    }
  }
}
