/** The ingest pipeline as a protocol (internal/ingest/pipeline.go, filter.go, writer.go): pollers,
    maintenance, the writer and shutdown, interleaved one atomic step at a time. */
module Pipeline {
  import opened Observations
  import opened Filter

  datatype Config = Config(minDelta: int, queueSize: nat, batchSize: nat)

  /** Where a poller is between the filter's yes and the end of Submit. */
  datatype Progress =
    | Sending(o: Observation)    // about to try the queue
    | Refused(o: Observation)    // the queue was full
    | Forgotten(o: Observation)  // the filter has forgotten the key; not yet counted

  datatype State = State(
    remembered: map<Key, Value>,      // the filter's entries
    inFlight: map<string, Progress>,  // by feed: one poller each, one observation at a time
    queue: seq<Observation>,          // the channel
    batch: seq<Observation>,          // what the writer has received and not written
    store: set<Observation>,          // the observations table
    counts: Counts,
    life: Life,
    history: History)

  datatype Counts = Counts(suppressed: nat, admitted: nat, dropped: nat, written: nat, conflicts: nat, failed: nat)

  datatype Life = Life(
    started: bool,    // Start has launched the writer
    stopped: bool,    // every producer has returned
    closed: bool,     // the channel is closed
    cancelled: bool,  // Close's grace ran out
    exited: bool)     // the writer has returned

  /** What no step reads: by key, the last observation offered, the last the filter let through,
      and the last queued unless one was dropped since. */
  datatype History = History(offered: map<Key, Observation>, passed: map<Key, Observation>, queued: map<Key, Observation>)

  const EMPTY := State(map[], map[], [], [], {}, Counts(0, 0, 0, 0, 0, 0), Life(false, false, false, false, false),
                       History(map[], map[], map[]))

  /** How writing a batch ended, tries that failed and were repeated included: an earlier try, or
      the last, may have stored the rows although it reported an error. */
  datatype Outcome = Written(before: bool) | Failed(stored: bool)

  datatype Event =
    | Offer(o: Observation, gone: set<Key>)  // a poller asks the filter, which may evict
    | Send(feed: string)
    | Refuse(feed: string)
    | Forget(feed: string)
    | CountDrop(feed: string)
    | Expire(gone: set<Key>)                 // maintenance
    | Start
    | Receive
    | Flush(outcome: Outcome)
    | StopProducers
    | Close
    | Cancel
    | Exit

  predicate Enabled(cfg: Config, s: State, e: Event) {
    match e
    case Offer(o, _) => !s.life.stopped && o.feedId !in s.inFlight
    case Send(feed) => feed in s.inFlight && s.inFlight[feed].Sending? && |s.queue| < cfg.queueSize
    case Refuse(feed) => feed in s.inFlight && s.inFlight[feed].Sending? && cfg.queueSize <= |s.queue|
    case Forget(feed) => feed in s.inFlight && s.inFlight[feed].Refused?
    case CountDrop(feed) => feed in s.inFlight && s.inFlight[feed].Forgotten?
    case Expire(_) => true
    case Start => !s.life.started && !s.life.closed
    case Receive => Writing(s) && s.queue != [] && |s.batch| < cfg.batchSize
    case Flush(_) => Writing(s) && s.batch != []
    case StopProducers => s.inFlight == map[]
    case Close => s.life.stopped && !s.life.closed
    case Cancel => s.life.started && s.life.closed
    case Exit => Writing(s) && s.batch == [] && ((s.life.closed && s.queue == []) || s.life.cancelled)
  }

  predicate Writing(s: State) { s.life.started && !s.life.exited }

  predicate Suppresses(cfg: Config, s: State, o: Observation) {
    o.Key() in s.remembered && !Changed(s.remembered[o.Key()], ValueOf(o), cfg.minDelta)
  }

  function Effect(cfg: Config, s: State, e: Event): State
    requires Enabled(cfg, s, e)
  {
    match e
    case Offer(o, gone) => Offered(cfg, s, o, gone)
    case Send(feed) => Sent(s, feed)
    case Refuse(feed) => s.(inFlight := s.inFlight[feed := Refused(s.inFlight[feed].o)])
    case Forget(feed) => ForgottenAt(s, feed)
    case CountDrop(feed) =>
      s.(inFlight := s.inFlight - {feed}, counts := s.counts.(dropped := s.counts.dropped + 1))
    case Expire(gone) => s.(remembered := s.remembered - gone)
    case Start => s.(life := s.life.(started := true))
    case Receive => s.(queue := s.queue[1..], batch := s.batch + [s.queue[0]])
    case Flush(outcome) => Flushed(s, outcome)
    case StopProducers => s.(life := s.life.(stopped := true))
    case Close => s.(life := s.life.(closed := true))
    case Cancel => s.(life := s.life.(cancelled := true))
    case Exit => s.(life := s.life.(exited := true))
  }

  /** The filter decides on an observation, and records it if it passes. */
  function Offered(cfg: Config, s: State, o: Observation, gone: set<Key>): State {
    var h := s.history.(offered := s.history.offered[o.Key() := o]);
    if Suppresses(cfg, s, o) then s.(counts := s.counts.(suppressed := s.counts.suppressed + 1), history := h)
    else
      s.(remembered := (s.remembered - gone)[o.Key() := ValueOf(o)],
         inFlight := s.inFlight[o.feedId := Sending(o)],
         counts := s.counts.(admitted := s.counts.admitted + 1),
         history := h.(passed := h.passed[o.Key() := o]))
  }

  function Sent(s: State, feed: string): State
    requires feed in s.inFlight
  {
    var o := s.inFlight[feed].o;
    s.(inFlight := s.inFlight - {feed}, queue := s.queue + [o],
       history := s.history.(queued := s.history.queued[o.Key() := o]))
  }

  function ForgottenAt(s: State, feed: string): State
    requires feed in s.inFlight
  {
    var o := s.inFlight[feed].o;
    s.(inFlight := s.inFlight[feed := Forgotten(o)],
       remembered := s.remembered - {o.Key()},
       history := s.history.(queued := s.history.queued - {o.Key()}))
  }

  /** A batch is written whole or not at all; a write that failed may have been stored. */
  function StoredAfter(rows: set<Observation>, batch: seq<Observation>, outcome: Outcome): set<Observation> {
    if outcome == Failed(false) then rows else InsertRows(rows, RowsFor(batch))
  }

  /** The rows the last try found missing. */
  function Inserted(rows: set<Observation>, batch: seq<Observation>, outcome: Outcome): (n: nat)
    ensures n <= |batch|
  {
    InsertGrows(rows, RowsFor(batch));
    if outcome == Written(false) then |InsertRows(rows, RowsFor(batch))| - |rows| else 0
  }

  function Flushed(s: State, outcome: Outcome): State {
    var n := Inserted(s.store, s.batch, outcome);
    s.(batch := [], store := StoredAfter(s.store, s.batch, outcome),
       counts := match outcome
                 case Failed(_) => s.counts.(failed := s.counts.failed + |s.batch|)
                 case Written(_) => s.counts.(written := s.counts.written + n,
                                              conflicts := s.counts.conflicts + (|s.batch| - n)))
  }

  /** A batch inserts at most one row for each of its own. */
  lemma {:induction false} InsertGrows(rows: set<Observation>, batch: seq<Observation>)
    ensures |rows| <= |InsertRows(rows, batch)| <= |rows| + |batch|
  {
    if batch != [] {
      InsertGrows(rows, batch[..|batch| - 1]);
    }
  }

  function After(cfg: Config, s: State, e: Event): State {
    if Enabled(cfg, s, e) then Effect(cfg, s, e) else s
  }

  /** The state after a run: any events in any order, those that cannot happen skipped. */
  function Run(cfg: Config, run: seq<Event>): State {
    if run == [] then EMPTY else After(cfg, Run(cfg, run[..|run| - 1]), run[|run| - 1])
  }

  lemma {:induction false} RunOn(cfg: Config, run: seq<Event>, e: Event)
    ensures Run(cfg, run + [e]) == After(cfg, Run(cfg, run), e)
  {
    assert (run + [e])[..|run|] == run;
  }

  // Conservation.

  /** Every observation the filter let through is somewhere. */
  ghost predicate Conserves(s: State) {
    var c := s.counts;
    c.admitted == c.dropped + |s.inFlight| + |s.queue| + |s.batch| + c.written + c.conflicts + c.failed
  }

  /** Nothing is in flight once the producers have returned, nor left behind by a writer that
      exited because the channel was closed and empty. */
  ghost predicate Ordered(s: State) {
    && (s.life.stopped ==> s.inFlight == map[])
    && (s.life.closed ==> s.life.stopped)
    && (s.life.exited ==> s.life.started && s.batch == [])
    && (s.life.exited && !s.life.cancelled ==> s.life.closed && s.queue == [])
  }

  lemma {:induction false} ConservationAlways(cfg: Config, run: seq<Event>)
    ensures Conserves(Run(cfg, run)) && Ordered(Run(cfg, run))
  {
    if run != [] {
      ConservationAlways(cfg, run[..|run| - 1]);
      var s, e := Run(cfg, run[..|run| - 1]), run[|run| - 1];
      if Enabled(cfg, s, e) {
        StepConserves(cfg, s, e);
        StepKeepsOrder(cfg, s, e);
      }
    }
  }

  lemma {:induction false} StepConserves(cfg: Config, s: State, e: Event)
    requires Conserves(s) && Enabled(cfg, s, e)
    ensures Conserves(Effect(cfg, s, e))
  {
    match e
    case Offer(o, gone) => OfferConserves(cfg, s, o, gone);
    case Send(feed) => InFlightWithout(s.inFlight, feed);
    case Refuse(feed) => InFlightWith(s.inFlight, feed, Refused(s.inFlight[feed].o));
    case Forget(feed) => InFlightWith(s.inFlight, feed, Forgotten(s.inFlight[feed].o));
    case CountDrop(feed) => InFlightWithout(s.inFlight, feed);
    case Flush(outcome) => FlushConserves(s, outcome);
    case _ =>
  }

  lemma {:induction false} OfferConserves(cfg: Config, s: State, o: Observation, gone: set<Key>)
    requires Conserves(s) && o.feedId !in s.inFlight
    ensures Conserves(Offered(cfg, s, o, gone))
  {
    InFlightWith(s.inFlight, o.feedId, Sending(o));
  }

  lemma {:induction false} FlushConserves(s: State, outcome: Outcome)
    requires Conserves(s)
    ensures Conserves(Flushed(s, outcome))
  {}

  lemma {:induction false} StepKeepsOrder(cfg: Config, s: State, e: Event)
    requires Ordered(s) && Enabled(cfg, s, e)
    ensures Ordered(Effect(cfg, s, e))
  {}

  lemma {:induction false} InFlightWithout<K>(inFlight: map<K, Progress>, feed: K)
    requires feed in inFlight
    ensures |inFlight - {feed}| == |inFlight| - 1
  {
    assert (inFlight - {feed}).Keys == inFlight.Keys - {feed};
  }

  lemma {:induction false} InFlightWith<K>(inFlight: map<K, Progress>, feed: K, p: Progress)
    ensures |inFlight[feed := p]| == |inFlight| + if feed in inFlight then 0 else 1
  {
    assert inFlight[feed := p].Keys == inFlight.Keys + {feed};
  }

  /** Close returned without an error. */
  predicate ClosedCleanly(s: State) { s.life.closed && (s.life.started ==> s.life.exited && !s.life.cancelled) }

  /** A clean Close of a started pipeline leaves no observation on the way: each the filter let
      through was dropped and counted, or reached a batch that was written or counted failed. */
  lemma {:induction false} CleanCloseLosesNothing(cfg: Config, run: seq<Event>)
    requires Run(cfg, run).life.started && ClosedCleanly(Run(cfg, run))
    ensures var s := Run(cfg, run);
            && s.inFlight == map[] && s.queue == [] && s.batch == []
            && s.counts.admitted == s.counts.dropped + s.counts.written + s.counts.conflicts + s.counts.failed
  {
    ConservationAlways(cfg, run);
  }
}
