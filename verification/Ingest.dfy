/** The producer's and the writer's code (internal/ingest/pipeline.go and writer.go), each call of
    which is shown to be a stretch of a run of the protocol. */
module Ingest {
  import opened Observations
  import opened Columns
  import opened Filter
  import opened Pipeline

  /** The producers' end of the pipeline: the filter, and the channel it feeds. */
  class Intake {
    const filter: Filter
    const size: nat
    var channel: seq<Observation>
    var dropped: nat

    constructor (filter: Filter, size: nat)
      ensures this.filter == filter && this.size == size && channel == [] && dropped == 0
    {
      this.filter, this.size, channel, dropped := filter, size, [], 0;
    }

    /** The filter, the channel and the counters are the protocol's. */
    ghost predicate Mirrors(cfg: Config, s: State)
      reads this, filter
    {
      && filter.Valid() && filter.minDelta == cfg.minDelta && size == cfg.queueSize
      && s.remembered == Values(filter.entries) && s.queue == channel
      && s.counts.admitted == filter.admitted && s.counts.suppressed == filter.suppressed && s.counts.dropped == dropped
    }

    /** Offers one observation and reports whether it was queued; it never blocks. An observation
        the channel has no room for leaves no trace in the filter, so that the next is not
        mistaken for a repeat of it. */
    method Submit(o: Observation, ghost cfg: Config, ghost run: seq<Event>) returns (queued: bool, ghost now: seq<Event>)
      requires Mirrors(cfg, Run(cfg, run)) && o.feedId !in Run(cfg, run).inFlight && !Run(cfg, run).life.stopped
      modifies this, filter
      ensures run <= now && Mirrors(cfg, Run(cfg, now)) && Run(cfg, now).inFlight == Run(cfg, run).inFlight
      ensures queued <==> old(Passes(filter.entries, o, filter.minDelta)) && |old(channel)| < size
      ensures channel == if queued then old(channel) + [o] else old(channel)
      ensures dropped > old(dropped) ==> o.Key() !in filter.entries
    {
      ghost var before, t, gone := Run(cfg, run).inFlight, Run(cfg, run), {};
      queued, t, gone := Ask(o, cfg, t);
      now := run + [Offer(o, gone)];
      RunThen(cfg, run, Offer(o, gone));
      if queued && |channel| < size {
        t := SendThen(cfg, now, t, before, o);
        channel, now := channel + [o], now + [Send(o.feedId)];
      } else if queued {
        now, t := Drop(o, cfg, now, t, before);
        queued := false;
      }
    }

    /** Asks the filter. */
    method Ask(o: Observation, ghost cfg: Config, ghost s: State) returns (admitted: bool, ghost t: State, ghost gone: set<Key>)
      requires Mirrors(cfg, s)
      modifies filter
      ensures t == Offered(cfg, s, o, gone) && Mirrors(cfg, t)
      ensures admitted == old(Passes(filter.entries, o, filter.minDelta))
      ensures t.inFlight == if admitted then s.inFlight[o.feedId := Sending(o)] else s.inFlight
    {
      ghost var entries := filter.entries;
      admitted, gone := filter.Admit(o);
      t := OfferThen(cfg, s, o, gone, entries, Entry(ValueOf(o), o.serviceDate, filter.order), filter.entries);
    }

    /** Undoes the filter's record of an observation there was no room for, and counts it. */
    method Drop(o: Observation, ghost cfg: Config, ghost run: seq<Event>, ghost s: State, ghost before: map<string, Progress>)
      returns (ghost now: seq<Event>, ghost t: State)
      requires s == Run(cfg, run) && Mirrors(cfg, s) && size <= |channel|
      requires o.feedId !in before && s.inFlight == before[o.feedId := Sending(o)]
      modifies this`dropped, filter`entries
      ensures run <= now && t == Run(cfg, now) && Mirrors(cfg, t) && t.inFlight == before
      ensures dropped == old(dropped) + 1 && o.Key() !in filter.entries
    {
      t := DropThen(cfg, run, s, before, o);
      ForgottenValues(filter.entries, o.Key());
      filter.Forget(o.Key());
      dropped, now := dropped + 1, run + Dropping(o.feedId);
    }
  }

  function Values<K>(entries: map<K, Entry>): map<K, Value> {
    map k | k in entries :: entries[k].value
  }

  lemma {:induction false} AdmittedValues<K>(entries: map<K, Entry>, gone: set<K>, k: K, e: Entry)
    ensures Values((entries - gone)[k := e]) == (Values(entries) - gone)[k := e.value]
  {}

  lemma {:induction false} ForgottenValues<K>(entries: map<K, Entry>, k: K)
    ensures Values(entries - {k}) == Values(entries) - {k}
  {}

  /** The observations table. */
  class Table {
    var rows: set<Observation>

    constructor ()
      ensures rows == {}
    {
      rows := {};
    }

    /** The insertion statement; returns the rows affected. */
    method Insert(c: Columns) returns (inserted: nat)
      requires c.Even()
      modifies this
      ensures rows == InsertRows(old(rows), c.Unnest()) && inserted == |rows| - |old(rows)|
    {
      InsertGrows(rows, c.Unnest());
      inserted := |InsertRows(rows, c.Unnest())| - |rows|;
      rows := InsertRows(rows, c.Unnest());
    }
  }

  /** What the writer's select finds ready. */
  datatype Signal = Arrived(o: Observation) | Ticked | Drained | Deadline

  class Writer {
    const batchSize: nat
    var written: nat
    var failed: nat
    var batches: nat
    var conflicts: nat

    constructor (batchSize: nat)
      ensures this.batchSize == (if batchSize == 0 then 500 else batchSize)
      ensures written == failed == batches == conflicts == 0
    {
      this.batchSize := if batchSize == 0 then 500 else batchSize;
      written, failed, batches, conflicts := 0, 0, 0, 0;
    }

    /** The writer's counters and the table are the protocol's. */
    ghost predicate Mirrors(db: Table, s: State)
      reads this, db
    {
      && db.rows == s.store && written == s.counts.written
      && failed == s.counts.failed && conflicts == s.counts.conflicts
    }

    /** Writes one batch, as far as the database lets it, and accounts for each of its rows. */
    method WriteBatch(db: Table, batch: seq<Observation>, outcome: Outcome)
      modifies this, db
      ensures db.rows == StoredAfter(old(db.rows), batch, outcome)
      ensures written == old(written) + Inserted(old(db.rows), batch, outcome)
      ensures conflicts == old(conflicts) + (if outcome.Written? then |batch| - Inserted(old(db.rows), batch, outcome) else 0)
      ensures failed == old(failed) + (if outcome.Failed? then |batch| else 0)
      ensures batches == old(batches) + (if outcome.Written? then 1 else 0)
    {
      var cols := ColumnsOf(batch);
      var inserted := InsertWithRetries(db, cols, batch, outcome);
      if outcome.Failed? {
        failed := failed + |batch|;
        return;
      }
      batches := batches + 1;
      written := written + inserted;
      conflicts := conflicts + (|batch| - inserted);
    }

    /** Tries until one try succeeds or no more are left; that one's count is what it found missing. */
    method InsertWithRetries(db: Table, cols: Columns, ghost batch: seq<Observation>, outcome: Outcome) returns (inserted: nat)
      requires cols.Even() && cols.Unnest() == RowsFor(batch)
      modifies db
      ensures db.rows == StoredAfter(old(db.rows), batch, outcome)
      ensures outcome.Written? ==> inserted == Inserted(old(db.rows), batch, outcome)
    {
      inserted := 0;
      ReplayIsNoOp(db.rows, RowsFor(batch), RowsFor(batch));
      if outcome.Written? || outcome.stored {
        inserted := db.Insert(cols);
      }
      if outcome == Written(true) {
        inserted := db.Insert(cols);
      }
    }

    /** Writes the batch, if there is one. */
    method Flush(db: Table, batch: seq<Observation>, outcome: Outcome, ghost cfg: Config, ghost run: seq<Event>)
      returns (ghost now: seq<Event>)
      requires Mirrors(db, Pipeline.Run(cfg, run)) && Writing(Pipeline.Run(cfg, run)) && Pipeline.Run(cfg, run).batch == batch
      modifies this, db
      ensures now == run + FlushOf(Pipeline.Run(cfg, run), outcome)
      ensures Mirrors(db, Pipeline.Run(cfg, now)) && Pipeline.Run(cfg, now).batch == []
      ensures Pipeline.Run(cfg, now).queue == Pipeline.Run(cfg, run).queue
      ensures Pipeline.Run(cfg, now).life == Pipeline.Run(cfg, run).life
    {
      now := run + [];
      assert now == run;
      if batch != [] {
        FlushThen(cfg, run, outcome);
        WriteBatch(db, batch, outcome);
        now := run + [Event.Flush(outcome)];
      }
    }

    /** One turn of the writer's loop. */
    method Take(db: Table, held: seq<Observation>, signal: Signal, outcome: Outcome, ghost cfg: Config, ghost run: seq<Event>)
      returns (batch: seq<Observation>, ghost now: seq<Event>)
      requires batchSize == cfg.batchSize && |held| < batchSize
      requires Mirrors(db, Pipeline.Run(cfg, run)) && Writing(Pipeline.Run(cfg, run)) && Pipeline.Run(cfg, run).batch == held
      requires Ready(signal, Pipeline.Run(cfg, run))
      modifies this, db
      ensures now == run + TurnOf(cfg, Pipeline.Run(cfg, run), signal, outcome)
      ensures Mirrors(db, Pipeline.Run(cfg, now)) && Pipeline.Run(cfg, now).batch == batch
      ensures Pipeline.Run(cfg, now).life == if Ends(signal) then Pipeline.Run(cfg, run).life.(exited := true) else Pipeline.Run(cfg, run).life
      ensures |batch| < batchSize && (!signal.Arrived? ==> batch == [])
    {
      batch, now := held, run;
      if signal.Arrived? {
        ReceiveThen(cfg, now);
        batch, now := batch + [signal.o], now + [Receive];
      }
      if !signal.Arrived? || |batch| >= batchSize {
        now := Flush(db, batch, outcome, cfg, now);
        batch := [];
      }
      if Ends(signal) {
        ExitThen(cfg, now);
        now := now + [Exit];
      }
    }

    /** Drains the queue until it is closed and empty, or the writer's deadline expires; in
        between, a full batch or a tick flushes what has arrived. Each signal comes with how a
        write it causes would end, and after whatever the producers, maintenance and shutdown did
        in the meantime. Returns the batch it holds and whether it exited. */
    method Run(db: Table, signals: seq<Signal>, outcomes: seq<Outcome>, ghost cfg: Config, ghost run: seq<Event>, ghost others: seq<seq<Event>>)
      returns (batch: seq<Observation>, exited: bool, ghost now: seq<Event>)
      requires batchSize == cfg.batchSize != 0 && |outcomes| == |signals| == |others|
      requires Mirrors(db, Pipeline.Run(cfg, run)) && Writing(Pipeline.Run(cfg, run)) && Pipeline.Run(cfg, run).batch == []
      requires forall es | es in others :: OfOthers(es)
      requires Possible(cfg, run, signals, outcomes, others)
      modifies this, db
      ensures now == run + Interleaved(cfg, run, signals, outcomes, others)
      ensures Mirrors(db, Pipeline.Run(cfg, now)) && Pipeline.Run(cfg, now).batch == batch
      ensures Pipeline.Run(cfg, now).life.exited == exited
      ensures exited <==> exists i | 0 <= i < |signals| :: Ends(signals[i])
      ensures |batch| < batchSize && (exited ==> batch == [])
    {
      batch, exited, now := [], false, run;
      for n := 0 to |signals|
        invariant Mirrors(db, Pipeline.Run(cfg, now)) && Pipeline.Run(cfg, now).batch == batch && Writing(Pipeline.Run(cfg, now))
        invariant Possible(cfg, now, signals[n..], outcomes[n..], others[n..])
        invariant run + Interleaved(cfg, run, signals, outcomes, others) ==
                  now + Interleaved(cfg, now, signals[n..], outcomes[n..], others[n..])
        invariant |batch| < batchSize
        invariant forall i | 0 <= i < n :: !Ends(signals[i])
      {
        TurnThen(cfg, now, signals, outcomes, others, n);
        OthersLeaveWriter(cfg, now, others[n]);
        batch, now := Take(db, batch, signals[n], outcomes[n], cfg, now + others[n]);
        if Ends(signals[n]) {
          exited := true;
          return;
        }
      }
    }
  }

  /** Wires up a pipeline: a filter that remembers nothing, an empty channel and a writer that has
      written nothing, over an empty table. */
  method NewPipeline(minDelta: int, maxEntries: nat, queueSize: nat, batchSize: nat, ghost cfg: Config)
    returns (intake: Intake, writer: Writer, db: Table)
    requires 1 <= maxEntries && cfg == Config(minDelta, queueSize, if batchSize == 0 then 500 else batchSize)
    ensures fresh(intake) && fresh(intake.filter) && fresh(writer) && fresh(db)
    ensures intake.Mirrors(cfg, Pipeline.Run(cfg, [])) && writer.Mirrors(db, Pipeline.Run(cfg, [])) && writer.batchSize == cfg.batchSize
  {
    var filter := new Filter(minDelta, maxEntries);
    intake := new Intake(filter, queueSize);
    writer := new Writer(batchSize);
    db := new Table();
  }

  predicate Ends(signal: Signal) { signal.Drained? || signal.Deadline? }

  /** The select can find the signal ready: what arrives is first in the queue, the channel reports
      itself drained once it is closed and empty, and the deadline is Close giving up. */
  predicate Ready(signal: Signal, s: State) {
    match signal
    case Arrived(o) => s.queue != [] && s.queue[0] == o
    case Ticked => true
    case Drained => s.queue == [] && s.life.closed
    case Deadline => s.life.cancelled
  }

  /** Steps that are not the writer's. */
  predicate OfOthers(events: seq<Event>) { forall e | e in events :: !e.Receive? && !e.Flush? && !e.Exit? }

  function FlushOf(s: State, outcome: Outcome): seq<Event> { if s.batch == [] then [] else [Event.Flush(outcome)] }

  /** The writer's steps in one turn. */
  function TurnOf(cfg: Config, s: State, signal: Signal, outcome: Outcome): seq<Event> {
    match signal
    case Arrived(_) => [Receive] + if |s.batch| + 1 >= cfg.batchSize then [Event.Flush(outcome)] else []
    case Ticked => FlushOf(s, outcome)
    case Drained | Deadline => FlushOf(s, outcome) + [Exit]
  }

  /** The signals can come in this order, each when it is ready. */
  predicate Possible(cfg: Config, run: seq<Event>, signals: seq<Signal>, outcomes: seq<Outcome>, others: seq<seq<Event>>)
    requires |signals| == |outcomes| == |others|
    decreases |signals|
  {
    signals == [] ||
    var s := Pipeline.Run(cfg, run + others[0]);
    && Ready(signals[0], s)
    && (Ends(signals[0]) ||
        Possible(cfg, run + others[0] + TurnOf(cfg, s, signals[0], outcomes[0]), signals[1..], outcomes[1..], others[1..]))
  }

  /** All the steps, the writer's and the others', up to its exit. */
  function Interleaved(cfg: Config, run: seq<Event>, signals: seq<Signal>, outcomes: seq<Outcome>, others: seq<seq<Event>>): seq<Event>
    requires |signals| == |outcomes| == |others|
    decreases |signals|
  {
    if signals == [] then []
    else
      var turn := others[0] + TurnOf(cfg, Pipeline.Run(cfg, run + others[0]), signals[0], outcomes[0]);
      turn + if Ends(signals[0]) then [] else Interleaved(cfg, run + turn, signals[1..], outcomes[1..], others[1..])
  }

  lemma {:induction false} TurnThen(cfg: Config, run: seq<Event>, signals: seq<Signal>, outcomes: seq<Outcome>, others: seq<seq<Event>>, n: nat)
    requires n < |signals| == |outcomes| == |others| && Possible(cfg, run, signals[n..], outcomes[n..], others[n..])
    ensures var s := Pipeline.Run(cfg, run + others[n]);
            var now := run + others[n] + TurnOf(cfg, s, signals[n], outcomes[n]);
            && Ready(signals[n], s)
            && (!Ends(signals[n]) ==> Possible(cfg, now, signals[n + 1..], outcomes[n + 1..], others[n + 1..]))
            && run + Interleaved(cfg, run, signals[n..], outcomes[n..], others[n..]) ==
               now + if Ends(signals[n]) then [] else Interleaved(cfg, now, signals[n + 1..], outcomes[n + 1..], others[n + 1..])
  {
    Tail(signals, n);
    Tail(outcomes, n);
    Tail(others, n);
    var turn := TurnOf(cfg, Pipeline.Run(cfg, run + others[n]), signals[n], outcomes[n]);
    Regrouped(run, others[n], turn, if Ends(signals[n]) then [] else
      Interleaved(cfg, run + (others[n] + turn), signals[n + 1..], outcomes[n + 1..], others[n + 1..]));
  }

  lemma {:induction false} Tail<T>(s: seq<T>, n: nat)
    requires n < |s|
    ensures s[n..] != [] && s[n..][0] == s[n] && s[n..][1..] == s[n + 1..]
  {}

  lemma {:induction false} Regrouped<T>(a: seq<T>, b: seq<T>, c: seq<T>, d: seq<T>)
    ensures a + b + c == a + (b + c) && a + (b + c + d) == a + b + c + d
  {}

  /** Whatever the others do, they leave the writer's batch, counters and table alone. */
  lemma {:induction false} OthersLeaveWriter(cfg: Config, run: seq<Event>, events: seq<Event>)
    requires OfOthers(events) && Writing(Pipeline.Run(cfg, run))
    ensures var s, t := Pipeline.Run(cfg, run), Pipeline.Run(cfg, run + events);
            && t.batch == s.batch && t.store == s.store && Writing(t)
            && t.counts.written == s.counts.written && t.counts.failed == s.counts.failed && t.counts.conflicts == s.counts.conflicts
  {
    if events == [] {
      assert run + events == run;
    } else {
      var n := |events| - 1;
      assert events[n] in events && forall e | e in events[..n] :: e in events;
      OthersLeaveWriter(cfg, run, events[..n]);
      assert run + events == run + events[..n] + [events[n]];
      RunThen(cfg, run + events[..n], events[n]);
      OtherLeavesWriter(cfg, Pipeline.Run(cfg, run + events[..n]), events[n]);
    }
  }

  lemma {:induction false} OtherLeavesWriter(cfg: Config, s: State, e: Event)
    requires !e.Receive? && !e.Flush? && !e.Exit? && Writing(s)
    ensures var t := After(cfg, s, e);
            && t.batch == s.batch && t.store == s.store && Writing(t)
            && t.counts.written == s.counts.written && t.counts.failed == s.counts.failed && t.counts.conflicts == s.counts.conflicts
  {}

  /** A run with one more event. */
  lemma {:induction false} RunThen(cfg: Config, run: seq<Event>, e: Event)
    ensures Pipeline.Run(cfg, run + [e]) == After(cfg, Pipeline.Run(cfg, run), e)
  {
    assert (run + [e])[..|run|] == run;
  }

  lemma {:induction false} ReceiveThen(cfg: Config, run: seq<Event>)
    requires var s := Pipeline.Run(cfg, run); Writing(s) && s.queue != [] && |s.batch| < cfg.batchSize
    ensures var s := Pipeline.Run(cfg, run);
            Pipeline.Run(cfg, run + [Receive]) == s.(queue := s.queue[1..], batch := s.batch + [s.queue[0]])
  {
    RunThen(cfg, run, Receive);
  }

  lemma {:induction false} FlushThen(cfg: Config, run: seq<Event>, outcome: Outcome)
    requires Writing(Pipeline.Run(cfg, run)) && Pipeline.Run(cfg, run).batch != []
    ensures var s, t := Pipeline.Run(cfg, run), Pipeline.Run(cfg, run + [Event.Flush(outcome)]);
            var n := Inserted(s.store, s.batch, outcome);
            && t.batch == [] && t.queue == s.queue && t.life == s.life && t.store == StoredAfter(s.store, s.batch, outcome)
            && t.counts.written == s.counts.written + n
            && t.counts.conflicts == s.counts.conflicts + (if outcome.Written? then |s.batch| - n else 0)
            && t.counts.failed == s.counts.failed + (if outcome.Failed? then |s.batch| else 0)
  {
    RunThen(cfg, run, Event.Flush(outcome));
  }

  lemma {:induction false} ExitThen(cfg: Config, run: seq<Event>)
    requires var s := Pipeline.Run(cfg, run);
             Writing(s) && s.batch == [] && ((s.life.closed && s.queue == []) || s.life.cancelled)
    ensures var s := Pipeline.Run(cfg, run); Pipeline.Run(cfg, run + [Exit]) == s.(life := s.life.(exited := true))
  {
    RunThen(cfg, run, Exit);
  }

  // Submit's steps, in the protocol.

  lemma {:induction false} OfferThen(cfg: Config, s: State, o: Observation, gone: set<Key>,
                                     before: map<Key, Entry>, entry: Entry, after: map<Key, Entry>) returns (t: State)
    requires s.remembered == Values(before) && entry.value == ValueOf(o)
    requires after == if Passes(before, o, cfg.minDelta) then (before - gone)[o.Key() := entry] else before
    ensures var admitted := Passes(before, o, cfg.minDelta);
            && t == Offered(cfg, s, o, gone)
            && t.remembered == Values(after) && t.queue == s.queue
            && t.counts.dropped == s.counts.dropped
            && t.counts.admitted == s.counts.admitted + (if admitted then 1 else 0)
            && t.counts.suppressed == s.counts.suppressed + (if admitted then 0 else 1)
            && t.inFlight == if admitted then s.inFlight[o.feedId := Sending(o)] else s.inFlight
  {
    AdmittedValues(before, gone, o.Key(), entry);
    t := Offered(cfg, s, o, gone);
  }

  lemma {:induction false} SendThen(cfg: Config, run: seq<Event>, s: State, before: map<string, Progress>, o: Observation) returns (t: State)
    requires s == Pipeline.Run(cfg, run) && o.feedId !in before && s.inFlight == before[o.feedId := Sending(o)]
    requires |s.queue| < cfg.queueSize
    ensures t == Pipeline.Run(cfg, run + [Send(o.feedId)])
    ensures t.remembered == s.remembered && t.inFlight == before
    ensures t.queue == s.queue + [o] && t.life == s.life && t.counts == s.counts
  {
    RunThen(cfg, run, Send(o.feedId));
    ThenRemoved(before, o.feedId, Sending(o));
    t := Sent(s, o.feedId);
  }

  lemma {:induction false} DropThen(cfg: Config, run: seq<Event>, s: State, before: map<string, Progress>, o: Observation) returns (t: State)
    requires s == Pipeline.Run(cfg, run) && o.feedId !in before && s.inFlight == before[o.feedId := Sending(o)]
    requires cfg.queueSize <= |s.queue|
    ensures t == Pipeline.Run(cfg, run + Dropping(o.feedId))
    ensures t.remembered == s.remembered - {o.Key()} && t.inFlight == before
    ensures t.queue == s.queue && t.life == s.life && t.counts == s.counts.(dropped := s.counts.dropped + 1)
  {
    var feed := o.feedId;
    RunThen(cfg, run, Refuse(feed));
    var refused := s.(inFlight := before[feed := Refused(o)]);
    Overwritten(before, feed, Sending(o), Refused(o));
    assert Pipeline.Run(cfg, run + [Refuse(feed)]) == refused;
    t := CountedDropThen(cfg, run + [Refuse(feed)], refused, before, o);
    assert run + [Refuse(feed)] + [Event.Forget(feed)] + [CountDrop(feed)] == run + Dropping(feed);
  }

  lemma {:induction false} CountedDropThen(cfg: Config, run: seq<Event>, s: State, before: map<string, Progress>, o: Observation) returns (t: State)
    requires s == Pipeline.Run(cfg, run) && o.feedId !in before && s.inFlight == before[o.feedId := Refused(o)]
    ensures t == Pipeline.Run(cfg, run + [Event.Forget(o.feedId)] + [CountDrop(o.feedId)])
    ensures t.remembered == s.remembered - {o.Key()} && t.inFlight == before
    ensures t.queue == s.queue && t.life == s.life && t.counts == s.counts.(dropped := s.counts.dropped + 1)
  {
    var feed := o.feedId;
    RunThen(cfg, run, Event.Forget(feed));
    RunThen(cfg, run + [Event.Forget(feed)], CountDrop(feed));
    var forgotten := ForgottenAt(s, feed);
    Overwritten(before, feed, Refused(o), Forgotten(o));
    ThenRemoved(before, feed, Forgotten(o));
    t := Effect(cfg, forgotten, CountDrop(feed));
  }

  lemma {:induction false} Overwritten<K, V>(before: map<K, V>, k: K, u: V, v: V)
    ensures before[k := u][k := v] == before[k := v]
  {}

  lemma {:induction false} ThenRemoved<K, V>(before: map<K, V>, k: K, v: V)
    requires k !in before
    ensures before[k := v] - {k} == before
  {}

  function Dropping(feed: string): seq<Event> { [Refuse(feed), Event.Forget(feed), CountDrop(feed)] }
}
