/** What becomes of what the change filter lets through: on its way, written or lost. */
module Survivors {
  import opened Observations
  import opened Pipeline
  import opened Remembered
  import Gathering

  /** The event is the filter letting an observation of the visit through. */
  predicate Admits(cfg: Config, s: State, e: Event, k: Key) {
    Enabled(cfg, s, e) && e.Offer? && e.o.Key() == k && !Suppresses(cfg, s, e.o)
  }

  /** The event loses an observation of the visit: the queue refuses it, or its batch fails. */
  predicate Loses(cfg: Config, s: State, e: Event, k: Key) {
    && Enabled(cfg, s, e)
    && match e
       case Refuse(feed) => s.inFlight[feed].o.Key() == k
       case Flush(outcome) => outcome == Failed(false) && exists o | o in s.batch :: o.Key() == k
       case _ => false
  }

  /** The listed observations of the visit. */
  function Of(all: seq<Observation>, k: Key): seq<Observation> {
    if all == [] then []
    else
      var init, last := all[..|all| - 1], all[|all| - 1];
      Of(init, k) + if last.Key() == k then [last] else []
  }

  lemma {:induction false} OfAre(all: seq<Observation>, k: Key)
    ensures forall o | o in Of(all, k) :: o.Key() == k
  {
    if all != [] {
      OfAre(all[..|all| - 1], k);
    }
  }

  lemma {:induction false} OfBoth(all: seq<Observation>, others: seq<Observation>, k: Key)
    ensures Of(all + others, k) == Of(all, k) + Of(others, k)
  {
    if others == [] {
      assert all + others == all;
    } else {
      var init := others[..|others| - 1];
      OfBoth(all, init, k);
      assert (all + others)[..|all + others| - 1] == all + init;
    }
  }

  lemma {:induction false} OfOne(all: seq<Observation>, o: Observation, k: Key)
    ensures Of(all + [o], k) == Of(all, k) + if o.Key() == k then [o] else []
  {
    assert (all + [o])[..|all|] == all;
  }

  lemma {:induction false} OfNone(all: seq<Observation>, k: Key)
    ensures Of(all, k) == [] <==> forall o | o in all :: o.Key() != k
  {
    if all != [] {
      var init := all[..|all| - 1];
      OfNone(init, k);
      assert forall o | o in all :: o in init || o == all[|all| - 1];
    }
  }

  /** The visit's observation about to try the queue, if one is. */
  function AboutToSend(s: State, k: Key): seq<Observation> {
    if OnTheWay(s, k) && s.inFlight[k.feedId].Sending? then [s.inFlight[k.feedId].o] else []
  }

  /** The visit's observations on their way to the table, those nearest to it first. */
  function Unwritten(s: State, k: Key): seq<Observation> {
    Of(s.batch, k) + (Of(s.queue, k) + AboutToSend(s, k))
  }

  /** The visit's observations that the event writes. */
  function Writes(cfg: Config, s: State, e: Event, k: Key): seq<Observation> {
    if Enabled(cfg, s, e) && e.Flush? && e.outcome != Failed(false) then Of(s.batch, k) else []
  }

  function WrittenOf(cfg: Config, run: seq<Event>, k: Key): seq<Observation> {
    if run == [] then []
    else WrittenOf(cfg, run[..|run| - 1], k) + Writes(cfg, Run(cfg, run[..|run| - 1]), run[|run| - 1], k)
  }

  /** The visit's observations that the filter let through and that were not lost, in their order. */
  function Surviving(cfg: Config, run: seq<Event>, k: Key): seq<Observation> {
    WrittenOf(cfg, run, k) + Unwritten(Run(cfg, run), k)
  }

  /** What a step does to the observations on their way. */
  ghost predicate Moves(cfg: Config, s: State, e: Event, k: Key) {
    var before, after := Unwritten(s, k), Writes(cfg, s, e, k) + Unwritten(After(cfg, s, e), k);
    && (Admits(cfg, s, e, k) ==> after == before + [e.o])
    && (!Admits(cfg, s, e, k) && !Loses(cfg, s, e, k) ==> after == before)
    && (Loses(cfg, s, e, k) ==>
          Writes(cfg, s, e, k) == [] && if e.Refuse? then before == after + [s.inFlight[e.feed].o] else before == Of(s.batch, k) + after)
  }

  lemma {:induction false} StepMoves(cfg: Config, s: State, e: Event, k: Key)
    requires OnePollerPerFeed(s)
    ensures Moves(cfg, s, e, k)
  {
    if Enabled(cfg, s, e) {
      match e
      case Offer(o, gone) => AskingMoves(cfg, s, o, gone, k);
      case Receive => WriterMoves(cfg, s, k);
      case Flush(outcome) => WritingMoves(cfg, s, outcome, k);
      case _ => PollerMoves(cfg, s, e, k);
    }
  }

  lemma {:induction false} AskingMoves(cfg: Config, s: State, o: Observation, gone: set<Key>, k: Key)
    requires OnePollerPerFeed(s) && Enabled(cfg, s, Offer(o, gone))
    ensures Moves(cfg, s, Offer(o, gone), k)
  {
    OfferMoves(cfg, s, o, gone, k);
    Shifted(Of(s.batch, k), Of(s.queue, k), AboutToSend(s, k), [o]);
    assert Offered(cfg, s, o, gone).batch == s.batch && Offered(cfg, s, o, gone).queue == s.queue;
  }

  lemma {:induction false} PollerMoves(cfg: Config, s: State, e: Event, k: Key)
    requires OnePollerPerFeed(s) && Enabled(cfg, s, e) && !e.Offer? && !e.Receive? && !e.Flush?
    ensures Moves(cfg, s, e, k)
  {
    match e
    case Send(feed) => SendMoves(s, feed, k);
    case Refuse(feed) => RefusalMoves(cfg, s, feed, k);
    case _ => NothingMoves(cfg, s, e, k);
  }

  lemma {:induction false} RefusalMoves(cfg: Config, s: State, feed: string, k: Key)
    requires OnePollerPerFeed(s) && Enabled(cfg, s, Refuse(feed))
    ensures Moves(cfg, s, Refuse(feed), k)
  {
    var t := Effect(cfg, s, Refuse(feed));
    RefuseMoves(s, feed, k);
    if s.inFlight[feed].o.Key() == k {
      Shifted(Of(s.batch, k), Of(s.queue, k), AboutToSend(t, k), [s.inFlight[feed].o]);
    }
  }

  lemma {:induction false} NothingMoves(cfg: Config, s: State, e: Event, k: Key)
    requires Enabled(cfg, s, e) && !e.Offer? && !e.Send? && !e.Refuse? && !e.Receive? && !e.Flush?
    ensures Moves(cfg, s, e, k)
  {
    var t := Effect(cfg, s, e);
    assert t.batch == s.batch && t.queue == s.queue && AboutToSend(t, k) == AboutToSend(s, k);
  }

  lemma {:induction false} Shifted<T>(a: seq<T>, b: seq<T>, c: seq<T>, d: seq<T>)
    ensures a + (b + (c + d)) == (a + (b + c)) + d
  {}

  lemma {:induction false} WriterMoves(cfg: Config, s: State, k: Key)
    requires Enabled(cfg, s, Receive)
    ensures Moves(cfg, s, Receive, k)
  {
    ReceiveMoves(s.batch, [s.queue[0]], s.queue[1..], AboutToSend(s, k), k);
    assert [s.queue[0]] + s.queue[1..] == s.queue;
  }

  lemma {:induction false} WritingMoves(cfg: Config, s: State, outcome: Outcome, k: Key)
    requires Enabled(cfg, s, Flush(outcome))
    ensures Moves(cfg, s, Flush(outcome), k)
  {
    FlushMoves(s, outcome, k);
  }

  lemma {:induction false} OfferMoves(cfg: Config, s: State, o: Observation, gone: set<Key>, k: Key)
    requires OnePollerPerFeed(s) && o.feedId !in s.inFlight
    ensures AboutToSend(Offered(cfg, s, o, gone), k) ==
            AboutToSend(s, k) + if o.Key() == k && !Suppresses(cfg, s, o) then [o] else []
  {}

  lemma {:induction false} SendMoves(s: State, feed: string, k: Key)
    requires OnePollerPerFeed(s) && feed in s.inFlight && s.inFlight[feed].Sending?
    ensures Of(Sent(s, feed).queue, k) + AboutToSend(Sent(s, feed), k) == Of(s.queue, k) + AboutToSend(s, k)
  {
    OfOne(s.queue, s.inFlight[feed].o, k);
  }

  lemma {:induction false} RefuseMoves(s: State, feed: string, k: Key)
    requires OnePollerPerFeed(s) && feed in s.inFlight && s.inFlight[feed].Sending?
    ensures var o := s.inFlight[feed].o;
            AboutToSend(s, k) == AboutToSend(s.(inFlight := s.inFlight[feed := Refused(o)]), k) + if o.Key() == k then [o] else []
  {}

  lemma {:induction false} ReceiveMoves(batch: seq<Observation>, first: seq<Observation>, rest: seq<Observation>, sending: seq<Observation>, k: Key)
    ensures Of(batch + first, k) + (Of(rest, k) + sending) == Of(batch, k) + (Of(first + rest, k) + sending)
  {
    OfBoth(batch, first, k);
    OfBoth(first, rest, k);
    Regrouped(Of(batch, k), Of(first, k), Of(rest, k), sending);
  }

  lemma {:induction false} Regrouped<T>(a: seq<T>, b: seq<T>, c: seq<T>, d: seq<T>)
    ensures (a + b) + (c + d) == a + ((b + c) + d)
  {}

  lemma {:induction false} FlushMoves(s: State, outcome: Outcome, k: Key)
    ensures Unwritten(s, k) == Of(s.batch, k) + Unwritten(Flushed(s, outcome), k)
    ensures Of(s.batch, k) == [] <==> forall o | o in s.batch :: o.Key() != k
  {
    OfNone(s.batch, k);
  }

  // What the table holds of a visit.

  ghost function RowsOf(rows: set<Observation>, k: Key): set<Observation> {
    set o | o in rows && o.Key() == k
  }

  /** Of a visit a batch inserts what it would alone. */
  lemma {:induction false} InsertOf(rows: set<Observation>, batch: seq<Observation>, k: Key)
    ensures RowsOf(InsertRows(rows, batch), k) == InsertRows(RowsOf(rows, k), Of(batch, k))
  {
    if batch != [] {
      var init, last := batch[..|batch| - 1], batch[|batch| - 1];
      InsertOf(rows, init, k);
      InsertRowOf(InsertRows(rows, init), last, k);
      if last.Key() == k {
        InsertNext(RowsOf(rows, k), Of(init, k), last);
        assert Of(batch, k) == Of(init, k) + [last];
      } else {
        assert Of(batch, k) == Of(init, k);
      }
    }
  }

  lemma {:induction false} InsertNext(rows: set<Observation>, batch: seq<Observation>, o: Observation)
    ensures InsertRows(rows, batch + [o]) == InsertRow(InsertRows(rows, batch), o)
  {
    assert (batch + [o])[..|batch|] == batch;
  }

  lemma {:induction false} InsertRowOf(rows: set<Observation>, o: Observation, k: Key)
    ensures RowsOf(InsertRow(rows, o), k) == if o.Key() == k then InsertRow(RowsOf(rows, k), o) else RowsOf(rows, k)
  {
    if o.Key() == k && Holds(rows, o.RowKey()) {
      var p :| p in rows && p.RowKey() == o.RowKey();
      assert p in RowsOf(rows, k);
    }
  }

  lemma {:induction false} InsertBoth(rows: set<Observation>, batch: seq<Observation>, more: seq<Observation>)
    ensures InsertRows(rows, batch + more) == InsertRows(InsertRows(rows, batch), more)
  {
    if more == [] {
      assert batch + more == batch;
    } else {
      var init, last := more[..|more| - 1], more[|more| - 1];
      InsertBoth(rows, batch, init);
      InsertNext(rows, batch + init, last);
      LastOfBoth(batch, more);
    }
  }

  lemma {:induction false} LastOfBoth<T>(a: seq<T>, b: seq<T>)
    requires b != []
    ensures (a + b[..|b| - 1]) + [b[|b| - 1]] == a + b
  {}

  lemma {:induction false} RowsForBoth(batch: seq<Observation>, more: seq<Observation>)
    ensures RowsFor(batch + more) == RowsFor(batch) + RowsFor(more)
  {}

  lemma {:induction false} RowsForOne(batch: seq<Observation>, o: Observation)
    ensures RowsFor(batch + [o]) == RowsFor(batch) + [Narrowed(o)]
  {}

  lemma {:induction false} RowsForOf(batch: seq<Observation>, k: Key)
    ensures Of(RowsFor(batch), k) == RowsFor(Of(batch, k))
  {
    if batch != [] {
      var init, last := batch[..|batch| - 1], batch[|batch| - 1];
      RowsForOf(init, k);
      RowsForOfNext(init, last, k);
      Gathering.InitAndLast(batch);
    }
  }

  lemma {:induction false} RowsForOfNext(init: seq<Observation>, last: Observation, k: Key)
    requires Of(RowsFor(init), k) == RowsFor(Of(init, k))
    ensures Of(RowsFor(init + [last]), k) == RowsFor(Of(init + [last], k))
  {
    RowsForOne(init, last);
    OfOne(init, last, k);
    OfOne(RowsFor(init), Narrowed(last), k);
    if last.Key() == k {
      RowsForOne(Of(init, k), last);
    }
  }

  /** The table holds of a visit what writing its observations alone would have made of it. */
  lemma {:induction false} StoreIsWritten(cfg: Config, run: seq<Event>, k: Key)
    ensures RowsOf(Run(cfg, run).store, k) == InsertRows({}, RowsFor(WrittenOf(cfg, run, k)))
  {
    if run != [] {
      var before, e := run[..|run| - 1], run[|run| - 1];
      var s := Run(cfg, before);
      StoreIsWritten(cfg, before, k);
      StoreGains(cfg, s, e, k);
      RowsForBoth(WrittenOf(cfg, before, k), Writes(cfg, s, e, k));
      InsertBoth({}, RowsFor(WrittenOf(cfg, before, k)), RowsFor(Writes(cfg, s, e, k)));
    }
  }

  lemma {:induction false} StoreGains(cfg: Config, s: State, e: Event, k: Key)
    ensures RowsOf(After(cfg, s, e).store, k) == InsertRows(RowsOf(s.store, k), RowsFor(Writes(cfg, s, e, k)))
  {
    if Enabled(cfg, s, e) && e.Flush? {
      InsertOf(s.store, RowsFor(s.batch), k);
      RowsForOf(s.batch, k);
    }
  }

  /** The latest of what was said, and the first said at that time. */
  function Newest(said: seq<Observation>): Observation
    requires said != []
  {
    if |said| == 1 then said[0]
    else
      var o, last := Newest(said[..|said| - 1]), said[|said| - 1];
      if o.feedTs < last.feedTs then last else o
  }

  lemma {:induction false} NewestIs(said: seq<Observation>) returns (i: nat)
    requires said != []
    ensures i < |said| && Newest(said) == said[i]
    ensures forall j | 0 <= j < i :: said[j].feedTs < said[i].feedTs
    ensures forall j | i <= j < |said| :: said[j].feedTs <= said[i].feedTs
  {
    var n := |said| - 1;
    i := n;
    if 0 < n {
      var j := NewestIs(said[..n]);
      if said[n].feedTs <= said[j].feedTs {
        i := j;
      }
    }
  }

  /** Whatever the order, a visit's last word is the newest of what was written of it. */
  lemma {:induction false} NewestIsLastWord(said: seq<Observation>, k: Key)
    requires forall o | o in said :: o.Key() == k
    ensures forall o | o in InsertRows({}, RowsFor(said)) :: o.Key() == k
    ensures forall o :: IsLastWord(InsertRows({}, RowsFor(said)), o) <==> said != [] && o == Narrowed(Newest(said))
  {
    if said != [] {
      var n := |said| - 1;
      var init, last := said[..n], said[n];
      NewestIsLastWord(init, k);
      assert RowsFor(said)[..n] == RowsFor(init);
      var rows := InsertRows({}, RowsFor(init));
      if init == [] {
        FirstWord(Narrowed(last));
      } else {
        NewerWins(rows, Narrowed(Newest(init)), Narrowed(last), k);
      }
    }
  }

  lemma {:induction false} FirstWord(o: Observation)
    ensures forall p :: IsLastWord(InsertRow({}, o), p) <==> p == o
  {}

  lemma {:induction false} NewerWins(rows: set<Observation>, newest: Observation, last: Observation, k: Key)
    requires forall o | o in rows :: o.Key() == k
    requires forall o :: IsLastWord(rows, o) <==> o == newest
    requires last.Key() == k
    ensures forall o :: IsLastWord(InsertRow(rows, last), o) <==> o == if newest.feedTs < last.feedTs then last else newest
  {
    var now, best := InsertRow(rows, last), if newest.feedTs < last.feedTs then last else newest;
    assert IsLastWord(rows, newest);
    assert newest.feedTs == last.feedTs ==> newest.RowKey() == last.RowKey();
    forall o ensures IsLastWord(now, o) <==> o == best {
      if IsLastWord(now, o) && o != last {
        assert IsLastWord(rows, o);
      }
    }
  }

  // What survives of what was let through.

  /** What the filter let through of the visit from event n on. */
  function AdmittedSince(cfg: Config, run: seq<Event>, n: nat, k: Key): seq<Observation>
    requires n <= |run|
  {
    if |run| == n then []
    else
      var before, e := run[..|run| - 1], run[|run| - 1];
      AdmittedSince(cfg, before, n, k) + if Admits(cfg, Run(cfg, before), e, k) then [e.o] else []
  }

  predicate LosesNoneSince(cfg: Config, run: seq<Event>, n: nat, k: Key)
    requires n <= |run|
  {
    |run| == n ||
    var before, e := run[..|run| - 1], run[|run| - 1];
    LosesNoneSince(cfg, before, n, k) && !Loses(cfg, Run(cfg, before), e, k)
  }

  /** What is let through survives, in its order, while nothing is lost. */
  lemma {:induction false} AdmittedSurvive(cfg: Config, run: seq<Event>, n: nat, k: Key)
    requires n <= |run| && LosesNoneSince(cfg, run, n, k)
    ensures Surviving(cfg, run, k) == Surviving(cfg, run[..n], k) + AdmittedSince(cfg, run, n, k)
  {
    if |run| == n {
      assert run[..n] == run;
    } else {
      var before, e := run[..|run| - 1], run[|run| - 1];
      AdmittedSurvive(cfg, before, n, k);
      assert before[..n] == run[..n];
      StepSurvives(cfg, run, k);
      var admitted := if Admits(cfg, Run(cfg, before), e, k) then [e.o] else [];
      Grouped(Surviving(cfg, run[..n], k), AdmittedSince(cfg, before, n, k), admitted);
    }
  }

  lemma {:induction false} Grouped<T>(a: seq<T>, b: seq<T>, c: seq<T>)
    ensures (a + b) + c == a + (b + c)
  {}

  /** A step that loses nothing adds what it lets through to what survives. */
  lemma {:induction false} StepSurvives(cfg: Config, run: seq<Event>, k: Key)
    requires run != [] && !Loses(cfg, Run(cfg, run[..|run| - 1]), run[|run| - 1], k)
    ensures var before, e := run[..|run| - 1], run[|run| - 1];
            Surviving(cfg, run, k) == Surviving(cfg, before, k) + if Admits(cfg, Run(cfg, before), e, k) then [e.o] else []
  {
    var before, e := run[..|run| - 1], run[|run| - 1];
    var s := Run(cfg, before);
    AlwaysRemembersQueued(cfg, before, k);
    StepMoves(cfg, s, e, k);
    var written, writes, after := WrittenOf(cfg, before, k), Writes(cfg, s, e, k), Unwritten(After(cfg, s, e), k);
    Grouped(written, writes, after);
    Grouped(written, Unwritten(s, k), if Admits(cfg, s, e, k) then [e.o] else []);
  }

  /** One that loses something removes the last, or some before what is still to be received. */
  lemma {:induction false} LossSurvives(cfg: Config, run: seq<Event>, k: Key)
    requires run != [] && Loses(cfg, Run(cfg, run[..|run| - 1]), run[|run| - 1], k)
    ensures forall o | o in Surviving(cfg, run, k) :: o in Surviving(cfg, run[..|run| - 1], k)
    ensures var s, e := Run(cfg, run[..|run| - 1]), run[|run| - 1];
            e.Flush? && Of(s.queue, k) + AboutToSend(s, k) != [] ==>
            SameLast(Surviving(cfg, run[..|run| - 1], k), Surviving(cfg, run, k))
  {
    var before, e := run[..|run| - 1], run[|run| - 1];
    var s := Run(cfg, before);
    AlwaysRemembersQueued(cfg, before, k);
    StepMoves(cfg, s, e, k);
    if e.Flush? {
      FlushMoves(s, e.outcome, k);
    }
  }

  predicate SameLast(said: seq<Observation>, others: seq<Observation>) {
    said != [] && others != [] && said[|said| - 1] == others[|others| - 1]
  }
}
