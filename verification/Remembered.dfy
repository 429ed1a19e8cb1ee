/** What the change filter remembers of a visit, so that a drop never silences a value. */
module Remembered {
  import opened Observations
  import opened Filter
  import opened Pipeline

  predicate OnTheWay(s: State, k: Key) {
    k.feedId in s.inFlight && s.inFlight[k.feedId].o.Key() == k
  }

  ghost predicate OnePollerPerFeed(s: State) {
    forall feed | feed in s.inFlight :: s.inFlight[feed].o.feedId == feed
  }

  /** What the filter remembers of a key is what is on its way or, if nothing is, what was last
      queued under it. */
  ghost predicate RemembersQueued(s: State, k: Key) {
    && (k in s.history.queued ==> s.history.queued[k].Key() == k)
    && (k in s.remembered ==>
          if OnTheWay(s, k) then
            !s.inFlight[k.feedId].Forgotten? && s.remembered[k] == ValueOf(s.inFlight[k.feedId].o)
          else
            k in s.history.queued && s.remembered[k] == ValueOf(s.history.queued[k]))
  }

  lemma {:induction false} OfferRemembersQueued(cfg: Config, s: State, o: Observation, gone: set<Key>, k: Key)
    requires OnePollerPerFeed(s) && RemembersQueued(s, k) && o.feedId !in s.inFlight
    ensures OnePollerPerFeed(Offered(cfg, s, o, gone)) && RemembersQueued(Offered(cfg, s, o, gone), k)
  {}

  lemma {:induction false} SendRemembersQueued(s: State, feed: string, k: Key)
    requires OnePollerPerFeed(s) && RemembersQueued(s, k) && feed in s.inFlight && !s.inFlight[feed].Forgotten?
    ensures OnePollerPerFeed(Sent(s, feed)) && RemembersQueued(Sent(s, feed), k)
  {}

  lemma {:induction false} ForgetRemembersQueued(s: State, feed: string, k: Key)
    requires OnePollerPerFeed(s) && RemembersQueued(s, k) && feed in s.inFlight
    ensures OnePollerPerFeed(ForgottenAt(s, feed)) && RemembersQueued(ForgottenAt(s, feed), k)
  {}

  lemma {:induction false} StepRemembersQueued(cfg: Config, s: State, e: Event, k: Key)
    requires OnePollerPerFeed(s) && RemembersQueued(s, k) && Enabled(cfg, s, e)
    ensures OnePollerPerFeed(Effect(cfg, s, e)) && RemembersQueued(Effect(cfg, s, e), k)
  {
    match e
    case Offer(o, gone) => OfferRemembersQueued(cfg, s, o, gone, k);
    case Send(feed) => SendRemembersQueued(s, feed, k);
    case Forget(feed) => ForgetRemembersQueued(s, feed, k);
    case _ =>
  }

  lemma {:induction false} AlwaysRemembersQueued(cfg: Config, run: seq<Event>, k: Key)
    ensures OnePollerPerFeed(Run(cfg, run)) && RemembersQueued(Run(cfg, run), k)
  {
    if run != [] {
      var before, e := run[..|run| - 1], run[|run| - 1];
      AlwaysRemembersQueued(cfg, before, k);
      if Enabled(cfg, Run(cfg, before), e) {
        StepRemembersQueued(cfg, Run(cfg, before), e, k);
      }
    }
  }

  /** The event puts an observation of the visit on the queue. */
  predicate Queues(cfg: Config, s: State, e: Event, k: Key) {
    Enabled(cfg, s, e) && e.Send? && s.inFlight[e.feed].o.Key() == k
  }

  /** The event forgets the visit, for whose observation the queue had no room. */
  predicate Drops(cfg: Config, s: State, e: Event, k: Key) {
    Enabled(cfg, s, e) && e.Forget? && s.inFlight[e.feed].o.Key() == k
  }

  /** The observation is the last of its visit to be queued, with no drop of the visit since. */
  predicate LastQueued(cfg: Config, run: seq<Event>, o: Observation) {
    if run == [] then false
    else
      var s, e := Run(cfg, run[..|run| - 1]), run[|run| - 1];
      if Queues(cfg, s, e, o.Key()) then s.inFlight[e.feed].o == o
      else !Drops(cfg, s, e, o.Key()) && LastQueued(cfg, run[..|run| - 1], o)
  }

  lemma {:induction false} QueuedIsLastQueued(cfg: Config, run: seq<Event>, k: Key)
    requires k in Run(cfg, run).history.queued
    ensures var o := Run(cfg, run).history.queued[k]; o.Key() == k && LastQueued(cfg, run, o)
  {
    AlwaysRemembersQueued(cfg, run, k);
    var before, e := run[..|run| - 1], run[|run| - 1];
    if !Queues(cfg, Run(cfg, before), e, k) {
      QueuedUnlessChanged(cfg, Run(cfg, before), e, k);
      QueuedIsLastQueued(cfg, before, k);
    }
  }

  lemma {:induction false} QueuedUnlessChanged(cfg: Config, s: State, e: Event, k: Key)
    requires k in After(cfg, s, e).history.queued && !Queues(cfg, s, e, k)
    ensures k in s.history.queued && After(cfg, s, e).history.queued[k] == s.history.queued[k] && !Drops(cfg, s, e, k)
  {}

  /** An observation is suppressed only when an equivalent one was the last of its key to be
      queued, and the key has not been dropped since. */
  lemma {:induction false} NeverSilenced(cfg: Config, run: seq<Event>, o: Observation, gone: set<Key>)
    requires Enabled(cfg, Run(cfg, run), Offer(o, gone)) && Suppresses(cfg, Run(cfg, run), o)
    ensures exists p :: LastQueued(cfg, run, p) && p.Key() == o.Key() && !Changed(ValueOf(p), ValueOf(o), cfg.minDelta)
  {
    AlwaysRemembersQueued(cfg, run, o.Key());
    QueuedIsLastQueued(cfg, run, o.Key());
  }
}
