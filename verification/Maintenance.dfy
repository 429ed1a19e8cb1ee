/** What a maintenance run is for: room for the days to come, and no day lost too early. */
module Maintenance {
  import opened Instants
  import opened RollupQuery
  import opened Rollup
  import opened RollupRuns
  import opened RollupJob

  /** The state after the maintenance run of a service day. */
  ghost function Maintained(cfg: Config, s: State, now: Instant, today: Date, lookahead: nat, retention: nat, refusals: Refusals): State {
    Ticked(cfg, s, now, PlanFor(today, lookahead, retention), refusals)
  }

  /** It loses no row of the retention days, none that has yet to be rolled up, and none at all when
      the rollup failed. */
  lemma {:induction false} KeepsRows(cfg: Config, s: State, now: Instant, today: Date, lookahead: nat, retention: nat, refusals: Refusals)
    ensures var t := Maintained(cfg, s, now, today, lookahead, retention, refusals);
            && t.rows <= s.rows
            && (forall o | o in s.rows && o !in t.rows ::
                  !refusals.rollup && o.serviceDate < today - retention && BucketTime(o) < t.watermark)
  {
    var plan := PlanFor(today, lookahead, retention);
    var ensured := WithPartitions(s, Creatable(s, plan.from, plan.until, refusals.create));
    RolledUpIs(cfg, ensured, now);
    var rolled := RolledUp(cfg, ensured, now);
    assert forall o | o in rolled.rows && !Pending(rolled, o.serviceDate) :: BucketTime(o) < rolled.watermark;
  }

  /** Unless creating one failed, each day from today through the lookahead has a partition, and
      yesterday too if it is retained. */
  lemma {:induction false} MakesRoom(cfg: Config, s: State, now: Instant, today: Date, lookahead: nat, retention: nat, refusals: Refusals)
    requires refusals.create == {}
    ensures var t := Maintained(cfg, s, now, today, lookahead, retention, refusals);
            forall d | today - 1 <= d <= today + lookahead && today - retention <= d :: d in t.partitions
  {
    var plan := PlanFor(today, lookahead, retention);
    var ensured := WithPartitions(s, Creatable(s, plan.from, plan.until, refusals.create));
    assert forall d | today - 1 <= d <= today + lookahead :: d in ensured.partitions;
    PartitionsKept(cfg, ensured, now);
  }

  lemma {:induction false} PartitionsKept(cfg: Config, s: State, now: Instant)
    ensures RolledUp(cfg, s, now).partitions == s.partitions
  {}

  /** The older partitions that are left are pending, unless a step failed; and the failure of a drop
      is reported exactly when one that is not pending is left. */
  lemma {:induction false} ClearsOld(cfg: Config, s: State, now: Instant, today: Date, lookahead: nat, retention: nat, refusals: Refusals)
    requires !refusals.rollup
    ensures var t := Maintained(cfg, s, now, today, lookahead, retention, refusals);
            Dropping in FaultsOf(cfg, s, now, PlanFor(today, lookahead, retention), refusals) <==>
            exists d :: d in t.partitions && d < today - retention && !Pending(t, d)
  {
    var plan := PlanFor(today, lookahead, retention);
    var ensured := WithPartitions(s, Creatable(s, plan.from, plan.until, refusals.create));
    DropsLeave(RolledUp(cfg, ensured, now), plan.cutoff, refusals.drop);
    var all := DropsAll(RolledUp(cfg, ensured, now), plan.cutoff, refusals.drop);
    var t := Maintained(cfg, s, now, today, lookahead, retention, refusals);
    assert all <==> !exists d :: d in t.partitions && d < today - retention && !Pending(t, d);
    var created := if CreatesAll(s, plan.from, plan.until, refusals.create) then [] else [Creating];
    assert FaultsOf(cfg, s, now, plan, refusals) == created + if all then [] else [Dropping];
    assert Dropping in created + [Dropping] && Dropping !in created + [];
  }

  lemma {:induction false} DropsLeave(s: State, cutoff: Date, refused: set<Date>)
    ensures var t := WithoutPartitions(s, Droppable(s, cutoff, refused));
            DropsAll(s, cutoff, refused) <==> forall d | d in t.partitions && d < cutoff :: Pending(t, d)
  {
    var t := WithoutPartitions(s, Droppable(s, cutoff, refused));
    assert forall d | d in t.partitions :: Pending(t, d) <==> Pending(s, d) by {
      assert forall o | o in s.rows && o.serviceDate in t.partitions :: o in t.rows;
    }
    if d :| d in s.partitions && d < cutoff && d in refused && !Pending(s, d) {
      assert d in t.partitions;
    }
  }

  /** The other failures are reported exactly when they happen. */
  lemma {:induction false} ReportsFailures(cfg: Config, s: State, now: Instant, today: Date, lookahead: nat, retention: nat, refusals: Refusals)
    ensures var faults := FaultsOf(cfg, s, now, PlanFor(today, lookahead, retention), refusals);
            && (RollingUp in faults <==> refusals.rollup)
            && (Creating in faults <==> exists d :: today - 1 <= d <= today + lookahead && d in refusals.create && d !in s.partitions)
            && (Dropping in faults ==> !refusals.rollup)
  {}
}
