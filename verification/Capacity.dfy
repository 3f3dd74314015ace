/** Capacity of the pool over whole runs, and what one gateway hint achieves. */
module Capacity {
  import opened Collections
  import opened Planning
  import opened PoolState
  import opened PoolFacts
  import opened Migration
  import opened PoolRuns
  import opened Ledger

  /** Sessions, not counting held sources, fit the pool. */
  ghost predicate WithinCapacity(c: Config, s: System) {
    Tracked(s) && Logical(s.pool) <= c.poolTargetSize
  }

  lemma ScaleFits(c: Config, s: System, targetSize: nat, succeeded: nat)
    requires Valid(s.pool)
    ensures
      var q := Exec(c, s, ScaleCall(targetSize, succeeded));
      q.added > s.added ==> Logical(q.pool) <= c.poolTargetSize
  {
    var plan := PlanPoolScale(c.poolTargetSize, |s.pool.slots|, targetSize);
    if !plan.blocked {
      ConnectLogical(s.pool, plan.toAdd, succeeded);
    }
  }

  /** The pool grows only by scale-ups, and those end within the pool size. */
  lemma GrowthFits(c: Config, s: System, act: Act)
    requires Valid(s.pool)
    ensures Exec(c, s, act).added > s.added ==> Logical(Exec(c, s, act).pool) <= c.poolTargetSize
  {
    match act
    case ScaleCall(targetSize, succeeded) => ScaleFits(c, s, targetSize, succeeded);
    case DrainCall(count, fraction, busy, busyAtCheck) =>
      DrainSize(c.poolTargetSize, s.pool, count, fraction, busy, busyAtCheck);
    case Hint(raw, succeeded, busy, busyAtCheck) => HintFits(c, s, raw, succeeded, busy, busyAtCheck);
    case _ =>
  }

  lemma HintFits(c: Config, s: System, raw: nat, succeeded: nat, busy: set<SessionId>, busyAtCheck: set<SessionId>)
    requires Valid(s.pool)
    ensures
      var q := Exec(c, s, Hint(raw, succeeded, busy, busyAtCheck));
      q.added > s.added ==> Logical(q.pool) <= c.poolTargetSize
  {
    var desired := ClampDesired(raw, c.baseline, c.poolTargetSize);
    var n := |s.pool.slots|;
    if desired > n {
      HintScales(c, s, raw, succeeded, busy, busyAtCheck);
      ScaleFits(c, s, desired, succeeded);
    } else if desired < n {
      HintDrains(c, s, raw, succeeded, busy, busyAtCheck);
      DrainSize(c.poolTargetSize, s.pool, Some(n - desired), None, busy, busyAtCheck);
    }
  }

  lemma {:induction false} RunKeepsCapacity(c: Config, s: System, acts: seq<Act>)
    requires WithinCapacity(c, s) && AccountedRun(c, s, acts)
    ensures WithinCapacity(c, Run(c, s, acts))
  {
    if acts != [] {
      var n := |acts| - 1;
      AccountedFront(c, s, acts);
      RunKeepsCapacity(c, s, acts[..n]);
      StepLedger(c, Run(c, s, acts[..n]), acts[n]);
      GrowthFits(c, Run(c, s, acts[..n]), acts[n]);
    }
  }

  /**
   * From boot, through any run of retires, drains, scale-ups, hints and migrations that start with
   * nothing outstanding or have nothing to move, live sessions minus held sources never exceed the
   * configured pool size.
   */
  lemma CapacityNeverExceeded(c: Config, url: string, fraction: Option<real>, succeeded: nat, acts: seq<Act>)
    requires AccountedRun(c, Booted(c, url, fraction, succeeded), acts)
    ensures
      var s := Run(c, Booted(c, url, fraction, succeeded), acts);
      |s.pool.slots| - |Outstanding(s.pool)| <= c.poolTargetSize
  {
    BootWithinTarget(c.poolTargetSize, c.baseline, fraction);
    BootedIsTracked(c, url, fraction, succeeded);
    RunKeepsCapacity(c, Booted(c, url, fraction, succeeded), acts);
  }

  /** With no hold, the drain candidates are all idle sessions. */
  lemma IdleCount(p: Pool, busy: set<SessionId>)
    requires Valid(p) && p.hold.None? && busy <= IdSet(p.slots)
    ensures NoDup(DrainCandidates(p.slots, None, busy))
    ensures |DrainCandidates(p.slots, None, busy)| == |p.slots| - |busy|
    ensures ToSet(DrainCandidates(p.slots, None, busy)) !! busy
  {
    var candidates := DrainCandidates(p.slots, None, busy);
    CandidatesView(p.slots, None, busy);
    assert ToSet(candidates) == IdSet(p.slots) - busy;
    NoDupCardinality(candidates);
    IdCount(p.slots);
    DifferenceCardinality(IdSet(p.slots), busy);
    assert busy - IdSet(p.slots) == {};
  }

  /** With no hold and stable busy states a counted drain removes as many idle sessions as asked. */
  lemma DrainedCount(size: nat, p: Pool, count: nat, busy: set<SessionId>)
    requires Valid(p) && p.hold.None? && busy <= IdSet(p.slots) && 1 <= count <= |p.slots|
    ensures |Drained(size, p, Some(count), None, busy, busy)| == Min(count, |DrainCandidates(p.slots, None, busy)|)
  {
    var candidates := DrainCandidates(p.slots, None, busy);
    var n := Min(count, |candidates|);
    IdleCount(p, busy);
    CountedPlan(size, |p.slots|, count, |candidates|);
    PrefixNoDup(candidates, n);
    assert DrainChoice(size, p, Some(count), None, busy) == candidates[..n];
    assert ToSet(candidates[..n]) - busy == ToSet(candidates[..n]);
  }

  /** Draining towards `desired` with no hold and stable busy states stops at the busy sessions. */
  lemma DrainExact(size: nat, p: Pool, desired: nat, busy: set<SessionId>)
    requires Valid(p) && p.hold.None? && busy <= IdSet(p.slots) && desired < |p.slots|
    ensures |AfterDrain(size, p, Some(|p.slots| - desired), None, busy, busy).slots| == Max(desired, |busy|)
  {
    IdleCount(p, busy);
    DrainedCount(size, p, |p.slots| - desired, busy);
    DrainSize(size, p, Some(|p.slots| - desired), None, busy, busy);
  }

  lemma ScaleExact(size: nat, p: Pool, targetSize: nat, succeeded: nat)
    requires |p.slots| < targetSize <= size <= succeeded
    ensures |ScaleTo(size, p, targetSize, succeeded).0.slots| == targetSize
  {
  }

  /** The number of sessions left after a hint when all dials succeed and no busy state changes. */
  function HintSize(desired: nat, current: nat, busyCount: nat): int {
    if desired >= current then desired else Max(desired, busyCount)
  }

  /**
   * With no hold, a sane baseline, all dials succeeding and busy states that do not change during
   * the call, a hint scales up to exactly the desired size, or drains down to exactly the larger
   * of the desired size and the number of busy sessions.
   */
  lemma HintExact(c: Config, p: Pool, raw: nat, succeeded: nat, busy: set<SessionId>)
    requires Valid(p) && p.hold.None? && c.baseline <= c.poolTargetSize <= succeeded
    requires busy <= IdSet(p.slots)
    ensures |ApplyDesired(c.poolTargetSize, c.baseline, p, raw, succeeded, busy, busy).slots|
            == HintSize(ClampDesired(raw, c.baseline, c.poolTargetSize), |p.slots|, |busy|)
  {
    AdjustExact(c.poolTargetSize, p, ClampDesired(raw, c.baseline, c.poolTargetSize), succeeded, busy);
  }

  lemma AdjustExact(size: nat, p: Pool, desired: nat, succeeded: nat, busy: set<SessionId>)
    requires Valid(p) && p.hold.None? && busy <= IdSet(p.slots) && desired <= size <= succeeded
    ensures |AdjustTo(size, p, desired, succeeded, busy, busy).slots| == HintSize(desired, |p.slots|, |busy|)
  {
    if desired > |p.slots| {
      ScaleExact(size, p, desired, succeeded);
    } else if desired < |p.slots| {
      DrainExact(size, p, desired, busy);
    }
  }
}
