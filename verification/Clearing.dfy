/** How a hold clears: the retire loops take out every source they watch, and the last one lifts it. */
module Clearing {
  import opened Collections
  import opened Planning
  import opened PoolState
  import opened PoolFacts
  import opened PoolRuns
  import opened Ledger
  import opened Episode

  predicate LoopStep(act: Act) {
    act.Retire? || act.Forget?
  }

  /** The loop takes out one idle source it watches and forgets it. */
  function Round(id: SessionId): seq<Act> {
    [Retire(id, {}), Forget(id)]
  }

  lemma RoundIs(c: Config, s: System, id: SessionId)
    ensures Run(c, s, Round(id)) == Exec(c, Exec(c, s, Retire(id, {})), Forget(id))
  {
    var acts := Round(id);
    assert acts[..1] == [Retire(id, {})] && acts[..1][..0] == [];
    RunLast(c, s, acts);
    RunLast(c, s, acts[..1]);
    assert Run(c, s, []) == s;
  }

  lemma AfterRetire(c: Config, s: System, id: SessionId, g: Goal)
    requires Held(s, g) && id in s.retiring
    ensures
      var s' := Exec(c, s, Retire(id, {}));
      && Held(s', g) && s'.pool.hold == s.pool.hold && s'.retiring == s.retiring && s'.added == s.added
      && id !in Sources(s'.pool.slots, g.target)
  {
    EpisodeStep(c, s, Retire(id, {}), g);
    RemoveIdsViews(s.pool.slots, {id}, g.target);
  }

  lemma AfterForget(c: Config, s: System, id: SessionId, g: Goal)
    requires Held(s, g) && id in s.retiring && id !in Sources(s.pool.slots, g.target)
    ensures
      var s' := Exec(c, s, Forget(id));
      && Sized(s', g) && s'.retiring == s.retiring - {id} && s'.added == s.added
      && (s'.pool.hold.Some? ==> Held(s', g) && ToSet(Pending(s'.pool)) == ToSet(Pending(s.pool)) - {id})
  {
    EpisodeStep(c, s, Forget(id), g);
    ForgetViews(s.pool, id);
  }

  /** One round: the source is no longer pending, and no other source is affected. */
  lemma ClearOne(c: Config, s: System, id: SessionId, g: Goal)
    requires Held(s, g) && id in s.retiring
    ensures
      var s' := Run(c, s, Round(id));
      && Sized(s', g) && s'.retiring == s.retiring - {id} && s'.added == s.added
      && (s'.pool.hold.Some? ==> Held(s', g) && ToSet(Pending(s'.pool)) == ToSet(Pending(s.pool)) - {id})
  {
    RoundIs(c, s, id);
    AfterRetire(c, s, id, g);
    AfterForget(c, Exec(c, s, Retire(id, {})), id, g);
  }

  /** Every pending source is watched by a retire loop. */
  ghost predicate AllWatched(s: System) {
    ToSet(Pending(s.pool)) <= s.retiring
  }

  /** A round on a pending source: one less is pending, or the hold is lifted at the logical size. */
  lemma ClearNext(c: Config, s: System, g: Goal) returns (id: SessionId)
    requires Held(s, g) && AllWatched(s)
    ensures
      var s' := Run(c, s, Round(id));
      && s'.added == s.added
      && if s'.pool.hold.Some?
         then Held(s', g) && AllWatched(s') && |ToSet(Pending(s'.pool))| < |ToSet(Pending(s.pool))|
         else |s'.pool.slots| == g.base + s.added
  {
    id := s.pool.hold.value.pending[0];
    assert id in ToSet(Pending(s.pool));
    ClearOne(c, s, id, g);
    var s' := Run(c, s, Round(id));
    if s'.pool.hold.Some? {
      FewerPending(s, s', id);
    } else {
      ClearedSize(s', g);
    }
  }

  lemma FewerPending(s: System, s': System, id: SessionId)
    requires id in ToSet(Pending(s.pool)) && ToSet(Pending(s'.pool)) == ToSet(Pending(s.pool)) - {id}
    ensures |ToSet(Pending(s'.pool))| < |ToSet(Pending(s.pool))|
  {
  }

  lemma ClearedSize(s: System, g: Goal)
    requires Sized(s, g) && s.pool.hold.None?
    ensures |s.pool.slots| == g.base + s.added
  {
  }

  /** The run consists of retire-loop steps. */
  predicate LoopRun(acts: seq<Act>) {
    forall i :: 0 <= i < |acts| ==> LoopStep(acts[i])
  }

  /**
   * From every state of an episode in which all pending sources are watched, the retire loops
   * alone, finding them idle, lift the hold and leave the pool at its logical size.
   */
  lemma {:induction false} HoldClears(c: Config, s: System, g: Goal) returns (acts: seq<Act>)
    requires Held(s, g) && AllWatched(s)
    ensures LoopRun(acts)
    ensures
      var s' := Run(c, s, acts);
      s'.pool.hold.None? && s'.added == s.added && |s'.pool.slots| == g.base + s.added
    decreases |ToSet(Pending(s.pool))|
  {
    var id := ClearNext(c, s, g);
    var s' := Run(c, s, Round(id));
    acts := Round(id);
    if s'.pool.hold.Some? {
      var more := HoldClears(c, s', g);
      RunConcat(c, s, Round(id), more);
      acts := Round(id) + more;
    }
  }

  /** Without a hold no drain is refused for one. */
  lemma NotRefusedForHold(size: nat, p: Pool, count: Option<nat>, fraction: Option<real>,
                          busy: set<SessionId>, busyAtCheck: set<SessionId>)
    requires p.hold.None?
    ensures DrainReport(size, p, count, fraction, busy, busyAtCheck).reason != Some("migration_hold")
  {
    var r := DrainReport(size, p, count, fraction, busy, busyAtCheck).reason;
    assert "migration_hold"[0] == 'm';
    assert r.Some? ==> r.value != "" && (r.value[0] == 'p' || r.value[0] == 'i');
  }

  // ---------------------------------------------------------------- when it can clear

  /** Pending sources that are gone are still watched, so that the loop will forget them. */
  ghost predicate GoneAreWatched(s: System) {
    ToSet(Pending(s.pool)) <= Outstanding(s.pool) + s.retiring
  }

  /** Some run of the episode lifts the hold. */
  ghost predicate CanClear(c: Config, s: System, g: Goal) {
    exists acts :: AllServe(acts, g) && Run(c, s, acts).pool.hold.None?
  }

  /**
   * In a partial migration the hold can still clear if and only if every held source that is
   * present is watched by a retire loop.
   */
  lemma ClearsExactlyWhenWatched(c: Config, s: System, g: Goal)
    requires Held(s, g) && !g.whole && GoneAreWatched(s)
    ensures CanClear(c, s, g) <==> Outstanding(s.pool) <= s.retiring
  {
    if Outstanding(s.pool) <= s.retiring {
      var acts := HoldClears(c, s, g);
      assert AllServe(acts, g);
    } else {
      var id :| id in Outstanding(s.pool) && id !in s.retiring;
      forall acts | AllServe(acts, g)
        ensures Run(c, s, acts).pool.hold.Some?
      {
        AbandonedRun(c, s, acts, id, g);
      }
    }
  }

  lemma GoneByLoop(c: Config, s: System, act: Act, g: Goal)
    requires Held(s, g) && !g.whole && GoneAreWatched(s) && (LoopStep(act) || act.Abandon?)
    ensures GoneAreWatched(Exec(c, s, act))
  {
    match act
    case Retire(id, busy) => RemovalOutstanding(s.pool, {id});
    case Forget(id) =>
      if id in s.retiring && id !in Sources(s.pool.slots, g.target) {
        ForgetLogical(s.pool, id);
        ForgetViews(s.pool, id);
      }
    case Abandon(_) =>
  }

  lemma GoneByScale(c: Config, s: System, targetSize: nat, succeeded: nat)
    requires Valid(s.pool) && GoneAreWatched(s)
    ensures GoneAreWatched(Exec(c, s, ScaleCall(targetSize, succeeded)))
  {
    AbandonedByScale(c, s, targetSize, succeeded);
  }

  lemma GoneByHint(c: Config, s: System, raw: nat, succeeded: nat, busy: set<SessionId>, busyAtCheck: set<SessionId>,
                   g: Goal)
    requires Held(s, g) && !g.whole && GoneAreWatched(s)
    ensures GoneAreWatched(Exec(c, s, Hint(raw, succeeded, busy, busyAtCheck)))
  {
    var desired, n := ClampDesired(raw, c.baseline, c.poolTargetSize), |s.pool.slots|;
    if desired > n {
      HintScales(c, s, raw, succeeded, busy, busyAtCheck);
      GoneByScale(c, s, desired, succeeded);
    } else if desired == n {
      HintRests(c, s, raw, succeeded, busy, busyAtCheck);
    } else {
      HintDrains(c, s, raw, succeeded, busy, busyAtCheck);
      AbandonedByDrain(c, s, Some(n - desired), None, busy, busyAtCheck, g);
    }
  }

  /** Every step of a partial episode keeps the sources that are gone watched. */
  lemma StepKeepsGoneWatched(c: Config, s: System, act: Act, g: Goal)
    requires Held(s, g) && !g.whole && GoneAreWatched(s) && Serves(act, g)
    ensures GoneAreWatched(Exec(c, s, act))
  {
    match act
    case DrainCall(count, fraction, busy, busyAtCheck) =>
      AbandonedByDrain(c, s, count, fraction, busy, busyAtCheck, g);
    case ScaleCall(targetSize, succeeded) => GoneByScale(c, s, targetSize, succeeded);
    case Hint(raw, succeeded, busy, busyAtCheck) => GoneByHint(c, s, raw, succeeded, busy, busyAtCheck, g);
    case MigrateCall(url, share, busy, budget) =>
      RepeatIsPrune(c, s, url, share, busy, budget, g);
      PruneKeepsLogical(s.pool);
    case _ => GoneByLoop(c, s, act, g);
  }

  lemma {:induction false} RunKeepsGoneWatched(c: Config, s: System, acts: seq<Act>, g: Goal)
    requires Held(s, g) && !g.whole && GoneAreWatched(s) && Within(c, s, acts, g)
    ensures GoneAreWatched(Run(c, s, acts))
  {
    if acts != [] {
      var n := |acts| - 1;
      WithinFront(c, s, acts, g);
      RunKeepsGoneWatched(c, s, acts[..n], g);
      EpisodeInvariant(c, s, acts[..n], g);
      StepKeepsGoneWatched(c, Run(c, s, acts[..n]), acts[n], g);
    }
  }

  // ---------------------------------------------------------------- episodes in which nothing is abandoned

  /** Only forgetting, abandoning and migrating touch the hold or the watched ids. */
  lemma WatchFrame(c: Config, s: System, act: Act)
    requires !act.Forget? && !act.Abandon? && !act.MigrateCall?
    ensures Exec(c, s, act).pool.hold == s.pool.hold && Exec(c, s, act).retiring == s.retiring
  {
  }

  lemma StepKeepsWatch(c: Config, s: System, act: Act, g: Goal)
    requires Held(s, g) && Serves(act, g) && AllWatched(s) && !act.Abandon?
    ensures AllWatched(Exec(c, s, act))
  {
    match act
    case Forget(id) =>
      if id in s.retiring && id !in Sources(s.pool.slots, g.target) {
        ForgetViews(s.pool, id);
      }
    case MigrateCall(url, share, busy, budget) =>
      RepeatIsPrune(c, s, url, share, busy, budget, g);
      PruneKeepsLogical(s.pool);
    case _ => WatchFrame(c, s, act);
  }

  lemma {:induction false} RunKeepsWatch(c: Config, s: System, acts: seq<Act>, g: Goal)
    requires Held(s, g) && AllWatched(s) && Within(c, s, acts, g) && forall i :: 0 <= i < |acts| ==> !acts[i].Abandon?
    ensures AllWatched(Run(c, s, acts))
  {
    if acts != [] {
      var n := |acts| - 1;
      WithinFront(c, s, acts, g);
      RunKeepsWatch(c, s, acts[..n], g);
      EpisodeInvariant(c, s, acts[..n], g);
      StepKeepsWatch(c, Run(c, s, acts[..n]), acts[n], g);
    }
  }

  lemma StartedWatches(c: Config, s: System, target: string, fraction: real, busy: set<SessionId>, budget: nat)
    requires Tracked(s) && Outstanding(s.pool) == {}
    ensures AllWatched(Started(c, s, target, fraction, busy, budget))
  {
    PruneKeepsLogical(s.pool.(primary := target));
    assert Outstanding(s.pool.(primary := target)) == {};
  }

  /**
   * A migration episode can always end: after every run in which the retire loop abandoned no
   * source, the loops alone can lift the hold, and the pool is then back to its old size plus
   * scale-ups and no drain is refused for a migration any more.
   */
  lemma EpisodeCanEnd(c: Config, s: System, target: string, fraction: real, busy: set<SessionId>, budget: nat,
                      acts: seq<Act>) returns (rest: seq<Act>)
    requires Tracked(s) && Outstanding(s.pool) == {} && s.pool.slots != [] && |s.pool.slots| <= budget
    requires 0.0 <= fraction <= 1.0 && Started(c, s, target, fraction, busy, budget).pool.hold.Some?
    requires Within(c, Started(c, s, target, fraction, busy, budget), acts, FullGoal(s.pool, target, fraction))
    requires forall i :: 0 <= i < |acts| ==> !acts[i].Abandon?
    ensures LoopRun(rest)
    ensures
      var s' := Run(c, Started(c, s, target, fraction, busy, budget), acts + rest);
      && s'.pool.hold.None? && |s'.pool.slots| == |s.pool.slots| + s'.added
      && forall count, f, b1, b2 ::
           DrainReport(c.poolTargetSize, s'.pool, count, f, b1, b2).reason != Some("migration_hold")
  {
    var g, s0 := FullGoal(s.pool, target, fraction), Started(c, s, target, fraction, busy, budget);
    EpisodeStart(c, s, target, fraction, busy, budget);
    StartedWatches(c, s, target, fraction, busy, budget);
    rest := EndFrom(c, s0, acts, g);
    var end := Run(c, s0, acts + rest).pool;
    forall count, f, b1, b2
      ensures DrainReport(c.poolTargetSize, end, count, f, b1, b2).reason != Some("migration_hold")
    {
      NotRefusedForHold(c.poolTargetSize, end, count, f, b1, b2);
    }
  }

  lemma EndFrom(c: Config, s0: System, acts: seq<Act>, g: Goal) returns (rest: seq<Act>)
    requires Held(s0, g) && AllWatched(s0) && Within(c, s0, acts, g)
    requires forall i :: 0 <= i < |acts| ==> !acts[i].Abandon?
    ensures LoopRun(rest)
    ensures
      var s' := Run(c, s0, acts + rest);
      s'.pool.hold.None? && |s'.pool.slots| == g.base + s'.added
  {
    EpisodeInvariant(c, s0, acts, g);
    RunKeepsWatch(c, s0, acts, g);
    var mid := Run(c, s0, acts);
    rest := [];
    if mid.pool.hold.Some? {
      rest := HoldClears(c, mid, g);
    } else {
      ClearedSize(mid, g);
      assert Run(c, mid, []) == mid;
    }
    RunConcat(c, s0, acts, rest);
  }
}
