/**
 * A migration episode: from a migrate call that armed a hold until the hold clears, under every
 * interleaving of retires, drains, scale-ups, hints and repeats of the same migration.
 */
module Episode {
  import opened Collections
  import opened Planning
  import opened PoolState
  import opened PoolFacts
  import opened Migration
  import opened PoolRuns
  import opened Disconnects
  import opened Ledger

  /**
   * What an episode is about: the pool size before the migration, the target gateway, how many
   * sessions the migration had to bring there, and whether it moves the whole pool.
   */
  datatype Goal = Goal(base: nat, target: string, quota: nat, whole: bool)

  ghost predicate GoalOf(g: Goal, target: string, fraction: real) {
    && 0.0 <= fraction <= 1.0
    && g.target == target && g.quota == Share(g.base, fraction) && g.whole == (fraction == 1.0)
  }

  /** `act` starts no migration with another goal. */
  ghost predicate Serves(act: Act, g: Goal) {
    act.MigrateCall? ==> GoalOf(g, act.url, act.share)
  }

  /** Sizes that every step of an episode keeps. */
  ghost predicate Sized(s: System, g: Goal) {
    && Valid(s.pool) && s.pool.primary == g.target
    && Logical(s.pool) == g.base + s.added
    && g.quota + s.added <= OnTarget(s.pool.slots, g.target)
  }

  /** The invariant while the hold is armed. */
  ghost predicate Held(s: System, g: Goal) {
    && Sized(s, g)
    && s.pool.hold.Some? && s.pool.hold.value.target == g.target
    && s.pool.hold.value.keepSource == !g.whole
    && (g.whole ==> Sources(s.pool.slots, g.target) <= ToSet(Pending(s.pool)))
    && s.retiring * Sources(s.pool.slots, g.target) <= ToSet(Pending(s.pool))
  }

  /** The sessions `act` saw busy when it decided. */
  function SeenBusy(act: Act): set<SessionId> {
    match act
    case Retire(_, busy) => busy
    case DrainCall(_, _, busy, busyAtCheck) => busy + busyAtCheck
    case Hint(_, _, busy, busyAtCheck) => busy + busyAtCheck
    case MigrateCall(_, _, busy, _) => busy
    case _ => {}
  }

  /**
   * From `s` to `s'` every session on the target stayed, and every session that left was a held
   * source that was not seen busy.
   */
  ghost predicate LosesOnlyIdleHeld(s: System, s': System, g: Goal, seenBusy: set<SessionId>) {
    && Targets(s.pool.slots, g.target) <= Targets(s'.pool.slots, g.target)
    && IdSet(s.pool.slots) - IdSet(s'.pool.slots) <= Outstanding(s.pool) - seenBusy
  }

  /** What one step of an episode does. */
  ghost predicate GoodStep(s: System, s': System, g: Goal, seenBusy: set<SessionId>) {
    && Sized(s', g)
    && (s'.pool.hold.Some? ==> Held(s', g))
    && LosesOnlyIdleHeld(s, s', g, seenBusy)
  }

  lemma UnchangedStep(s: System, g: Goal, seenBusy: set<SessionId>)
    requires Held(s, g)
    ensures GoodStep(s, s, g, seenBusy)
  {
  }

  /** Removing held, idle sources keeps the episode invariant. */
  lemma RemovalStep(s: System, gone: set<SessionId>, g: Goal, seenBusy: set<SessionId>)
    requires Held(s, g) && gone <= Outstanding(s.pool) && gone !! seenBusy
    ensures GoodStep(s, s.(pool := s.pool.(slots := RemoveIds(s.pool.slots, gone))), g, seenBusy)
  {
    RemovalKeepsHeld(s, gone, g);
    RemovalViews(s.pool.slots, gone, g.target);
  }

  lemma RemovalKeepsHeld(s: System, gone: set<SessionId>, g: Goal)
    requires Held(s, g) && gone <= Outstanding(s.pool)
    ensures Held(s.(pool := s.pool.(slots := RemoveIds(s.pool.slots, gone))), g)
  {
    var s' := s.(pool := s.pool.(slots := RemoveIds(s.pool.slots, gone)));
    HeldRemoval(s.pool, gone);
    RemovalViews(s.pool.slots, gone, g.target);
    assert Sized(s', g);
    assert Pending(s'.pool) == Pending(s.pool);
    assert Sources(s'.pool.slots, g.target) <= Sources(s.pool.slots, g.target);
  }

  lemma RemovalViews(slots: seq<Slot>, gone: set<SessionId>, target: string)
    requires DistinctIds(slots) && gone <= Sources(slots, target)
    ensures Sources(RemoveIds(slots, gone), target) == Sources(slots, target) - gone
    ensures Targets(RemoveIds(slots, gone), target) == Targets(slots, target)
    ensures OnTarget(RemoveIds(slots, gone), target) == OnTarget(slots, target)
    ensures IdSet(slots) - IdSet(RemoveIds(slots, gone)) <= gone
  {
    RemoveIdsMembers(slots, gone);
    RemoveIdsViews(slots, gone, target);
    SlotCounts(slots, target);
    SlotCounts(RemoveIds(slots, gone), target);
    assert Targets(slots, target) - gone == Targets(slots, target);
  }

  lemma RetireStep(c: Config, s: System, id: SessionId, busy: set<SessionId>, g: Goal)
    requires Held(s, g)
    ensures GoodStep(s, Exec(c, s, Retire(id, busy)), g, busy)
  {
    if id in s.retiring && id in Sources(s.pool.slots, g.target) && id !in busy {
      RemovalStep(s, {id}, g, busy);
    } else {
      UnchangedStep(s, g, busy);
    }
  }

  /** Forgetting an id that left the sources removes it from the pending list and nothing else. */
  lemma ForgetViews(p: Pool, id: SessionId)
    requires Valid(p)
    ensures ForgetPending(p, id).slots == p.slots && ForgetPending(p, id).primary == p.primary
    ensures ForgetPending(p, id).hold.Some? ==>
              && p.hold.Some?
              && ForgetPending(p, id).hold.value.target == p.hold.value.target
              && ForgetPending(p, id).hold.value.keepSource == p.hold.value.keepSource
              && ToSet(Pending(ForgetPending(p, id))) == ToSet(Pending(p)) - {id}
  {
  }

  lemma ForgetStep(c: Config, s: System, id: SessionId, g: Goal)
    requires Held(s, g)
    ensures GoodStep(s, Exec(c, s, Forget(id)), g, {})
  {
    if id in s.retiring && id !in Sources(s.pool.slots, g.target) {
      ForgetLogical(s.pool, id);
      ForgetViews(s.pool, id);
      var s' := Exec(c, s, Forget(id));
      assert s' == System(ForgetPending(s.pool, id), s.retiring - {id}, s.added);
    } else {
      UnchangedStep(s, g, {});
    }
  }

  /** What a drain takes out of a pool with an armed hold is held. */
  lemma DrainsOnlyHeld(c: Config, s: System, count: Option<nat>, fraction: Option<real>, busy: set<SessionId>,
                       busyAtCheck: set<SessionId>, g: Goal)
    requires Held(s, g)
    ensures
      var gone := Drained(c.poolTargetSize, s.pool, count, fraction, busy, busyAtCheck);
      gone <= Outstanding(s.pool) && gone !! busy + busyAtCheck
  {
    DrainedFacts(c.poolTargetSize, s.pool, count, fraction, busy, busyAtCheck);
    if !g.whole {
      assert KeepsSource(s.pool);
    }
  }

  lemma DrainStep(c: Config, s: System, count: Option<nat>, fraction: Option<real>, busy: set<SessionId>,
                  busyAtCheck: set<SessionId>, g: Goal)
    requires Held(s, g)
    ensures GoodStep(s, Exec(c, s, DrainCall(count, fraction, busy, busyAtCheck)), g, busy + busyAtCheck)
  {
    var gone := Drained(c.poolTargetSize, s.pool, count, fraction, busy, busyAtCheck);
    DrainsOnlyHeld(c, s, count, fraction, busy, busyAtCheck, g);
    DrainIsRemoval(c, s, count, fraction, busy, busyAtCheck);
    RemovalStep(s, gone, g, busy + busyAtCheck);
  }

  lemma ConnectStep(s: System, n: nat, succeeded: nat, g: Goal, seenBusy: set<SessionId>)
    requires Held(s, g)
    ensures
      var q := ConnectMany(s.pool, n, succeeded);
      && |s.pool.slots| <= |q.slots|
      && GoodStep(s, System(q, s.retiring, s.added + |q.slots| - |s.pool.slots|), g, seenBusy)
  {
    var q := ConnectMany(s.pool, n, succeeded);
    ConnectLogical(s.pool, n, succeeded);
    assert IdSet(s.pool.slots) <= IdSet(q.slots) by {
      assert forall x :: x in s.pool.slots ==> x in q.slots;
    }
    assert Held(System(q, s.retiring, s.added + |q.slots| - |s.pool.slots|), g);
  }

  lemma ScaleStep(c: Config, s: System, targetSize: nat, succeeded: nat, g: Goal, seenBusy: set<SessionId>)
    requires Held(s, g)
    ensures GoodStep(s, Exec(c, s, ScaleCall(targetSize, succeeded)), g, seenBusy)
  {
    var plan := PlanPoolScale(c.poolTargetSize, |s.pool.slots|, targetSize);
    if plan.blocked {
      UnchangedStep(s, g, seenBusy);
    } else {
      ConnectStep(s, plan.toAdd, succeeded, g, seenBusy);
    }
  }

  /** The share of the grown pool is already on the target, so there is nothing left to plan. */
  lemma NothingToMove(s: System, target: string, fraction: real, g: Goal)
    requires Held(s, g) && GoalOf(g, target, fraction)
    ensures Prepared(s.pool, g.target) == PruneHold(s.pool)
    ensures PlanFor(PruneHold(s.pool), g.target, fraction).toMove == 0
  {
    assert s.pool.(primary := g.target) == s.pool;
    PlanIsMet(s.pool, g.target, fraction, g.base, s.added);
  }

  lemma PlanIsMet(p: Pool, target: string, fraction: real, base: nat, added: nat)
    requires Valid(p) && 0.0 <= fraction <= 1.0
    requires Logical(p) == base + added && Share(base, fraction) + added <= OnTarget(p.slots, target)
    ensures PlanFor(PruneHold(p), target, fraction).toMove == 0
  {
    PlanAfterPrune(p, target, fraction);
    GrownShareIsMet(base, added, OnTarget(p.slots, target), fraction);
  }

  /**
   * While the hold is armed, repeating the migration moves and dials nothing, whatever the busy
   * sessions and even if every dial would fail; at most it prunes the hold.
   */
  lemma RepeatMovesNothing(s: System, target: string, fraction: real, busy: set<SessionId>, budget: nat, g: Goal)
    requires Held(s, g) && GoalOf(g, target, fraction)
    ensures
      var (q, r) := Migrate(s.pool, target, fraction, busy, budget);
      q == PruneHold(s.pool) && q.slots == s.pool.slots && r.Migrated? && r.moved == 0
  {
    NothingToMove(s, target, fraction, g);
    ZeroMove(s.pool, target, fraction, busy, budget);
  }

  lemma PruneStep(s: System, g: Goal, seenBusy: set<SessionId>)
    requires Held(s, g)
    ensures GoodStep(s, s.(pool := PruneHold(s.pool)), g, seenBusy)
  {
    PruneKeepsLogical(s.pool);
    assert ToSet(Pending(PruneHold(s.pool))) == ToSet(Pending(s.pool)) * Sources(s.pool.slots, g.target);
  }

  /** Every step of an episode keeps its sizes, loses no target session, and removes only idle held sources. */
  lemma EpisodeStep(c: Config, s: System, act: Act, g: Goal)
    requires Held(s, g) && Serves(act, g)
    ensures GoodStep(s, Exec(c, s, act), g, SeenBusy(act))
  {
    match act
    case Retire(id, busy) => RetireStep(c, s, id, busy, g);
    case Forget(id) => ForgetStep(c, s, id, g);
    case Abandon(id) => AbandonStep(c, s, id, g);
    case DrainCall(count, f, busy, busyAtCheck) => DrainStep(c, s, count, f, busy, busyAtCheck, g);
    case ScaleCall(targetSize, succeeded) => ScaleStep(c, s, targetSize, succeeded, g, {});
    case Hint(wanted, succeeded, busy, busyAtCheck) => HintStep(c, s, wanted, succeeded, busy, busyAtCheck, g);
    case MigrateCall(url, share, busy, budget) => RepeatStep(c, s, url, share, busy, budget, g);
  }

  lemma HintScaleStep(c: Config, s: System, wanted: nat, succeeded: nat, busy: set<SessionId>,
                      busyAtCheck: set<SessionId>, g: Goal)
    requires Held(s, g) && ClampDesired(wanted, c.baseline, c.poolTargetSize) >= |s.pool.slots|
    ensures GoodStep(s, Exec(c, s, Hint(wanted, succeeded, busy, busyAtCheck)), g, busy + busyAtCheck)
  {
    var desired := ClampDesired(wanted, c.baseline, c.poolTargetSize);
    if desired > |s.pool.slots| {
      HintScales(c, s, wanted, succeeded, busy, busyAtCheck);
      ScaleStep(c, s, desired, succeeded, g, busy + busyAtCheck);
    } else {
      HintRests(c, s, wanted, succeeded, busy, busyAtCheck);
      UnchangedStep(s, g, busy + busyAtCheck);
    }
  }

  lemma HintDrainStep(c: Config, s: System, wanted: nat, succeeded: nat, busy: set<SessionId>,
                      busyAtCheck: set<SessionId>, g: Goal)
    requires Held(s, g) && ClampDesired(wanted, c.baseline, c.poolTargetSize) < |s.pool.slots|
    ensures GoodStep(s, Exec(c, s, Hint(wanted, succeeded, busy, busyAtCheck)), g, busy + busyAtCheck)
  {
    var count := |s.pool.slots| - ClampDesired(wanted, c.baseline, c.poolTargetSize);
    HintDrains(c, s, wanted, succeeded, busy, busyAtCheck);
    DrainStep(c, s, Some(count), None, busy, busyAtCheck, g);
  }

  lemma HintStep(c: Config, s: System, wanted: nat, succeeded: nat, busy: set<SessionId>, busyAtCheck: set<SessionId>,
                 g: Goal)
    requires Held(s, g)
    ensures GoodStep(s, Exec(c, s, Hint(wanted, succeeded, busy, busyAtCheck)), g, busy + busyAtCheck)
  {
    if ClampDesired(wanted, c.baseline, c.poolTargetSize) < |s.pool.slots| {
      HintDrainStep(c, s, wanted, succeeded, busy, busyAtCheck, g);
    } else {
      HintScaleStep(c, s, wanted, succeeded, busy, busyAtCheck, g);
    }
  }

  lemma RepeatStep(c: Config, s: System, url: string, share: real, busy: set<SessionId>, budget: nat, g: Goal)
    requires Held(s, g) && GoalOf(g, url, share)
    ensures GoodStep(s, Exec(c, s, MigrateCall(url, share, busy, budget)), g, busy)
  {
    RepeatIsPrune(c, s, url, share, busy, budget, g);
    PruneStep(s, g, busy);
  }

  lemma RepeatIsPrune(c: Config, s: System, url: string, share: real, busy: set<SessionId>, budget: nat, g: Goal)
    requires Held(s, g) && GoalOf(g, url, share)
    ensures Exec(c, s, MigrateCall(url, share, busy, budget)) == s.(pool := PruneHold(s.pool))
  {
    RepeatMovesNothing(s, url, share, busy, budget, g);
    NothingToMove(s, url, share, g);
  }

  lemma AbandonStep(c: Config, s: System, id: SessionId, g: Goal)
    requires Held(s, g)
    ensures GoodStep(s, Exec(c, s, Abandon(id)), g, {})
  {
    UnchangedStep(s, g, {});
  }

  // ---------------------------------------------------------------- whole episodes

  /** The hold was armed before every step of the run, and no step had another goal. */
  ghost predicate Within(c: Config, s: System, acts: seq<Act>, g: Goal) {
    forall i :: 0 <= i < |acts| ==> Run(c, s, acts[..i]).pool.hold.Some? && Serves(acts[i], g)
  }

  lemma WithinFront(c: Config, s: System, acts: seq<Act>, g: Goal)
    requires Within(c, s, acts, g) && acts != []
    ensures
      var n := |acts| - 1;
      && Within(c, s, acts[..n], g) && Serves(acts[n], g)
      && Run(c, s, acts[..n]).pool.hold.Some? && Run(c, s, acts) == Exec(c, Run(c, s, acts[..n]), acts[n])
  {
    var front := acts[..|acts| - 1];
    assert forall i :: 0 <= i < |front| ==> front[..i] == acts[..i];
  }

  /** The invariant of a run that starts with the hold armed. */
  lemma {:induction false} EpisodeInvariant(c: Config, s: System, acts: seq<Act>, g: Goal)
    requires Held(s, g) && Within(c, s, acts, g)
    ensures Sized(Run(c, s, acts), g)
    ensures Run(c, s, acts).pool.hold.Some? ==> Held(Run(c, s, acts), g)
    ensures Targets(s.pool.slots, g.target) <= Targets(Run(c, s, acts).pool.slots, g.target)
  {
    if acts != [] {
      var n := |acts| - 1;
      WithinFront(c, s, acts, g);
      EpisodeInvariant(c, s, acts[..n], g);
      EpisodeStep(c, Run(c, s, acts[..n]), acts[n], g);
    }
  }

  /** The system right after a migrate call; scale-ups are counted from here. */
  function Started(c: Config, s: System, target: string, fraction: real, busy: set<SessionId>, budget: nat): System {
    Exec(c, s, MigrateCall(target, fraction, busy, budget)).(added := 0)
  }

  /** Whatever retire loops earlier migrations left behind, and whichever dial failed. */
  lemma StartedIsTracked(c: Config, s: System, target: string, fraction: real, busy: set<SessionId>, budget: nat)
    requires Tracked(s) && Outstanding(s.pool) == {}
    ensures
      var s0 := Started(c, s, target, fraction, busy, budget);
      && Tracked(s0) && Logical(s0.pool) == |s.pool.slots|
      && s0.retiring * Sources(s0.pool.slots, target) <= ToSet(Pending(s0.pool))
  {
    StepLedger(c, s, MigrateCall(target, fraction, busy, budget));
    var s0 := Started(c, s, target, fraction, busy, budget);
    SourceTargetIds(s0.pool.slots, target);
    assert Outstanding(s0.pool) <= ToSet(Pending(s0.pool));
  }

  /** A fully dialed migration that armed a hold starts an episode. */
  lemma EpisodeStart(c: Config, s: System, target: string, fraction: real, busy: set<SessionId>, budget: nat)
    requires Tracked(s) && Outstanding(s.pool) == {} && s.pool.slots != [] && |s.pool.slots| <= budget
    requires 0.0 <= fraction <= 1.0 && Started(c, s, target, fraction, busy, budget).pool.hold.Some?
    ensures Held(Started(c, s, target, fraction, busy, budget), FullGoal(s.pool, target, fraction))
  {
    StartedIsTracked(c, s, target, fraction, busy, budget);
    MigrationMeetsShare(s.pool, target, fraction, busy, budget);
  }

  function FullGoal(p: Pool, target: string, fraction: real): Goal
    requires 0.0 <= fraction
  {
    Goal(|p.slots|, target, Share(|p.slots|, fraction), fraction == 1.0)
  }

  /**
   * What holds in every state of an episode that began with pool `p` and is now at `s`, and of
   * the step `next` taken from there: the slots are the old pool plus scale-ups plus the held
   * sources still present; no target session was lost; once the hold clears, the pool is back to
   * its logical size; and while it is armed, `next` loses no target session and removes only
   * held sources that it did not see busy.
   */
  ghost predicate EpisodeSafe(c: Config, p: Pool, s0: System, s: System, next: Act, g: Goal) {
    && |s.pool.slots| == |p.slots| + s.added + |Outstanding(s.pool)|
    && Targets(s0.pool.slots, g.target) <= Targets(s.pool.slots, g.target)
    && (s.pool.hold.None? ==> |s.pool.slots| == |p.slots| + s.added)
    && (s.pool.hold.Some? && Serves(next, g) ==> LosesOnlyIdleHeld(s, Exec(c, s, next), g, SeenBusy(next)))
  }

  lemma EpisodeIsSafe(c: Config, p: Pool, s0: System, acts: seq<Act>, next: Act, g: Goal)
    requires Held(s0, g) && g.base == |p.slots| && Within(c, s0, acts, g)
    ensures EpisodeSafe(c, p, s0, Run(c, s0, acts), next, g)
  {
    EpisodeInvariant(c, s0, acts, g);
    var s := Run(c, s0, acts);
    if s.pool.hold.Some? && Serves(next, g) {
      EpisodeStep(c, s, next, g);
    }
  }

  /**
   * A migration that found nothing outstanding and whose dials succeeded, through any run in
   * which the hold stays armed: the episode is safe, and the same migration, repeated at any
   * point, moves and dials nothing.
   */
  lemma MigrationEpisode(c: Config, s: System, target: string, fraction: real, busy: set<SessionId>, budget: nat,
                         acts: seq<Act>, next: Act, busy': set<SessionId>, budget': nat)
    requires Tracked(s) && Outstanding(s.pool) == {} && s.pool.slots != [] && |s.pool.slots| <= budget
    requires 0.0 <= fraction <= 1.0 && Started(c, s, target, fraction, busy, budget).pool.hold.Some?
    requires Within(c, Started(c, s, target, fraction, busy, budget), acts, FullGoal(s.pool, target, fraction))
    ensures
      var s0 := Started(c, s, target, fraction, busy, budget);
      var s' := Run(c, s0, acts);
      && EpisodeSafe(c, s.pool, s0, s', next, FullGoal(s.pool, target, fraction))
      && (s'.pool.hold.Some? ==>
            var (q, r) := Migrate(s'.pool, target, fraction, busy', budget');
            q.slots == s'.pool.slots && r.Migrated? && r.moved == 0)
  {
    var g := FullGoal(s.pool, target, fraction);
    var s0 := Started(c, s, target, fraction, busy, budget);
    EpisodeStart(c, s, target, fraction, busy, budget);
    EpisodeIsSafe(c, s.pool, s0, acts, next, g);
    EpisodeInvariant(c, s0, acts, g);
    if Run(c, s0, acts).pool.hold.Some? {
      RepeatMovesNothing(Run(c, s0, acts), target, fraction, busy', budget', g);
    }
  }

  // ---------------------------------------------------------------- migrations that stop at a failed dial

  /** What a migration moving `fraction` of the pool still owes after any failed dial. */
  function PartialGoal(p: Pool, target: string): Goal {
    Goal(|p.slots|, target, 0, false)
  }

  lemma NothingLostInDrain(c: Config, s: System, count: Option<nat>, fraction: Option<real>, busy: set<SessionId>,
                           busyAtCheck: set<SessionId>, g: Goal)
    requires Held(s, g)
    ensures DrainLoss(c, s.pool, count, fraction, busy, busyAtCheck) == 0
  {
    DrainsOnlyHeld(c, s, count, fraction, busy, busyAtCheck, g);
    assert Drained(c.poolTargetSize, s.pool, count, fraction, busy, busyAtCheck) - Outstanding(s.pool) == {};
  }

  lemma NothingLostInStep(c: Config, s: System, act: Act, g: Goal)
    requires Held(s, g)
    ensures LostBy(c, s, act) == 0
  {
    match act
    case DrainCall(count, fraction, busy, busyAtCheck) =>
      NothingLostInDrain(c, s, count, fraction, busy, busyAtCheck, g);
    case Hint(raw, succeeded, busy, busyAtCheck) =>
      HintLoss(c, s, raw, succeeded, busy, busyAtCheck);
      var count := Monus(|s.pool.slots|, ClampDesired(raw, c.baseline, c.poolTargetSize));
      NothingLostInDrain(c, s, Some(count), None, busy, busyAtCheck, g);
    case _ =>
  }

  lemma {:induction false} NothingLostInEpisode(c: Config, s: System, acts: seq<Act>, g: Goal)
    requires Held(s, g) && Within(c, s, acts, g)
    ensures LostIn(c, s, acts) == 0
  {
    if acts != [] {
      var n := |acts| - 1;
      WithinFront(c, s, acts, g);
      NothingLostInEpisode(c, s, acts[..n], g);
      EpisodeInvariant(c, s, acts[..n], g);
      NothingLostInStep(c, Run(c, s, acts[..n]), acts[n], g);
    }
  }

  /**
   * A migration of part or all of the pool that stopped at any dial, through every accounted run
   * after it: the slots are the old pool, plus scale-ups, minus unheld sessions drained, plus the
   * held sources still present. While the hold of a partial migration is armed nothing is drained
   * that is not held, and the run is as safe as any episode.
   */
  lemma InterruptedEpisode(c: Config, s: System, target: string, fraction: real, busy: set<SessionId>, budget: nat,
                           acts: seq<Act>, next: Act)
    requires Tracked(s) && Outstanding(s.pool) == {}
    requires AccountedRun(c, Started(c, s, target, fraction, busy, budget), acts)
    ensures
      var s0, g := Started(c, s, target, fraction, busy, budget), PartialGoal(s.pool, target);
      var s' := Run(c, s0, acts);
      && |s'.pool.slots| == |s.pool.slots| + s'.added - LostIn(c, s0, acts) + |Outstanding(s'.pool)|
      && (fraction < 1.0 && s0.pool.hold.Some? && Within(c, s0, acts, g) ==>
            LostIn(c, s0, acts) == 0 && EpisodeSafe(c, s.pool, s0, s', next, g))
  {
    var s0, g := Started(c, s, target, fraction, busy, budget), PartialGoal(s.pool, target);
    StartedIsTracked(c, s, target, fraction, busy, budget);
    SizeLaw(c, s0, acts);
    if fraction < 1.0 && s0.pool.hold.Some? && Within(c, s0, acts, g) {
      MigrationConserves(s.pool, target, fraction, busy, budget);
      NothingLostInEpisode(c, s0, acts, g);
      EpisodeIsSafe(c, s.pool, s0, acts, next, g);
    }
  }

  /**
   * A whole-pool migration that stopped at its second dial, and a drain that then takes the
   * session nobody replaced: one of the two sessions is left, besides the held one.
   */
  lemma InterruptedLoss(c: Config)
    ensures
      var p := Pool([Slot(0, "a"), Slot(1, "a")], None, "a", 2);
      var q := Migrate(p, "b", 1.0, {0, 1}, 1).0;
      && Valid(p) && Outstanding(p) == {} && q == HalfMoved()
      && AfterDrain(c.poolTargetSize, q, Some(1), None, {0}, {}).slots == [Slot(0, "a"), Slot(2, "b")]
      && DrainLoss(c, q, Some(1), None, {0}, {}) == 1
  {
    StoppedHalfway(Pool([Slot(0, "a"), Slot(1, "a")], None, "a", 2));
    DrainedUnheld(c, HalfMoved());
  }

  function HalfMoved(): Pool {
    Pool([Slot(0, "a"), Slot(1, "a"), Slot(2, "b")], Some(Hold("b", [0], false)), "b", 3)
  }

  lemma StoppedHalfway(p: Pool)
    requires p == Pool([Slot(0, "a"), Slot(1, "a")], None, "a", 2)
    ensures Valid(p) && Outstanding(p) == {}
    ensures Migrate(p, "b", 1.0, {0, 1}, 1).0 == HalfMoved()
  {
    var q := Prepared(p, "b");
    TwoSources(p);
    TwoMovable(q);
    TwoPlanned(q);
    MigrateIsMove(p, "b", 1.0, {0, 1}, 1);
    assert PlannedOf(q, "b", 2, {0, 1}) == [0, 1] && [0, 1][..1] == [0];
    var none: seq<SessionId> := [];
    assert IdleMovable(q, "b", {0, 1})[..0] == none && MoveIdle(q, none, "b") == q;
    assert Dialed(1, "b", 2) == [Slot(2, "b")];
    assert q.slots + [Slot(2, "b")] == HalfMoved().slots;
  }

  lemma DrainedUnheld(c: Config, p: Pool)
    requires p == HalfMoved()
    ensures DrainLoss(c, p, Some(1), None, {0}, {}) == 1
    ensures AfterDrain(c.poolTargetSize, p, Some(1), None, {0}, {}) == p.(slots := [Slot(0, "a"), Slot(2, "b")])
  {
    var slots := p.slots;
    assert slots[0] in slots && 0 in Sources(slots, "b") && ToSet([0]) == {0};
    assert slots[1..] == [Slot(1, "a"), Slot(2, "b")] && slots[1..][1..] == [Slot(2, "b")] && [Slot(2, "b")][1..] == [];
    assert DrainCandidates(slots, Some("b"), {0}) == [1];
    assert PlanPoolDrain(c.poolTargetSize, 3, None, Some(1), 1).toDrain == 1;
    assert [1][..1] == [1] && ToSet([1]) == {1};
    assert Drained(c.poolTargetSize, p, Some(1), None, {0}, {}) == {1} && {1} - Outstanding(p) == {1};
    assert RemoveIds(slots, {1}) == [Slot(0, "a"), Slot(2, "b")];
  }

  // ---------------------------------------------------------------- a source the retire loop abandoned

  /** The source is held, still there, and no retire loop watches it. */
  ghost predicate Abandoned(s: System, id: SessionId) {
    id in Outstanding(s.pool) && id !in s.retiring
  }

  lemma AbandonedByDrain(c: Config, s: System, count: Option<nat>, fraction: Option<real>, busy: set<SessionId>,
                         busyAtCheck: set<SessionId>, g: Goal)
    requires Held(s, g) && !g.whole
    ensures Exec(c, s, DrainCall(count, fraction, busy, busyAtCheck)) == s
    ensures DrainReport(c.poolTargetSize, s.pool, count, fraction, busy, busyAtCheck).blocked
  {
    assert KeepsSource(s.pool);
  }

  lemma AbandonedByScale(c: Config, s: System, targetSize: nat, succeeded: nat)
    requires Valid(s.pool)
    ensures Outstanding(Exec(c, s, ScaleCall(targetSize, succeeded)).pool) == Outstanding(s.pool)
  {
    var plan := PlanPoolScale(c.poolTargetSize, |s.pool.slots|, targetSize);
    if !plan.blocked {
      ConnectLogical(s.pool, plan.toAdd, succeeded);
    }
  }

  /** A retire loop touches only the ids it watches. */
  lemma AbandonedByRetire(c: Config, s: System, x: SessionId, busy: set<SessionId>, id: SessionId)
    requires Valid(s.pool) && Abandoned(s, id)
    ensures Abandoned(Exec(c, s, Retire(x, busy)), id)
  {
    RemovalOutstanding(s.pool, {x});
  }

  lemma AbandonedByForget(c: Config, s: System, x: SessionId, id: SessionId, g: Goal)
    requires Held(s, g) && Abandoned(s, id)
    ensures Abandoned(Exec(c, s, Forget(x)), id)
  {
    if x in s.retiring && x !in Sources(s.pool.slots, g.target) {
      ForgetLogical(s.pool, x);
    }
  }

  lemma AbandonedByHint(c: Config, s: System, raw: nat, succeeded: nat, busy: set<SessionId>,
                        busyAtCheck: set<SessionId>, id: SessionId, g: Goal)
    requires Held(s, g) && !g.whole && Abandoned(s, id)
    ensures Abandoned(Exec(c, s, Hint(raw, succeeded, busy, busyAtCheck)), id)
  {
    var desired, n := ClampDesired(raw, c.baseline, c.poolTargetSize), |s.pool.slots|;
    if desired > n {
      HintScales(c, s, raw, succeeded, busy, busyAtCheck);
      AbandonedByScale(c, s, desired, succeeded);
    } else if desired == n {
      HintRests(c, s, raw, succeeded, busy, busyAtCheck);
    } else {
      HintDrains(c, s, raw, succeeded, busy, busyAtCheck);
      AbandonedByDrain(c, s, Some(n - desired), None, busy, busyAtCheck, g);
    }
  }

  lemma AbandonedByRepeat(c: Config, s: System, url: string, share: real, busy: set<SessionId>, budget: nat,
                          id: SessionId, g: Goal)
    requires Held(s, g) && GoalOf(g, url, share) && Abandoned(s, id)
    ensures Abandoned(Exec(c, s, MigrateCall(url, share, busy, budget)), id)
  {
    RepeatIsPrune(c, s, url, share, busy, budget, g);
    PruneKeepsLogical(s.pool);
  }

  lemma AbandonedStep(c: Config, s: System, act: Act, id: SessionId, g: Goal)
    requires Held(s, g) && !g.whole && Serves(act, g) && Abandoned(s, id)
    ensures Abandoned(Exec(c, s, act), id)
  {
    match act
    case Retire(x, busy) => AbandonedByRetire(c, s, x, busy, id);
    case Forget(x) => AbandonedByForget(c, s, x, id, g);
    case Abandon(_) =>
    case DrainCall(count, fraction, busy, busyAtCheck) =>
      AbandonedByDrain(c, s, count, fraction, busy, busyAtCheck, g);
    case ScaleCall(targetSize, succeeded) => AbandonedByScale(c, s, targetSize, succeeded);
    case Hint(raw, succeeded, busy, busyAtCheck) =>
      AbandonedByHint(c, s, raw, succeeded, busy, busyAtCheck, id, g);
    case MigrateCall(url, share, busy, budget) => AbandonedByRepeat(c, s, url, share, busy, budget, id, g);
  }

  lemma {:induction false} AbandonedRun(c: Config, s: System, acts: seq<Act>, id: SessionId, g: Goal)
    requires Held(s, g) && !g.whole && Abandoned(s, id) && forall i :: 0 <= i < |acts| ==> Serves(acts[i], g)
    ensures Held(Run(c, s, acts), g) && Abandoned(Run(c, s, acts), id)
  {
    if acts != [] {
      var n := |acts| - 1;
      var mid := Run(c, s, acts[..n]);
      AbandonedRun(c, s, acts[..n], id, g);
      AbandonedStep(c, mid, acts[n], id, g);
      StaysHeld(c, mid, acts[n], id, g);
      RunLast(c, s, acts);
    }
  }

  lemma StaysHeld(c: Config, s: System, act: Act, id: SessionId, g: Goal)
    requires Held(s, g) && Serves(act, g) && Abandoned(Exec(c, s, act), id)
    ensures Held(Exec(c, s, act), g)
  {
    EpisodeStep(c, s, act, g);
  }

  /**
   * The retire loop drops a held source for good when it turns busy between its two busy checks.
   * In a partial migration nothing in any run takes it out again: the hold never clears, repeating
   * the migration does not help, and every drain is refused and changes nothing.
   */
  lemma AbandonedHoldsForever(c: Config, s: System, id: SessionId, acts: seq<Act>, g: Goal, count: Option<nat>,
                              fraction: Option<real>, busy: set<SessionId>, busyAtCheck: set<SessionId>)
    requires Held(s, g) && !g.whole && id in Outstanding(s.pool)
    requires forall i :: 0 <= i < |acts| ==> Serves(acts[i], g)
    ensures
      var s' := Run(c, Exec(c, s, Abandon(id)), acts);
      && id in Outstanding(s'.pool) && s'.pool.hold.Some?
      && DrainReport(c.poolTargetSize, s'.pool, count, fraction, busy, busyAtCheck).blocked
      && Exec(c, s', DrainCall(count, fraction, busy, busyAtCheck)) == s'
  {
    AbandonStep(c, s, id, g);
    AbandonedRun(c, Exec(c, s, Abandon(id)), acts, id, g);
    AbandonedByDrain(c, Run(c, Exec(c, s, Abandon(id)), acts), count, fraction, busy, busyAtCheck, g);
  }

  ghost predicate AllServe(acts: seq<Act>, g: Goal) {
    forall i :: 0 <= i < |acts| ==> Serves(acts[i], g)
  }

  /** Some run of the episode takes the source out of the held ones. */
  ghost predicate Removable(c: Config, s: System, id: SessionId, g: Goal) {
    exists acts :: AllServe(acts, g) && id !in Outstanding(Run(c, s, acts).pool)
  }

  lemma WatchedIsRemovable(c: Config, s: System, id: SessionId, g: Goal)
    requires Held(s, g) && id in Outstanding(s.pool) && id in s.retiring
    ensures Removable(c, s, id, g)
  {
    var acts := [Retire(id, {})];
    assert acts[..0] == [] && Run(c, s, []) == s;
    RunLast(c, s, acts);
    RemovalOutstanding(s.pool, {id});
    assert AllServe(acts, g);
  }

  /** In a partial migration a held source can still go if and only if a retire loop watches it. */
  lemma RemovableExactlyWhenWatched(c: Config, s: System, id: SessionId, g: Goal)
    requires Held(s, g) && !g.whole && id in Outstanding(s.pool)
    ensures Removable(c, s, id, g) <==> id in s.retiring
  {
    if id in s.retiring {
      WatchedIsRemovable(c, s, id, g);
    } else {
      forall acts | AllServe(acts, g)
        ensures id in Outstanding(Run(c, s, acts).pool)
      {
        AbandonedRun(c, s, acts, id, g);
      }
    }
  }
}
