/**
 * Where sessions go over whole runs. In any run whose migrations start with nothing outstanding, or
 * have nothing to move, the slots are the logical size at the start, plus scale-ups, minus sessions
 * drained that nobody replaced, plus the held sources still present.
 */
module Ledger {
  import opened Collections
  import opened Planning
  import opened PoolState
  import opened PoolFacts
  import opened Migration
  import opened Disconnects
  import opened PoolRuns

  /** Retire loops watch only held sources, or ids that are gone; a hold is for the primary gateway. */
  ghost predicate Tracked(s: System) {
    && Valid(s.pool)
    && (forall id :: id in s.retiring ==> id < s.pool.nextId)
    && s.retiring * IdSet(s.pool.slots) <= Outstanding(s.pool)
    && (s.pool.hold.Some? ==> s.pool.hold.value.target == s.pool.primary)
  }

  /** A migrate call finds no held source outstanding, or repeats the primary with nothing to move. */
  ghost predicate Accounted(s: System, act: Act) {
    act.MigrateCall? ==>
      || Outstanding(s.pool) == {}
      || (act.url == s.pool.primary && PlanFor(PruneHold(s.pool), act.url, act.share).toMove == 0)
  }

  /** Drained sessions that were not held, so that nothing replaces them. */
  function DrainLoss(c: Config, p: Pool, count: Option<nat>, fraction: Option<real>,
                     busy: set<SessionId>, busyAtCheck: set<SessionId>): nat
  {
    |Drained(c.poolTargetSize, p, count, fraction, busy, busyAtCheck) - Outstanding(p)|
  }

  function LostBy(c: Config, s: System, act: Act): nat {
    match act
    case DrainCall(count, fraction, busy, busyAtCheck) => DrainLoss(c, s.pool, count, fraction, busy, busyAtCheck)
    case Hint(raw, _, busy, busyAtCheck) =>
      var desired, n := ClampDesired(raw, c.baseline, c.poolTargetSize), |s.pool.slots|;
      if desired < n then DrainLoss(c, s.pool, Some(n - desired), None, busy, busyAtCheck) else 0
    case _ => 0
  }

  function LostIn(c: Config, s: System, acts: seq<Act>): nat {
    if acts == [] then 0
    else LostIn(c, s, acts[..|acts| - 1]) + LostBy(c, Run(c, s, acts[..|acts| - 1]), acts[|acts| - 1])
  }

  ghost predicate AccountedRun(c: Config, s: System, acts: seq<Act>) {
    forall i :: 0 <= i < |acts| ==> Accounted(Run(c, s, acts[..i]), acts[i])
  }

  lemma AccountedFront(c: Config, s: System, acts: seq<Act>)
    requires AccountedRun(c, s, acts) && acts != []
    ensures
      var n := |acts| - 1;
      && AccountedRun(c, s, acts[..n]) && Accounted(Run(c, s, acts[..n]), acts[n])
      && Run(c, s, acts) == Exec(c, Run(c, s, acts[..n]), acts[n])
  {
    var front := acts[..|acts| - 1];
    assert forall i :: 0 <= i < |front| ==> front[..i] == acts[..i];
  }

  // ---------------------------------------------------------------- one step

  /** The balance of a step: tracked again, and the logical size changed by what was added and lost. */
  ghost predicate Balanced(s: System, s': System, lost: nat) {
    Tracked(s') && Logical(s'.pool) == Logical(s.pool) + (s'.added - s.added) - lost
  }

  lemma RemovalBalance(s: System, gone: set<SessionId>)
    requires Tracked(s) && gone <= IdSet(s.pool.slots)
    ensures Balanced(s, s.(pool := s.pool.(slots := RemoveIds(s.pool.slots, gone))), |gone - Outstanding(s.pool)|)
  {
    RemovalLogical(s.pool, gone);
    RemoveIdsMembers(s.pool.slots, gone);
  }

  lemma RetireBalance(c: Config, s: System, id: SessionId, busy: set<SessionId>)
    requires Tracked(s)
    ensures Balanced(s, Exec(c, s, Retire(id, busy)), 0)
  {
    RetireIsRemoval(c, s, id, busy);
    if Retires(s, id, busy) {
      SourceTargetIds(s.pool.slots, s.pool.primary);
      assert {id} - Outstanding(s.pool) == {};
      RemovalBalance(s, {id});
    }
  }

  predicate Retires(s: System, id: SessionId, busy: set<SessionId>) {
    id in s.retiring && id in Sources(s.pool.slots, s.pool.primary) && id !in busy
  }

  lemma RetireIsRemoval(c: Config, s: System, id: SessionId, busy: set<SessionId>)
    ensures Exec(c, s, Retire(id, busy))
            == if Retires(s, id, busy) then s.(pool := s.pool.(slots := RemoveIds(s.pool.slots, {id}))) else s
  {
  }

  lemma ForgetBalance(c: Config, s: System, id: SessionId)
    requires Tracked(s)
    ensures Balanced(s, Exec(c, s, Forget(id)), 0)
  {
    if id in s.retiring && id !in Sources(s.pool.slots, s.pool.primary) {
      ForgetLogical(s.pool, id);
    }
  }

  lemma DrainBalance(c: Config, s: System, count: Option<nat>, fraction: Option<real>,
                     busy: set<SessionId>, busyAtCheck: set<SessionId>)
    requires Tracked(s)
    ensures Balanced(s, Exec(c, s, DrainCall(count, fraction, busy, busyAtCheck)),
                     DrainLoss(c, s.pool, count, fraction, busy, busyAtCheck))
  {
    var gone := Drained(c.poolTargetSize, s.pool, count, fraction, busy, busyAtCheck);
    DrainedFacts(c.poolTargetSize, s.pool, count, fraction, busy, busyAtCheck);
    DrainIsRemoval(c, s, count, fraction, busy, busyAtCheck);
    RemovalBalance(s, gone);
  }

  lemma ConnectBalance(s: System, n: nat, succeeded: nat)
    requires Tracked(s)
    ensures
      var q := ConnectMany(s.pool, n, succeeded);
      |s.pool.slots| <= |q.slots| && Balanced(s, System(q, s.retiring, s.added + |q.slots| - |s.pool.slots|), 0)
  {
    ConnectLogical(s.pool, n, succeeded);
    DialedIds(s.pool.slots, Min(n, succeeded), s.pool.primary, s.pool.nextId);
  }

  lemma ScaleBalance(c: Config, s: System, targetSize: nat, succeeded: nat)
    requires Tracked(s)
    ensures Balanced(s, Exec(c, s, ScaleCall(targetSize, succeeded)), 0)
  {
    var plan := PlanPoolScale(c.poolTargetSize, |s.pool.slots|, targetSize);
    if !plan.blocked {
      ConnectBalance(s, plan.toAdd, succeeded);
    }
  }

  lemma HintScaleBalance(c: Config, s: System, raw: nat, succeeded: nat, busy: set<SessionId>,
                         busyAtCheck: set<SessionId>)
    requires Tracked(s) && ClampDesired(raw, c.baseline, c.poolTargetSize) >= |s.pool.slots|
    ensures Balanced(s, Exec(c, s, Hint(raw, succeeded, busy, busyAtCheck)), 0)
  {
    var desired := ClampDesired(raw, c.baseline, c.poolTargetSize);
    if desired > |s.pool.slots| {
      HintScales(c, s, raw, succeeded, busy, busyAtCheck);
      ScaleBalance(c, s, desired, succeeded);
    } else {
      HintRests(c, s, raw, succeeded, busy, busyAtCheck);
    }
  }

  lemma HintDrainBalance(c: Config, s: System, raw: nat, succeeded: nat, busy: set<SessionId>,
                         busyAtCheck: set<SessionId>)
    requires Tracked(s) && ClampDesired(raw, c.baseline, c.poolTargetSize) < |s.pool.slots|
    ensures
      var count := |s.pool.slots| - ClampDesired(raw, c.baseline, c.poolTargetSize);
      Balanced(s, Exec(c, s, Hint(raw, succeeded, busy, busyAtCheck)),
               DrainLoss(c, s.pool, Some(count), None, busy, busyAtCheck))
  {
    var count := |s.pool.slots| - ClampDesired(raw, c.baseline, c.poolTargetSize);
    HintDrains(c, s, raw, succeeded, busy, busyAtCheck);
    var hinted := Exec(c, s, Hint(raw, succeeded, busy, busyAtCheck));
    DrainedBalance(c, s, hinted, Some(count), None, busy, busyAtCheck);
  }

  lemma DrainedBalance(c: Config, s: System, s': System, count: Option<nat>, fraction: Option<real>,
                       busy: set<SessionId>, busyAtCheck: set<SessionId>)
    requires Tracked(s) && s' == Exec(c, s, DrainCall(count, fraction, busy, busyAtCheck))
    ensures Balanced(s, s', DrainLoss(c, s.pool, count, fraction, busy, busyAtCheck))
  {
    DrainBalance(c, s, count, fraction, busy, busyAtCheck);
  }

  lemma HintBalance(c: Config, s: System, raw: nat, succeeded: nat, busy: set<SessionId>, busyAtCheck: set<SessionId>)
    requires Tracked(s)
    ensures
      var act := Hint(raw, succeeded, busy, busyAtCheck);
      Balanced(s, Exec(c, s, act), LostBy(c, s, act))
  {
    HintLoss(c, s, raw, succeeded, busy, busyAtCheck);
    if ClampDesired(raw, c.baseline, c.poolTargetSize) < |s.pool.slots| {
      HintDrainBalance(c, s, raw, succeeded, busy, busyAtCheck);
    } else {
      HintScaleBalance(c, s, raw, succeeded, busy, busyAtCheck);
    }
  }

  lemma HintLoss(c: Config, s: System, raw: nat, succeeded: nat, busy: set<SessionId>, busyAtCheck: set<SessionId>)
    ensures
      var desired, n := ClampDesired(raw, c.baseline, c.poolTargetSize), |s.pool.slots|;
      LostBy(c, s, Hint(raw, succeeded, busy, busyAtCheck))
      == if desired < n then DrainLoss(c, s.pool, Some(n - desired), None, busy, busyAtCheck) else 0
  {
  }

  lemma PruneBalance(s: System)
    requires Tracked(s)
    ensures Balanced(s, s.(pool := PruneHold(s.pool)), 0)
  {
    PruneKeepsLogical(s.pool);
  }

  /** What a migration that starts with nothing outstanding leaves behind. */
  ghost predicate CleanResult(p: Pool, q: Pool) {
    && Valid(q) && Logical(q) == |p.slots| && ToSet(Pending(q)) == Outstanding(q)
    && (q.hold.Some? ==> q.hold.value.target == q.primary)
    && p.nextId <= q.nextId && forall x :: x in IdSet(q.slots) ==> x in IdSet(p.slots) || p.nextId <= x
  }

  lemma CleanMigration(p: Pool, url: string, share: real, busy: set<SessionId>, budget: nat)
    requires Valid(p) && Outstanding(p) == {}
    ensures CleanResult(p, Migrate(p, url, share, busy, budget).0)
  {
    MigrationConserves(p, url, share, busy, budget);
    MigrationIds(p, url, share, busy, budget);
  }

  /** The retire loops after a clean migration watch the newly held sources, and ids that are gone. */
  lemma CleanMigrationWatch(s: System, q: Pool, retiring: set<SessionId>)
    requires Tracked(s) && Outstanding(s.pool) == {} && CleanResult(s.pool, q)
    requires retiring <= s.retiring + ToSet(Pending(q))
    ensures Balanced(s, System(q, retiring, s.added), 0)
  {
    assert s.retiring * IdSet(s.pool.slots) == {};
    forall id | id in retiring
      ensures id < q.nextId && (id in IdSet(q.slots) ==> id in Outstanding(q))
    {
      if id in s.retiring {
        assert id !in s.retiring * IdSet(s.pool.slots);
      }
    }
  }

  lemma CleanMigrationBalance(c: Config, s: System, url: string, share: real, busy: set<SessionId>, budget: nat)
    requires Tracked(s) && Outstanding(s.pool) == {}
    ensures Balanced(s, Exec(c, s, MigrateCall(url, share, busy, budget)), 0)
  {
    CleanMigration(s.pool, url, share, busy, budget);
    var s' := Exec(c, s, MigrateCall(url, share, busy, budget));
    CleanMigrationWatch(s, s'.pool, s'.retiring);
  }

  lemma RepeatBalance(c: Config, s: System, share: real, busy: set<SessionId>, budget: nat)
    requires Tracked(s) && PlanFor(PruneHold(s.pool), s.pool.primary, share).toMove == 0
    ensures Exec(c, s, MigrateCall(s.pool.primary, share, busy, budget)) == s.(pool := PruneHold(s.pool))
  {
    assert s.pool.(primary := s.pool.primary) == s.pool;
    ZeroMove(s.pool, s.pool.primary, share, busy, budget);
  }

  lemma StepLedger(c: Config, s: System, act: Act)
    requires Tracked(s) && Accounted(s, act)
    ensures Balanced(s, Exec(c, s, act), LostBy(c, s, act))
  {
    match act
    case Retire(id, busy) => RetireBalance(c, s, id, busy);
    case Forget(id) => ForgetBalance(c, s, id);
    case Abandon(_) =>
    case DrainCall(count, fraction, busy, busyAtCheck) => DrainBalance(c, s, count, fraction, busy, busyAtCheck);
    case ScaleCall(targetSize, succeeded) => ScaleBalance(c, s, targetSize, succeeded);
    case Hint(raw, succeeded, busy, busyAtCheck) => HintBalance(c, s, raw, succeeded, busy, busyAtCheck);
    case MigrateCall(url, share, busy, budget) =>
      if Outstanding(s.pool) == {} {
        CleanMigrationBalance(c, s, url, share, busy, budget);
      } else {
        RepeatBalance(c, s, share, busy, budget);
        PruneBalance(s);
      }
  }

  // ---------------------------------------------------------------- whole runs

  /** The size law over every accounted run, for any number of migrations, targets and failed dials. */
  lemma {:induction false} SizeLaw(c: Config, s: System, acts: seq<Act>)
    requires Tracked(s) && AccountedRun(c, s, acts)
    ensures
      var s' := Run(c, s, acts);
      && Tracked(s')
      && |s'.pool.slots| == Logical(s.pool) + (s'.added - s.added) - LostIn(c, s, acts) + |Outstanding(s'.pool)|
  {
    if acts != [] {
      var n := |acts| - 1;
      AccountedFront(c, s, acts);
      SizeLaw(c, s, acts[..n]);
      StepLedger(c, Run(c, s, acts[..n]), acts[n]);
    }
  }

  lemma BootedIsTracked(c: Config, url: string, fraction: Option<real>, succeeded: nat)
    ensures
      var s := Booted(c, url, fraction, succeeded);
      && Tracked(s) && Outstanding(s.pool) == {}
      && Logical(s.pool) == |s.pool.slots| == Min(BootSessionCount(c.poolTargetSize, c.baseline, fraction), succeeded)
  {
    ConnectLogical(Pool([], None, url, 0), BootSessionCount(c.poolTargetSize, c.baseline, fraction), succeeded);
  }

  /** From boot: sessions dialed at boot, plus scale-ups, minus unheld drains, plus held sources present. */
  lemma SizeFromBoot(c: Config, url: string, fraction: Option<real>, succeeded: nat, acts: seq<Act>)
    requires AccountedRun(c, Booted(c, url, fraction, succeeded), acts)
    ensures
      var s0 := Booted(c, url, fraction, succeeded);
      var s := Run(c, s0, acts);
      |s.pool.slots| == Min(BootSessionCount(c.poolTargetSize, c.baseline, fraction), succeeded)
                        + s.added - LostIn(c, s0, acts) + |Outstanding(s.pool)|
  {
    BootedIsTracked(c, url, fraction, succeeded);
    SizeLaw(c, Booted(c, url, fraction, succeeded), acts);
  }
}
