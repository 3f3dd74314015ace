/** What one gateway migration does to the pool, for every busy pattern and every dial failure. */
module Migration {
  import opened Collections
  import opened Planning
  import opened PoolState
  import opened PoolFacts

  /** Idle and busy movable sources partition the sources that are not held. */
  lemma MovableSplit(q: Pool, target: string, busy: set<SessionId>)
    requires Valid(q)
    ensures NoDup(IdleMovable(q, target, busy)) && NoDup(BusyMovable(q, target, busy))
    ensures ToSet(IdleMovable(q, target, busy)) == Sources(q.slots, target) - ToSet(Pending(q)) - busy
    ensures ToSet(BusyMovable(q, target, busy)) == (Sources(q.slots, target) - ToSet(Pending(q))) * busy
    ensures |IdleMovable(q, target, busy)| + |BusyMovable(q, target, busy)|
            == |Sources(q.slots, target)| - |ToSet(Pending(q)) * Sources(q.slots, target)|
  {
    SourceIdsView(q.slots, target);
    SlotCounts(q.slots, target);
    SplitOutside(SourceIds(q.slots, target), ToSet(Pending(q)), busy);
    assert Sources(q.slots, target) * ToSet(Pending(q)) == ToSet(Pending(q)) * Sources(q.slots, target);
  }

  /** Redialing some movable idle sources in place. */
  lemma MoveIdleViews(q: Pool, ids: seq<SessionId>, target: string)
    requires Valid(q) && NoDup(ids) && ToSet(ids) <= Sources(q.slots, target)
    ensures Valid(MoveIdle(q, ids, target))
    ensures |MoveIdle(q, ids, target).slots| == |q.slots|
    ensures Sources(MoveIdle(q, ids, target).slots, target) == Sources(q.slots, target) - ToSet(ids)
    ensures Targets(q.slots, target) <= Targets(MoveIdle(q, ids, target).slots, target)
    ensures OnTarget(MoveIdle(q, ids, target).slots, target) == OnTarget(q.slots, target) + |ids|
  {
    RedialAllViews(q.slots, ids, target, q.nextId);
    var out := MoveIdle(q, ids, target).slots;
    SlotCounts(q.slots, target);
    SlotCounts(out, target);
    NoDupCardinality(ids);
    assert Sources(q.slots, target) == Sources(out, target) + ToSet(ids);
  }

  /** Dialing replacements ahead holds exactly the given sources and leaves them connected. */
  lemma DialAheadViews(q: Pool, ready: seq<SessionId>, target: string, keepSource: bool)
    requires Valid(q) && NoDup(ready) && ToSet(ready) <= Sources(q.slots, target)
    ensures Valid(DialAhead(q, ready, target, keepSource))
    ensures Pending(DialAhead(q, ready, target, keepSource)) == ready
    ensures Outstanding(DialAhead(q, ready, target, keepSource)) == ToSet(ready)
    ensures |DialAhead(q, ready, target, keepSource).slots| == |q.slots| + |ready|
    ensures Logical(DialAhead(q, ready, target, keepSource)) == |q.slots|
    ensures Sources(DialAhead(q, ready, target, keepSource).slots, target) == Sources(q.slots, target)
    ensures Targets(q.slots, target) <= Targets(DialAhead(q, ready, target, keepSource).slots, target)
    ensures OnTarget(DialAhead(q, ready, target, keepSource).slots, target) == OnTarget(q.slots, target) + |ready|
  {
    var out := DialAhead(q, ready, target, keepSource);
    DialedViews(q.slots, |ready|, target, q.nextId);
    SlotCounts(q.slots, target);
    SlotCounts(out.slots, target);
    NoDupCardinality(ready);
    forall x | x in ready
      ensures x < out.nextId
    {
      assert x in ToSet(ready);
      var s :| s in q.slots && s.url != target && s.id == x;
    }
    if ready == [] {
      assert ToSet(ready) == {};
    } else {
      assert ToSet(ready) * Sources(out.slots, target) == ToSet(ready);
    }
  }

  /** The pool a migration plans from, when no held source is outstanding. */
  lemma PreparedClean(p: Pool, target: string)
    requires Valid(p) && Outstanding(p) == {}
    ensures Valid(Prepared(p, target)) && Prepared(p, target).slots == p.slots
    ensures Prepared(p, target).hold == None && Pending(Prepared(p, target)) == []
    ensures Prepared(p, target).nextId == p.nextId && Prepared(p, target).primary == target
    ensures MigrationLogical(Prepared(p, target)) == |p.slots|
  {
    var q := p.(primary := target);
    assert Outstanding(q) == Outstanding(p);
    PruneKeepsLogical(q);
  }

  /** With no hold there are always enough movable sources to move any number of them. */
  lemma EnoughMovable(q: Pool, target: string, toMove: nat, busy: set<SessionId>)
    requires Valid(q) && q.hold.None? && toMove <= |Sources(q.slots, target)|
    ensures toMove == Min(toMove, |IdleMovable(q, target, busy)|) + |PlannedOf(q, target, toMove, busy)|
    ensures |IdleMovable(q, target, busy)| + |BusyMovable(q, target, busy)| == |Sources(q.slots, target)|
  {
    MovableSplit(q, target, busy);
    assert ToSet(Pending(q)) * Sources(q.slots, target) == {};
  }

  /** The first `n` idle movable sources may be redialed. */
  lemma IdlePrefix(q: Pool, target: string, busy: set<SessionId>, n: nat)
    requires Valid(q) && n <= |IdleMovable(q, target, busy)|
    ensures NoDup(IdleMovable(q, target, busy)[..n])
    ensures ToSet(IdleMovable(q, target, busy)[..n]) <= Sources(q.slots, target)
  {
    MovableSplit(q, target, busy);
    PrefixNoDup(IdleMovable(q, target, busy), n);
  }

  /** The pool after the first `n` idle movable sources were redialed. */
  function AfterIdle(q: Pool, target: string, busy: set<SessionId>, n: nat): Pool
    requires n <= |IdleMovable(q, target, busy)|
  {
    MoveIdle(q, IdleMovable(q, target, busy)[..n], target)
  }

  lemma AfterIdleViews(q: Pool, target: string, busy: set<SessionId>, n: nat)
    requires Valid(q) && n <= |IdleMovable(q, target, busy)|
    ensures Valid(AfterIdle(q, target, busy, n))
    ensures |AfterIdle(q, target, busy, n).slots| == |q.slots|
    ensures Sources(AfterIdle(q, target, busy, n).slots, target) <= Sources(q.slots, target)
    ensures Sources(q.slots, target) * busy <= Sources(AfterIdle(q, target, busy, n).slots, target)
    ensures ToSet(Pending(q)) * Sources(q.slots, target)
            == ToSet(Pending(q)) * Sources(AfterIdle(q, target, busy, n).slots, target)
    ensures Targets(q.slots, target) <= Targets(AfterIdle(q, target, busy, n).slots, target)
    ensures OnTarget(AfterIdle(q, target, busy, n).slots, target) == OnTarget(q.slots, target) + n
  {
    var idle := IdleMovable(q, target, busy);
    MovableSplit(q, target, busy);
    PrefixNoDup(idle, n);
    MoveIdleViews(q, idle[..n], target);
  }

  lemma PlannedFacts(q: Pool, target: string, toMove: nat, busy: set<SessionId>, n: nat)
    requires Valid(q) && n <= |IdleMovable(q, target, busy)|
    ensures NoDup(PlannedOf(q, target, toMove, busy))
    ensures ToSet(PlannedOf(q, target, toMove, busy)) <= Sources(q.slots, target) * busy
    ensures ToSet(PlannedOf(q, target, toMove, busy)) <= Sources(AfterIdle(q, target, busy, n).slots, target)
  {
    MovableSplit(q, target, busy);
    AfterIdleViews(q, target, busy, n);
    var busyIds := BusyMovable(q, target, busy);
    PrefixNoDup(busyIds, |PlannedOf(q, target, toMove, busy)|);
  }

  /** With enough successful dials the move is: redial idle sources, then dial ahead for busy ones. */
  lemma SuccessShape(q: Pool, target: string, toMove: nat, keepSource: bool, busy: set<SessionId>, budget: nat)
    requires |IdleMovable(q, target, busy)| + |BusyMovable(q, target, busy)| <= budget
    ensures
      var inPlace := Min(toMove, |IdleMovable(q, target, busy)|);
      var planned := PlannedOf(q, target, toMove, busy);
      var q1 := AfterIdle(q, target, busy, inPlace);
      MoveSessions(q, target, toMove, keepSource, busy, budget)
      == (if planned == [] then q1 else DialAhead(q1, planned, target, keepSource), Some(inPlace + |planned|))
  {
  }

  /** Everything the two phases of a move leave behind, when nothing was held before. */
  ghost predicate MovedInto(q: Pool, out: Pool, target: string, count: nat, planned: seq<SessionId>,
                            keepSource: bool, busy: set<SessionId>)
  {
    && Valid(out) && out.primary == q.primary
    && Pending(out) == planned && Outstanding(out) == ToSet(planned)
    && |out.slots| == |q.slots| + |planned|
    && OnTarget(out.slots, target) == OnTarget(q.slots, target) + count
    && Sources(q.slots, target) * busy <= Sources(out.slots, target) <= Sources(q.slots, target)
    && Targets(q.slots, target) <= Targets(out.slots, target)
    && (out.hold.Some? ==> out.hold.value.target == target && out.hold.value.keepSource == keepSource)
  }

  lemma InPlaceOnly(q: Pool, target: string, keepSource: bool, busy: set<SessionId>, n: nat)
    requires Valid(q) && q.hold.None? && n <= |IdleMovable(q, target, busy)|
    ensures MovedInto(q, AfterIdle(q, target, busy, n), target, n, [], keepSource, busy)
  {
    AfterIdleViews(q, target, busy, n);
    var none: seq<SessionId> := [];
    assert ToSet(none) == {};
  }

  lemma InPlaceThenAhead(q: Pool, target: string, keepSource: bool, busy: set<SessionId>, n: nat, toMove: nat)
    requires Valid(q) && q.hold.None? && n <= |IdleMovable(q, target, busy)|
    requires PlannedOf(q, target, toMove, busy) != []
    ensures
      var planned := PlannedOf(q, target, toMove, busy);
      var out := DialAhead(AfterIdle(q, target, busy, n), planned, target, keepSource);
      MovedInto(q, out, target, n + |planned|, planned, keepSource, busy)
  {
    AfterIdleViews(q, target, busy, n);
    PlannedFacts(q, target, toMove, busy, n);
    DialAheadViews(AfterIdle(q, target, busy, n), PlannedOf(q, target, toMove, busy), target, keepSource);
  }

  /** A fully successful move with nothing held before moves exactly `toMove` sessions. */
  lemma SuccessViews(q: Pool, target: string, toMove: nat, keepSource: bool, busy: set<SessionId>, budget: nat)
    requires Valid(q) && q.hold.None? && |q.slots| <= budget && toMove <= |Sources(q.slots, target)|
    ensures
      var (out, moved) := MoveSessions(q, target, toMove, keepSource, busy, budget);
      moved == Some(toMove)
      && MovedInto(q, out, target, toMove, PlannedOf(q, target, toMove, busy), keepSource, busy)
  {
    EnoughMovable(q, target, toMove, busy);
    SlotCounts(q.slots, target);
    SuccessShape(q, target, toMove, keepSource, busy, budget);
    var inPlace := Min(toMove, |IdleMovable(q, target, busy)|);
    if PlannedOf(q, target, toMove, busy) == [] {
      InPlaceOnly(q, target, keepSource, busy, inPlace);
    } else {
      InPlaceThenAhead(q, target, keepSource, busy, inPlace, toMove);
    }
  }

  /**
   * A migration brought max(already there, `goal`) sessions to the target, kept every source that
   * was busy when classified, and holds busy ones exactly as far as the idle ones fell short.
   */
  ghost predicate Met(p: Pool, target: string, fraction: real, busy: set<SessionId>, goal: int, q: Pool,
                      r: MigrationResult)
  {
    && r.Migrated? && !r.blocked && q.primary == target && Valid(q)
    && r.targetCount == goal
    && r.onTarget == OnTarget(q.slots, target) == Max(OnTarget(p.slots, target), goal)
    && OnTarget(p.slots, target) + r.moved == r.onTarget
    && r.onSource + r.onTarget == |q.slots| == |p.slots| + |Pending(q)|
    && |Pending(q)| == Max(0, r.moved - |Sources(p.slots, target) - busy|)
    && ToSet(Pending(q)) == Outstanding(q) <= Sources(p.slots, target) * busy
    && Sources(p.slots, target) * busy <= Sources(q.slots, target) <= Sources(p.slots, target)
    && Targets(p.slots, target) <= Targets(q.slots, target)
    && (q.hold.Some? ==> q.hold.value.target == target && (q.hold.value.keepSource <==> fraction < 1.0))
    && (fraction == 1.0 ==> Sources(q.slots, target) == ToSet(Pending(q)))
  }

  lemma MigrationMeetsShare(p: Pool, target: string, fraction: real, busy: set<SessionId>, budget: nat)
    requires Valid(p) && Outstanding(p) == {} && p.slots != []
    requires 0.0 <= fraction <= 1.0 && |p.slots| <= budget
    ensures
      var (q, r) := Migrate(p, target, fraction, busy, budget);
      Met(p, target, fraction, busy, Share(|p.slots|, fraction), q, r)
  {
    var (q, r) := Migrate(p, target, fraction, busy, budget);
    CleanReport(p, target, fraction, busy, budget);
    CleanOutcome(p, target, fraction, busy, budget);
    MetFrom(p, target, fraction, busy, q, r);
  }

  /** What the report of an unblocked migration counts. */
  ghost predicate Counted(p: Pool, q: Pool, target: string, goal: int, r: MigrationResult) {
    && r.Migrated? && !r.blocked && r.targetCount == goal
    && r.onTarget == OnTarget(q.slots, target) && r.onTarget + r.onSource == |q.slots|
    && r.onTarget == OnTarget(p.slots, target) + r.moved
  }

  lemma CleanReport(p: Pool, target: string, fraction: real, busy: set<SessionId>, budget: nat)
    requires Valid(p) && Outstanding(p) == {} && p.slots != []
    requires 0.0 <= fraction <= 1.0 && |p.slots| <= budget
    ensures
      var (q, r) := Migrate(p, target, fraction, busy, budget);
      Counted(p, q, target, Share(|p.slots|, fraction), r)
  {
    CleanPlan(p, target, fraction);
    CleanOutcome(p, target, fraction, busy, budget);
    MigrationReport(p, target, fraction, busy, budget);
  }

  /** The pool and the report together. */
  lemma MetFrom(p: Pool, target: string, fraction: real, busy: set<SessionId>, q: Pool, r: MigrationResult)
    requires Valid(p) && p.slots != [] && 0.0 <= fraction <= 1.0
    requires CleanlyMoved(p, target, fraction, busy, q) && Counted(p, q, target, Share(|p.slots|, fraction), r)
    ensures Met(p, target, fraction, busy, Share(|p.slots|, fraction), q, r)
  {
    SlotCounts(q.slots, target);
    if fraction == 1.0 {
      FullMigration(p, q, target);
    }
  }

  /** The pool a clean migration leaves. */
  ghost predicate CleanlyMoved(p: Pool, target: string, fraction: real, busy: set<SessionId>, q: Pool)
    requires 0.0 <= fraction
  {
    var toMove := Monus(Share(|p.slots|, fraction), OnTarget(p.slots, target));
    && MovedInto(p.(primary := target), q, target, toMove, Pending(q), fraction < 1.0, busy)
    && |Pending(q)| == Max(0, toMove - |Sources(p.slots, target) - busy|)
    && ToSet(Pending(q)) <= Sources(p.slots, target) * busy
  }

  lemma CleanOutcome(p: Pool, target: string, fraction: real, busy: set<SessionId>, budget: nat)
    requires Valid(p) && Outstanding(p) == {} && p.slots != []
    requires 0.0 <= fraction <= 1.0 && |p.slots| <= budget
    ensures
      var (q, r) := Migrate(p, target, fraction, busy, budget);
      r != DialFailed && CleanlyMoved(p, target, fraction, busy, q)
  {
    CleanPlan(p, target, fraction);
    CleanMove(p, target, fraction, busy, budget);
    MigrateIsMove(p, target, fraction, busy, budget);
  }

  lemma CleanPlan(p: Pool, target: string, fraction: real)
    requires Valid(p) && Outstanding(p) == {} && p.slots != [] && 0.0 <= fraction <= 1.0
    ensures
      var toMove := Monus(Share(|p.slots|, fraction), OnTarget(p.slots, target));
      && toMove <= |Sources(p.slots, target)|
      && PlanFor(Prepared(p, target), target, fraction) == MigrationPlan(Share(|p.slots|, fraction), toMove, false, None)
  {
    PreparedClean(p, target);
    SlotCounts(p.slots, target);
    PlanWithinSources(|p.slots|, OnTarget(p.slots, target), fraction);
  }

  /** The move of a clean migration, in terms of the pool it started from. */
  lemma CleanMove(p: Pool, target: string, fraction: real, busy: set<SessionId>, budget: nat)
    requires Valid(p) && Outstanding(p) == {} && p.slots != []
    requires 0.0 <= fraction <= 1.0 && |p.slots| <= budget
    ensures
      var q0 := Prepared(p, target);
      var toMove := PlanFor(q0, target, fraction).toMove;
      var (out, moved) := MoveSessions(q0, target, toMove, fraction < 1.0, busy, budget);
      && moved == Some(toMove)
      && MovedInto(p.(primary := target), out, target, toMove, PlannedOf(q0, target, toMove, busy), fraction < 1.0, busy)
      && |PlannedOf(q0, target, toMove, busy)| == Max(0, toMove - |Sources(p.slots, target) - busy|)
      && ToSet(PlannedOf(q0, target, toMove, busy)) <= Sources(p.slots, target) * busy
  {
    PreparedClean(p, target);
    CleanPlan(p, target, fraction);
    var q0 := Prepared(p, target);
    var toMove := PlanFor(q0, target, fraction).toMove;
    SuccessViews(q0, target, toMove, fraction < 1.0, busy, budget);
    PlannedFacts(q0, target, toMove, busy, 0);
    HeldCount(q0, target, toMove, busy);
  }

  /** The busy sources chosen make up for what the idle ones fall short of. */
  lemma HeldCount(q: Pool, target: string, toMove: nat, busy: set<SessionId>)
    requires Valid(q) && q.hold.None? && toMove <= |Sources(q.slots, target)|
    ensures |PlannedOf(q, target, toMove, busy)| == Max(0, toMove - |Sources(q.slots, target) - busy|)
  {
    EnoughMovable(q, target, toMove, busy);
    MovableSplit(q, target, busy);
    NoDupCardinality(IdleMovable(q, target, busy));
    assert ToSet(IdleMovable(q, target, busy)) == Sources(q.slots, target) - busy;
  }

  /**
   * A migration that starts with nothing outstanding and whose dials all succeed meets the goal
   * floor(pool * fraction).
   */
  lemma MigrationMeetsPlan(p: Pool, target: string, fraction: real, busy: set<SessionId>, budget: nat)
    requires Valid(p) && Outstanding(p) == {} && p.slots != []
    requires 0.0 <= fraction <= 1.0 && |p.slots| <= budget
    ensures
      var (q, r) := Migrate(p, target, fraction, busy, budget);
      Met(p, target, fraction, busy, (|p.slots| as real * fraction).Floor, q, r)
  {
    ShareIsFloor(|p.slots|, fraction);
    MigrationMeets(p, target, fraction, busy, budget, (|p.slots| as real * fraction).Floor);
  }

  lemma MigrationMeets(p: Pool, target: string, fraction: real, busy: set<SessionId>, budget: nat, goal: int)
    requires Valid(p) && Outstanding(p) == {} && p.slots != []
    requires 0.0 <= fraction <= 1.0 && |p.slots| <= budget && goal == Share(|p.slots|, fraction)
    ensures
      var (q, r) := Migrate(p, target, fraction, busy, budget);
      Met(p, target, fraction, busy, goal, q, r)
  {
    MigrationMeetsShare(p, target, fraction, busy, budget);
  }

  /** When the whole pool migrates, every remaining source is a held one. */
  lemma FullMigration(p: Pool, q: Pool, target: string)
    requires Valid(p) && Valid(q) && p.slots != []
    requires OnTarget(q.slots, target) == Max(OnTarget(p.slots, target), Share(|p.slots|, 1.0))
    requires |q.slots| == |p.slots| + |Pending(q)|
    requires ToSet(Pending(q)) == Outstanding(q)
    requires q.hold.Some? ==> q.hold.value.target == target
    ensures Sources(q.slots, target) == ToSet(Pending(q))
  {
    ShareBounded(|p.slots|, 1.0);
    SlotCounts(p.slots, target);
    SlotCounts(q.slots, target);
    if q.hold.Some? {
      NoDupCardinality(Pending(q));
      SubsetCardinality(ToSet(Pending(q)), Sources(q.slots, target));
    } else {
      assert ToSet(Pending(q)) == {};
    }
  }

  /**
   * Whatever dial fails, a migration that starts with nothing outstanding leaves the logical
   * pool as large as it was: slots minus held sources equals the old slot count.
   */
  lemma MigrationConserves(p: Pool, target: string, fraction: real, busy: set<SessionId>, budget: nat)
    requires Valid(p) && Outstanding(p) == {}
    ensures
      var q := Migrate(p, target, fraction, busy, budget).0;
      && Valid(q) && Logical(q) == |p.slots| && ToSet(Pending(q)) == Outstanding(q)
      && Sources(p.slots, target) * busy <= IdSet(q.slots)
      && q.primary == target
      && (q.hold.Some? ==> q.hold.value.target == target && (q.hold.value.keepSource <==> fraction < 1.0))
  {
    SourceTargetIds(p.slots, target);
    PreparedClean(p, target);
    var q := Prepared(p, target);
    if !PlanFor(q, target, fraction).blocked {
      MoveConserves(q, target, PlanFor(q, target, fraction).toMove, fraction < 1.0, busy, budget);
      SourceTargetIds(Migrate(p, target, fraction, busy, budget).0.slots, target);
    }
  }

  lemma MoveConserves(q: Pool, target: string, toMove: nat, keepSource: bool, busy: set<SessionId>, budget: nat)
    requires Valid(q) && q.hold.None?
    ensures
      var out := MoveSessions(q, target, toMove, keepSource, busy, budget).0;
      && Valid(out) && Logical(out) == |q.slots| && out.primary == q.primary
      && ToSet(Pending(out)) == Outstanding(out)
      && (out.hold.Some? ==> out.hold.value.target == target && out.hold.value.keepSource == keepSource)
      && Sources(q.slots, target) * busy <= Sources(out.slots, target)
  {
    var inPlace := Min(toMove, |IdleMovable(q, target, busy)|);
    var n := Min(inPlace, budget);
    AfterIdleViews(q, target, busy, n);
    if inPlace <= budget {
      PlannedFacts(q, target, toMove, busy, n);
      AheadConserves(AfterIdle(q, target, busy, n), PlannedOf(q, target, toMove, busy), target, keepSource,
                     budget - inPlace, inPlace);
    }
  }

  lemma AheadConserves(q: Pool, planned: seq<SessionId>, target: string, keepSource: bool, budget: nat, inPlace: nat)
    requires Valid(q) && q.hold.None? && NoDup(planned) && ToSet(planned) <= Sources(q.slots, target)
    ensures
      var out := AheadPhase(q, planned, target, keepSource, budget, inPlace).0;
      && Valid(out) && Logical(out) == |q.slots| && out.primary == q.primary
      && ToSet(Pending(out)) == Outstanding(out)
      && (out.hold.Some? ==> out.hold.value.target == target && out.hold.value.keepSource == keepSource)
      && Sources(out.slots, target) == Sources(q.slots, target)
  {
    if planned != [] {
      var m := Min(|planned|, budget);
      PrefixNoDup(planned, m);
      assert planned[..|planned|] == planned;
      DialAheadViews(q, planned[..m], target, keepSource);
    }
  }

  /** Moving idle sources never touches a held one, whatever target the hold was armed for. */
  lemma AfterIdleOutstanding(q: Pool, target: string, busy: set<SessionId>, n: nat)
    requires Valid(q) && n <= |IdleMovable(q, target, busy)|
    ensures Outstanding(AfterIdle(q, target, busy, n)) == Outstanding(q)
  {
    var idle := IdleMovable(q, target, busy);
    MovableSplit(q, target, busy);
    PrefixNoDup(idle, n);
    if q.hold.Some? {
      RedialAllKeepsHeld(q.slots, idle[..n], target, q.nextId, q.hold.value.target, ToSet(Pending(q)));
    }
  }

  /** Once the dial-ahead phase starts, every slot that existed before counts as logical. */
  lemma AheadLogical(q: Pool, planned: seq<SessionId>, target: string, keepSource: bool, budget: nat, inPlace: nat)
    requires Valid(q) && planned != [] && NoDup(planned) && ToSet(planned) <= Sources(q.slots, target)
    ensures Logical(AheadPhase(q, planned, target, keepSource, budget, inPlace).0) == |q.slots|
  {
    var m := Min(|planned|, budget);
    PrefixNoDup(planned, m);
    assert planned[..|planned|] == planned;
    DialAheadViews(q, planned[..m], target, keepSource);
  }

  /** A move that gets as far as dialing ahead forgets the old hold; any other keeps it. */
  lemma MoveLogical(q: Pool, target: string, toMove: nat, keepSource: bool, busy: set<SessionId>, budget: nat)
    requires Valid(q)
    ensures
      Logical(MoveSessions(q, target, toMove, keepSource, busy, budget).0)
      == if PlannedOf(q, target, toMove, busy) == [] || budget < |IdleMovable(q, target, busy)|
         then Logical(q) else |q.slots|
  {
    var planned := PlannedOf(q, target, toMove, busy);
    var inPlace := Min(toMove, |IdleMovable(q, target, busy)|);
    var n := Min(inPlace, budget);
    AfterIdleViews(q, target, busy, n);
    AfterIdleOutstanding(q, target, busy, n);
    if planned != [] && inPlace <= budget {
      PlannedFacts(q, target, toMove, busy, n);
      AheadLogical(AfterIdle(q, target, busy, n), planned, target, keepSource, budget - inPlace, inPlace);
    }
  }

  lemma MigrateIsMove(p: Pool, target: string, fraction: real, busy: set<SessionId>, budget: nat)
    ensures
      var q := Prepared(p, target);
      var plan := PlanFor(q, target, fraction);
      Migrate(p, target, fraction, busy, budget).0
      == if plan.blocked then q else MoveSessions(q, target, plan.toMove, fraction < 1.0, busy, budget).0
  {
  }

  /** A busy source is held only when the idle movable ones do not suffice. */
  lemma NonePlanned(q: Pool, target: string, toMove: nat, busy: set<SessionId>)
    ensures PlannedOf(q, target, toMove, busy) == []
            <==> toMove <= |IdleMovable(q, target, busy)| || BusyMovable(q, target, busy) == []
  {
  }

  /**
   * Migrating again under a hold can lose track of held sources, because arming a hold replaces
   * the pending list. For every dial outcome the logical size survives exactly when the plan is
   * blocked, or nothing is outstanding, or the idle movable sources suffice, or no busy source
   * is left to hold, or a dial fails before the idle ones are through.
   */
  lemma MigrationUnderHold(p: Pool, target: string, fraction: real, busy: set<SessionId>, budget: nat)
    requires Valid(p)
    ensures
      var q := Prepared(p, target);
      var plan := PlanFor(q, target, fraction);
      Logical(Migrate(p, target, fraction, busy, budget).0) == Logical(p) <==>
      || plan.blocked
      || Outstanding(p) == {}
      || plan.toMove <= |IdleMovable(q, target, busy)|
      || BusyMovable(q, target, busy) == []
      || budget < |IdleMovable(q, target, busy)|
  {
    PreparedLogical(p, target);
    MigrateIsMove(p, target, fraction, busy, budget);
    var q := Prepared(p, target);
    var toMove := PlanFor(q, target, fraction).toMove;
    MoveLogical(q, target, toMove, fraction < 1.0, busy, budget);
    NonePlanned(q, target, toMove, busy);
  }

  lemma PreparedLogical(p: Pool, target: string)
    requires Valid(p)
    ensures Valid(Prepared(p, target)) && Prepared(p, target).slots == p.slots
    ensures Logical(Prepared(p, target)) == Logical(p) == |p.slots| - |Outstanding(p)|
  {
    var p1 := p.(primary := target);
    assert Outstanding(p1) == Outstanding(p);
    PruneKeepsLogical(p1);
  }

  /** Dials a move needs: one for each session to move, as far as there are movable sources. */
  function Needed(q: Pool, target: string, toMove: nat, busy: set<SessionId>): nat {
    Min(toMove, |IdleMovable(q, target, busy)| + |BusyMovable(q, target, busy)|)
  }

  lemma MoveReport(q: Pool, target: string, toMove: nat, keepSource: bool, busy: set<SessionId>, budget: nat)
    requires Valid(q)
    ensures
      var (out, moved) := MoveSessions(q, target, toMove, keepSource, busy, budget);
      && (moved.None? <==> budget < Needed(q, target, toMove, busy))
      && (moved.Some? ==> moved.value == Needed(q, target, toMove, busy)
                          && OnTarget(out.slots, target) == OnTarget(q.slots, target) + moved.value)
  {
    var inPlace := Min(toMove, |IdleMovable(q, target, busy)|);
    if inPlace <= budget {
      var planned := PlannedOf(q, target, toMove, busy);
      AfterIdleViews(q, target, busy, inPlace);
      PlannedFacts(q, target, toMove, busy, inPlace);
      if planned != [] && |planned| <= budget - inPlace {
        DialAheadViews(AfterIdle(q, target, busy, inPlace), planned, target, keepSource);
      }
    }
  }

  /**
   * A migrate call reports a failed dial exactly when it was not blocked and one of the dials it
   * needed failed. Otherwise its report counts what is now on and off the target and what moved.
   */
  lemma MigrationReport(p: Pool, target: string, fraction: real, busy: set<SessionId>, budget: nat)
    requires Valid(p)
    ensures
      var q := Prepared(p, target);
      var plan := PlanFor(q, target, fraction);
      var (out, r) := Migrate(p, target, fraction, busy, budget);
      && (r == DialFailed <==> !plan.blocked && budget < Needed(q, target, plan.toMove, busy))
      && (r != DialFailed ==>
            && r.Migrated? && r.blocked == plan.blocked && r.reason == plan.reason && r.targetCount == plan.targetCount
            && r.onTarget == OnTarget(out.slots, target) && r.onTarget + r.onSource == |out.slots|
            && r.onTarget == OnTarget(p.slots, target) + r.moved)
  {
    PreparedLogical(p, target);
    var q := Prepared(p, target);
    var plan := PlanFor(q, target, fraction);
    if plan.blocked {
      SlotCounts(p.slots, target);
    } else {
      MoveReport(q, target, plan.toMove, fraction < 1.0, busy, budget);
      MigrateIsMove(p, target, fraction, busy, budget);
      MigrateKeepsValid(p, target, fraction, busy, budget);
      SlotCounts(Migrate(p, target, fraction, busy, budget).0.slots, target);
    }
  }

  lemma MigrateKeepsValid(p: Pool, target: string, fraction: real, busy: set<SessionId>, budget: nat)
    requires Valid(p)
    ensures Valid(Migrate(p, target, fraction, busy, budget).0)
  {
    PreparedLogical(p, target);
    MigrateIsMove(p, target, fraction, busy, budget);
    var q := Prepared(p, target);
    var toMove := PlanFor(q, target, fraction).toMove;
    MoveKeepsValid(q, target, toMove, fraction < 1.0, busy, budget);
  }

  lemma MoveKeepsValid(q: Pool, target: string, toMove: nat, keepSource: bool, busy: set<SessionId>, budget: nat)
    requires Valid(q)
    ensures Valid(MoveSessions(q, target, toMove, keepSource, busy, budget).0)
  {
    var inPlace := Min(toMove, |IdleMovable(q, target, busy)|);
    var n := Min(inPlace, budget);
    AfterIdleViews(q, target, busy, n);
    if inPlace <= budget {
      var planned := PlannedOf(q, target, toMove, busy);
      PlannedFacts(q, target, toMove, busy, n);
      if planned != [] {
        var m := Min(|planned|, budget - inPlace);
        PrefixNoDup(planned, m);
        assert planned[..|planned|] == planned;
        DialAheadViews(AfterIdle(q, target, busy, n), planned[..m], target, keepSource);
      }
    }
  }

  /** With nothing to move a migrate call only switches the primary and prunes the hold. */
  lemma ZeroMove(p: Pool, target: string, fraction: real, busy: set<SessionId>, budget: nat)
    requires PlanFor(Prepared(p, target), target, fraction).toMove == 0
    ensures Migrate(p, target, fraction, busy, budget).0 == Prepared(p, target)
    ensures
      var r := Migrate(p, target, fraction, busy, budget).1;
      r.Migrated? && r.moved == 0
  {
    var q := Prepared(p, target);
    if !PlanFor(q, target, fraction).blocked {
      assert IdleMovable(q, target, busy)[..0] == [];
      assert PlannedBusy(q, target, fraction, busy) == [];
    }
  }

  /** A concrete pool whose second migration forgets a source that is still connected. */
  lemma MigrationUnderHoldWitness() returns (p: Pool)
    ensures p == Pool([Slot(0, "a"), Slot(1, "a"), Slot(2, "b")], Some(Hold("b", [0], true)), "b", 3)
    ensures Valid(p) && Logical(p) == 2
    ensures Logical(Migrate(p, "b", 1.0, {0, 1}, 9).0) != 2
  {
    p := Pool([Slot(0, "a"), Slot(1, "a"), Slot(2, "b")], Some(Hold("b", [0], true)), "b", 3);
    WitnessPool();
    WitnessStep(p);
  }

  lemma WitnessStep(p: Pool)
    requires Valid(p) && |p.slots| == 3 && Outstanding(p) == {0} && |Pending(p)| == 1
    requires Prepared(p, "b") == p && OnTarget(p.slots, "b") == 1
    requires IdleMovable(p, "b", {0, 1}) == [] && BusyMovable(p, "b", {0, 1}) == [1]
    ensures Logical(p) == 2
    ensures Logical(Migrate(p, "b", 1.0, {0, 1}, 9).0) != 2
  {
    PlanWithinSources(2, 1, 1.0);
    assert PlanFor(p, "b", 1.0) == PlanGatewayMigration(2, 1, 1.0);
    MigrationUnderHold(p, "b", 1.0, {0, 1}, 9);
  }

  lemma WitnessPool()
    ensures
      var slots := [Slot(0, "a"), Slot(1, "a"), Slot(2, "b")];
      var p := Pool(slots, Some(Hold("b", [0], true)), "b", 3);
      && Valid(p) && Outstanding(p) == {0} && Prepared(p, "b") == p && OnTarget(slots, "b") == 1
      && IdleMovable(p, "b", {0, 1}) == [] && BusyMovable(p, "b", {0, 1}) == [1]
  {
    var slots := [Slot(0, "a"), Slot(1, "a"), Slot(2, "b")];
    assert slots[1..] == [Slot(1, "a"), Slot(2, "b")] && slots[1..][1..] == [Slot(2, "b")];
    assert [Slot(2, "b")][1..] == [];
    assert SourceIds(slots, "b") == [0, 1] && OnTarget(slots, "b") == 1;
    assert slots[0] in slots && 0 in Sources(slots, "b");
    assert [0][1..] == [] && Keep([0], Sources(slots, "b")) == [0];
    assert [0, 1][1..] == [1] && [1][1..] == [];
    assert ToSet([0]) == {0} && Drop([0, 1], {0}) == [1];
  }
}
