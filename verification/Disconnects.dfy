/**
 * Which sessions a migration disconnects. Sources are classified as idle or busy first and then
 * redialed one by one without a second look, so a session may turn busy before its turn comes.
 */
module Disconnects {
  import opened Collections
  import opened Planning
  import opened PoolState
  import opened PoolFacts
  import opened Migration

  /** The sources redialed in place: idle when classified, as many as needed, as far as dials succeed. */
  function Redialed(q: Pool, target: string, toMove: nat, busy: set<SessionId>, budget: nat): seq<SessionId> {
    var idle := IdleMovable(q, target, busy);
    idle[..Min(Min(toMove, |idle|), budget)]
  }

  /** Sessions that a migrate call disconnects. */
  function CutOff(p: Pool, target: string, fraction: real, busy: set<SessionId>, budget: nat): set<SessionId> {
    IdSet(p.slots) - IdSet(Migrate(p, target, fraction, busy, budget).0.slots)
  }

  predicate Spares(gone: set<SessionId>, busyAtTurn: set<SessionId>) {
    gone !! busyAtTurn
  }

  lemma AheadIds(q: Pool, planned: seq<SessionId>, target: string, keepSource: bool, budget: nat, inPlace: nat)
    ensures
      var out := AheadPhase(q, planned, target, keepSource, budget, inPlace).0;
      q.nextId <= out.nextId && IdSet(out.slots) == IdSet(q.slots) + Issued(q.nextId, out.nextId - q.nextId)
  {
    if planned == [] {
      assert Issued(q.nextId, 0) == {};
    } else {
      assert planned[..|planned|] == planned;
      DialedIds(q.slots, Min(|planned|, budget), target, q.nextId);
    }
  }

  lemma AfterIdleIds(q: Pool, target: string, busy: set<SessionId>, n: nat)
    requires Valid(q) && n <= |IdleMovable(q, target, busy)|
    ensures IdSet(AfterIdle(q, target, busy, n).slots)
            == IdSet(q.slots) - ToSet(IdleMovable(q, target, busy)[..n]) + Issued(q.nextId, n)
  {
    IdlePrefix(q, target, busy, n);
    RedialAllIds(q.slots, IdleMovable(q, target, busy)[..n], target, q.nextId);
  }

  /** A move exchanges exactly the redialed ids, and adds replacements, all under newly issued ids. */
  lemma MoveIds(q: Pool, target: string, toMove: nat, keepSource: bool, busy: set<SessionId>, budget: nat)
    requires Valid(q)
    ensures
      var out := MoveSessions(q, target, toMove, keepSource, busy, budget).0;
      && q.nextId <= out.nextId
      && IdSet(out.slots) == IdSet(q.slots) - ToSet(Redialed(q, target, toMove, busy, budget))
                             + Issued(q.nextId, out.nextId - q.nextId)
  {
    var inPlace := Min(toMove, |IdleMovable(q, target, busy)|);
    var n := Min(inPlace, budget);
    var mid := AfterIdle(q, target, busy, n);
    AfterIdleIds(q, target, busy, n);
    if inPlace <= budget {
      var planned := PlannedOf(q, target, toMove, busy);
      AheadIds(mid, planned, target, keepSource, budget - inPlace, inPlace);
      var out := AheadPhase(mid, planned, target, keepSource, budget - inPlace, inPlace).0;
      assert Issued(q.nextId, out.nextId - q.nextId) == Issued(q.nextId, n) + Issued(mid.nextId, out.nextId - mid.nextId);
    }
  }

  lemma PreparedFrame(p: Pool, target: string)
    requires Valid(p)
    ensures Valid(Prepared(p, target))
    ensures Prepared(p, target).slots == p.slots && Prepared(p, target).nextId == p.nextId
  {
    PruneKeepsLogical(p.(primary := target));
  }

  /** The ids of a pool after a migrate call, whatever it started from and whichever dial failed. */
  lemma MigrationIds(p: Pool, target: string, fraction: real, busy: set<SessionId>, budget: nat)
    requires Valid(p)
    ensures
      var q := Prepared(p, target);
      var plan := PlanFor(q, target, fraction);
      var out := Migrate(p, target, fraction, busy, budget).0;
      && Valid(q) && p.nextId <= out.nextId
      && IdSet(out.slots) == IdSet(p.slots) - ToSet(Redialed(q, target, plan.toMove, busy, budget))
                             + Issued(p.nextId, out.nextId - p.nextId)
  {
    PreparedFrame(p, target);
    var q := Prepared(p, target);
    var plan := PlanFor(q, target, fraction);
    MigrateIsMove(p, target, fraction, busy, budget);
    if plan.blocked {
      var none := Redialed(q, target, 0, busy, budget);
      assert none == [] && ToSet(none) == {} && Issued(p.nextId, 0) == {};
    } else {
      MoveIds(q, target, plan.toMove, fraction < 1.0, busy, budget);
    }
  }

  lemma RedialedAreIdle(q: Pool, target: string, toMove: nat, busy: set<SessionId>, budget: nat)
    requires Valid(q)
    ensures ToSet(Redialed(q, target, toMove, busy, budget)) <= Sources(q.slots, target) - busy
    ensures ToSet(Redialed(q, target, toMove, busy, budget)) <= IdSet(q.slots)
    ensures |ToSet(Redialed(q, target, toMove, busy, budget))| == |Redialed(q, target, toMove, busy, budget)|
  {
    var idle := IdleMovable(q, target, busy);
    MovableSplit(q, target, busy);
    PrefixNoDup(idle, Min(Min(toMove, |idle|), budget));
    SourceTargetIds(q.slots, target);
  }

  /**
   * A migrate call disconnects exactly the sources it redials. None of them was busy when
   * classified; one that is busy at its own turn is spared exactly when it is not among them.
   */
  lemma MigrationCutsOff(p: Pool, target: string, fraction: real, busy: set<SessionId>, budget: nat,
                         busyAtTurn: set<SessionId>)
    requires Valid(p)
    ensures
      var q := Prepared(p, target);
      var redialed := Redialed(q, target, PlanFor(q, target, fraction).toMove, busy, budget);
      var gone := CutOff(p, target, fraction, busy, budget);
      && gone == ToSet(redialed) && |gone| == |redialed| && gone !! busy
      && (Spares(gone, busyAtTurn) <==> forall x :: x in redialed ==> x !in busyAtTurn)
  {
    CutOffIsRedialed(p, target, fraction, busy, budget);
    PreparedFrame(p, target);
    RedialedAreIdle(Prepared(p, target), target, PlanFor(Prepared(p, target), target, fraction).toMove, busy, budget);
  }

  lemma CutOffIsRedialed(p: Pool, target: string, fraction: real, busy: set<SessionId>, budget: nat)
    requires Valid(p)
    ensures
      var q := Prepared(p, target);
      CutOff(p, target, fraction, busy, budget)
      == ToSet(Redialed(q, target, PlanFor(q, target, fraction).toMove, busy, budget))
  {
    var q := Prepared(p, target);
    var toMove := PlanFor(q, target, fraction).toMove;
    PreparedFrame(p, target);
    MigrationIds(p, target, fraction, busy, budget);
    RedialedAreIdle(q, target, toMove, busy, budget);
    var out := Migrate(p, target, fraction, busy, budget).0;
    ExchangedIds(IdSet(p.slots), ToSet(Redialed(q, target, toMove, busy, budget)),
                 Issued(p.nextId, out.nextId - p.nextId), p.nextId);
  }

  lemma ExchangedIds(before: set<SessionId>, gone: set<SessionId>, issued: set<SessionId>, next: SessionId)
    requires gone <= before && (forall x :: x in before ==> x < next) && (forall x :: x in issued ==> next <= x)
    ensures before - (before - gone + issued) == gone
  {
  }

  /** No way of turning busy is harmed by a migrate call if and only if it redials nothing. */
  lemma SafeExactlyWhenNothingRedialed(p: Pool, target: string, fraction: real, busy: set<SessionId>, budget: nat)
    requires Valid(p)
    ensures
      var q := Prepared(p, target);
      (forall busyAtTurn :: Spares(CutOff(p, target, fraction, busy, budget), busyAtTurn)) <==>
      PlanFor(q, target, fraction).toMove == 0 || IdleMovable(q, target, busy) == [] || budget == 0
  {
    var q := Prepared(p, target);
    var redialed := Redialed(q, target, PlanFor(q, target, fraction).toMove, busy, budget);
    var gone := CutOff(p, target, fraction, busy, budget);
    MigrationCutsOff(p, target, fraction, busy, budget, {});
    if redialed == [] {
      assert gone == {};
    } else {
      assert redialed[0] in gone;
      assert !Spares(gone, gone);
    }
  }

  /** Two sessions on gateway "a", seen from a migration to "b". */
  lemma TwoSources(p: Pool)
    requires p == Pool([Slot(0, "a"), Slot(1, "a")], None, "a", 2)
    ensures Valid(p) && Outstanding(p) == {}
    ensures SourceIds(p.slots, "b") == [0, 1] && OnTarget(p.slots, "b") == 0
    ensures Prepared(p, "b") == p.(primary := "b")
  {
    var slots := p.slots;
    assert slots[1..] == [Slot(1, "a")] && [Slot(1, "a")][1..] == [];
  }

  lemma TwoMovable(q: Pool)
    requires SourceIds(q.slots, "b") == [0, 1] && q.hold == None
    ensures IdleMovable(q, "b", {}) == [0, 1] && BusyMovable(q, "b", {0, 1}) == [0, 1]
    ensures IdleMovable(q, "b", {0, 1}) == []
  {
    var none: seq<SessionId> := [];
    assert ToSet(none) == {};
    assert [0, 1][1..] == [1] && [1][1..] == none;
    assert Drop([0, 1], {}) == [0, 1];
  }

  /** The move of a two-session pool to "b" takes both. */
  lemma TwoPlanned(q: Pool)
    requires |q.slots| == 2 && OnTarget(q.slots, "b") == 0 && q.hold == None
    ensures PlanFor(q, "b", 1.0) == MigrationPlan(2, 2, false, None)
  {
    ShareBounded(2, 1.0);
  }

  /** A session that is idle when classified, turns busy while another is redialed, and is cut off. */
  lemma LateBusyIsCutOff()
    ensures
      var p := Pool([Slot(0, "a"), Slot(1, "a")], None, "a", 2);
      Valid(p) && 1 in CutOff(p, "b", 1.0, {}, 2)
  {
    var p := Pool([Slot(0, "a"), Slot(1, "a")], None, "a", 2);
    TwoSources(p);
    TwoMovable(Prepared(p, "b"));
    TwoPlanned(Prepared(p, "b"));
    assert Redialed(Prepared(p, "b"), "b", 2, {}, 2) == [0, 1] by {
      assert [0, 1][..2] == [0, 1];
    }
    MigrationCutsOff(p, "b", 1.0, {}, 2, {1});
  }
}
