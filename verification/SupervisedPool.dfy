/**
 * The supervised pool as the object the engine mutates. Every method is proved to perform exactly
 * the corresponding transition of PoolState, so the lemmas about runs and episodes apply to it.
 */
module SupervisedPool {
  import opened Collections
  import opened Planning
  import opened PoolState
  import opened PoolFacts
  import opened Migration
  import opened PoolRuns
  import opened Text

  lemma RemoveOneMore(slots: seq<Slot>, gone: set<SessionId>, id: SessionId)
    requires DistinctIds(slots) && id in IdSet(slots) && id !in gone
    ensures id in IdSet(RemoveIds(slots, gone)) && DistinctIds(RemoveIds(slots, gone))
    ensures RemoveIds(RemoveIds(slots, gone), {id}) == RemoveIds(slots, gone + {id})
  {
    RemoveIdsMembers(slots, gone);
    RemoveIdsDistinct(slots, gone);
    RemoveIdsCompose(slots, gone, {id});
    var s :| s in slots && s.id == id;
    assert s in RemoveIds(slots, gone);
  }

  lemma DropMeaning(xs: seq<SessionId>, id: SessionId)
    ensures ToSet(Drop(xs, {id})) == ToSet(xs) - {id}
    ensures Drop(xs, {id}) == [] <==> forall x :: x in xs ==> x == id
  {
    assert Drop(xs, {id}) != [] ==> Drop(xs, {id})[0] in Drop(xs, {id});
  }

  method Others(xs: seq<SessionId>, id: SessionId) returns (others: seq<SessionId>)
    ensures others == Drop(xs, {id})
  {
    others := [];
    for i := 0 to |xs|
      invariant others + Drop(xs[i..], {id}) == Drop(xs, {id})
    {
      assert xs[i..][1..] == xs[i + 1..];
      if xs[i] != id {
        others := others + [xs[i]];
      }
    }
    assert others == Drop(xs, {id});
  }

  class SupervisedPool {
    const poolTargetSize: nat
    const poolBaseline: nat
    var slots: seq<Slot>
    var hold: Option<Hold>
    var primary: string
    var nextId: SessionId

    ghost function View(): Pool
      reads this
    {
      Pool(slots, hold, primary, nextId)
    }

    constructor (poolTargetSize: nat, poolBaseline: nat, gateway: string)
      ensures View() == Pool([], None, gateway, 0) && Valid(View())
      ensures this.poolTargetSize == poolTargetSize && this.poolBaseline == poolBaseline
    {
      this.poolTargetSize, this.poolBaseline := poolTargetSize, poolBaseline;
      slots, hold, primary, nextId := [], None, gateway, 0;
    }

    method PruneMigrationHold()
      modifies this`hold
      ensures View() == PruneHold(old(View()))
    {
      if hold.Some? {
        var h := hold.value;
        var pending := [];
        for i := 0 to |h.pending|
          invariant pending + Keep(h.pending[i..], Sources(slots, h.target)) == Keep(h.pending, Sources(slots, h.target))
        {
          var live := SessionOnSource(h.pending[i], h.target);
          assert h.pending[i..][1..] == h.pending[i + 1..];
          if live {
            pending := pending + [h.pending[i]];
          }
        }
        assert pending == Keep(h.pending, Sources(slots, h.target));
        hold := if pending == [] then None else Some(h.(pending := pending));
      }
    }

    method SessionOnSource(id: SessionId, target: string) returns (found: bool)
      ensures found <==> id in Sources(slots, target)
    {
      found := false;
      for i := 0 to |slots|
        invariant found <==> exists k :: 0 <= k < i && slots[k].id == id && slots[k].url != target
      {
        if slots[i].id == id && slots[i].url != target {
          found := true;
        }
      }
      assert forall k :: 0 <= k < |slots| ==> slots[k] in slots;
    }

    /** The hold keeps every other pending source, and clears exactly when there is none. */
    method ForgetMigrationPending(id: SessionId)
      modifies this`hold
      ensures View() == ForgetPending(old(View()), id)
      ensures hold.None? <==> old(hold).None? || forall x :: x in old(hold).value.pending ==> x == id
      ensures hold.Some? ==>
                && hold.value.target == old(hold).value.target && hold.value.keepSource == old(hold).value.keepSource
                && ToSet(hold.value.pending) == ToSet(old(hold).value.pending) - {id}
    {
      if hold.Some? {
        var h := hold.value;
        var pending := Others(h.pending, id);
        DropMeaning(h.pending, id);
        hold := if pending == [] then None else Some(h.(pending := pending));
      }
    }

    /** Find the slot by id and remove it. */
    method RemoveSession(id: SessionId) returns (removed: bool)
      requires DistinctIds(slots)
      modifies this`slots
      ensures slots == RemoveIds(old(slots), {id})
      ensures removed <==> id in IdSet(old(slots))
    {
      for i := 0 to |slots|
        invariant slots == old(slots)
        invariant forall k :: 0 <= k < i ==> slots[k].id != id
      {
        if slots[i].id == id {
          RemoveAtIsRemoveId(slots, i);
          assert slots[i] in slots;
          slots := slots[..i] + slots[i + 1..];
          return true;
        }
      }
      RemoveNothing(slots, {id});
      return false;
    }

    method DrainCandidateIds(protectedTarget: Option<string>, busy: set<SessionId>) returns (ids: seq<SessionId>)
      ensures ids == DrainCandidates(slots, protectedTarget, busy)
    {
      ids := [];
      for i := 0 to |slots|
        invariant ids + DrainCandidates(slots[i..], protectedTarget, busy)
               == DrainCandidates(slots, protectedTarget, busy)
      {
        assert slots[i..][1..] == slots[i + 1..];
        if slots[i].id !in busy && protectedTarget != Some(slots[i].url) {
          ids := ids + [slots[i].id];
        }
      }
    }

    /** Remove the chosen sessions that are still idle at their own check. */
    method RemoveStillIdle(chosen: seq<SessionId>, busyAtCheck: set<SessionId>) returns (drained: nat)
      requires DistinctIds(slots) && NoDup(chosen) && ToSet(chosen) <= IdSet(slots)
      modifies this`slots
      ensures slots == RemoveIds(old(slots), ToSet(chosen) - busyAtCheck)
      ensures drained == |ToSet(chosen) - busyAtCheck|
    {
      drained := 0;
      ghost var gone: set<SessionId> := {};
      RemoveNothing(slots, {});
      for i := 0 to |chosen|
        invariant gone == ToSet(chosen[..i]) - busyAtCheck
        invariant slots == RemoveIds(old(slots), gone)
        invariant drained == |gone|
      {
        var id := chosen[i];
        PrefixStep(chosen, i);
        if id !in busyAtCheck {
          assert id in ToSet(chosen);
          RemoveOneMore(old(slots), gone, id);
          gone := gone + {id};
          var removed := RemoveSession(id);
          if removed {
            drained := drained + 1;
          }
        }
      }
      assert chosen[..|chosen|] == chosen;
    }

    /** `busy` is what each session answers when idle ids are listed, `busyAtCheck` right before its removal. */
    method DrainWithPlan(count: Option<nat>, fraction: Option<real>, busy: set<SessionId>, busyAtCheck: set<SessionId>)
      returns (r: DrainResult)
      requires Valid(View())
      modifies this`slots
      ensures View() == AfterDrain(poolTargetSize, old(View()), count, fraction, busy, busyAtCheck)
      ensures r == DrainReport(poolTargetSize, old(View()), count, fraction, busy, busyAtCheck)
    {
      var current := |slots|;
      if hold.Some? && hold.value.keepSource && hold.value.pending != [] {
        return DrainResult(0, current, current, true, Some("migration_hold"));
      }
      var protectedTarget := if hold.Some? && hold.value.pending != [] then Some(hold.value.target) else None;
      var candidates := DrainCandidateIds(protectedTarget, busy);
      var plan := PlanPoolDrain(poolTargetSize, current, fraction, count, |candidates|);
      CandidatesView(slots, protectedTarget, busy);
      PrefixNoDup(candidates, plan.toDrain);
      assert ToSet(candidates) <= IdSet(slots);
      var drained := RemoveStillIdle(candidates[..plan.toDrain], busyAtCheck);
      r := DrainResult(drained, |slots|, plan.targetRemaining,
                       plan.blocked || (plan.toDrain > 0 && drained < plan.toDrain), plan.reason);
    }

    /** Dial `n` sessions onto the primary; the connector brings up the first `succeeded`. */
    method ConnectSessions(n: nat, succeeded: nat)
      modifies this`slots, this`nextId
      ensures View() == ConnectMany(old(View()), n, succeeded)
    {
      ghost var before, next := slots, nextId;
      assert slots + Dialed(0, primary, nextId) == slots;
      for i := 0 to n
        invariant slots == before + Dialed(Min(i, succeeded), primary, next)
        invariant nextId == next + Min(i, succeeded)
      {
        if i < succeeded {
          slots := slots + [Slot(nextId, primary)];
          nextId := nextId + 1;
        }
      }
    }

    method ScalePoolTo(targetSize: nat, succeeded: nat) returns (r: ScaleOutcome)
      modifies this`slots, this`nextId
      ensures View() == ScaleTo(poolTargetSize, old(View()), targetSize, succeeded).0
      ensures r == ScaleTo(poolTargetSize, old(View()), targetSize, succeeded).1
    {
      var plan := PlanPoolScale(poolTargetSize, |slots|, targetSize);
      if plan.blocked {
        return ScaleRejected(plan.reason);
      }
      ConnectSessions(plan.toAdd, succeeded);
      r := if succeeded < plan.toAdd then ScaleFailed else Scaled(plan.toAdd);
    }

    method ApplyDesiredPoolTarget(raw: nat, succeeded: nat, busy: set<SessionId>, busyAtCheck: set<SessionId>)
      requires Valid(View())
      modifies this`slots, this`nextId
      ensures View() == ApplyDesired(poolTargetSize, poolBaseline, old(View()), raw, succeeded, busy, busyAtCheck)
    {
      var desired := ClampDesired(raw, poolBaseline, poolTargetSize);
      if desired > |slots| {
        var _ := ScalePoolTo(desired, succeeded);
      } else if desired < |slots| {
        DrainDownTo(desired, busy, busyAtCheck);
      }
    }

    method DrainDownTo(desired: nat, busy: set<SessionId>, busyAtCheck: set<SessionId>)
      requires Valid(View()) && desired < |slots|
      modifies this`slots, this`nextId
      ensures forall succeeded: nat :: View() == AdjustTo(poolTargetSize, old(View()), desired, succeeded, busy, busyAtCheck)
    {
      var _ := DrainWithPlan(Some(|slots| - desired), None, busy, busyAtCheck);
    }

    /**
     * One pass of the retire loop over one id: `still` means the id is watched again. `busy` answers
     * the loop's own check and `busyAgain` the one right before the removal; a source idle at the
     * first and busy at the second stays in the pool and in the hold, but is no longer watched.
     */
    method RetirePass(id: SessionId, busy: set<SessionId>, busyAgain: set<SessionId>) returns (still: bool)
      requires Valid(View())
      modifies this`slots, this`hold
      ensures still <==> id in Sources(old(slots), primary) && id in busy
      ensures View() == if id in Sources(old(slots), primary) && id in busy + busyAgain then old(View())
                        else RetireForget(RetireRemove(old(View()), id, busy), id)
      ensures id in Sources(old(slots), primary) && id in busy + busyAgain ==> slots == old(slots) && hold == old(hold)
      ensures !(id in Sources(old(slots), primary) && id in busy + busyAgain) ==>
                && id !in Sources(slots, primary)
                && Sources(slots, primary) == Sources(old(slots), primary) - {id}
                && Targets(slots, primary) == Targets(old(slots), primary)
                && (hold.Some? ==> id !in hold.value.pending)
                && (hold.None? <==> old(hold).None? || forall x :: x in old(hold).value.pending ==> x == id)
    {
      SlotCounts(slots, primary);
      var onSource := SessionOnSource(id, primary);
      if !onSource {
        ForgetMigrationPending(id);
        return false;
      }
      if id in busy {
        return true;
      }
      if id in busyAgain {
        return false;
      }
      RemoveIdsViews(slots, {id}, primary);
      var _ := RemoveSession(id);
      ForgetMigrationPending(id);
      return false;
    }

    /** Redial one source in place; false if the dial failed. A session no longer on a source is left alone. */
    method MigrateSessionTo(id: SessionId, target: string, dialOk: bool) returns (ok: bool)
      requires DistinctIds(slots)
      modifies this`slots, this`nextId
      ensures ok <==> dialOk || id !in Sources(old(slots), target)
      ensures if dialOk && id in Sources(old(slots), target)
              then slots == Redial(old(slots), id, target, old(nextId)) && nextId == old(nextId) + 1
              else slots == old(slots) && nextId == old(nextId)
    {
      var index := 0;
      while index < |slots| && !(slots[index].id == id && slots[index].url != target)
        invariant 0 <= index <= |slots|
        invariant forall k :: 0 <= k < index ==> !(slots[k].id == id && slots[k].url != target)
      {
        index := index + 1;
      }
      if index == |slots| {
        return true;
      }
      assert slots[index] in slots;
      if !dialOk {
        return false;
      }
      slots := slots[index := Slot(nextId, target)];
      nextId := nextId + 1;
      return true;
    }

    /** Source sessions that are not held, split by the busy check. */
    method ClassifySources(target: string, held: seq<SessionId>, busy: set<SessionId>)
      returns (idle: seq<SessionId>, busyIds: seq<SessionId>)
      ensures idle == Drop(Drop(SourceIds(slots, target), ToSet(held)), busy)
      ensures busyIds == Keep(Drop(SourceIds(slots, target), ToSet(held)), busy)
    {
      idle, busyIds := [], [];
      var sources := SourceIds(slots, target);
      for i := 0 to |sources|
        invariant idle + Drop(Drop(sources[i..], ToSet(held)), busy) == Drop(Drop(sources, ToSet(held)), busy)
        invariant busyIds + Keep(Drop(sources[i..], ToSet(held)), busy) == Keep(Drop(sources, ToSet(held)), busy)
      {
        var id := sources[i];
        var rest := Drop(sources[i + 1..], ToSet(held));
        assert sources[i..][1..] == sources[i + 1..];
        if id !in held {
          assert Drop(sources[i..], ToSet(held)) == [id] + rest;
          assert ([id] + rest)[1..] == rest;
          if id in busy {
            busyIds := busyIds + [id];
          } else {
            idle := idle + [id];
          }
        }
      }
    }

    /** Redial the given sources in place until a dial fails; `moved` came up. */
    method RedialSources(ids: seq<SessionId>, target: string, budget: nat) returns (moved: nat)
      requires Valid(View()) && NoDup(ids) && ToSet(ids) <= Sources(slots, target)
      modifies this`slots, this`nextId
      ensures moved == Min(|ids|, budget)
      ensures View() == MoveIdle(old(View()), ids[..moved], target)
    {
      moved := 0;
      ghost var before, next := slots, nextId;
      while moved < |ids|
        invariant moved <= |ids| && moved <= budget
        invariant slots == RedialAll(before, ids[..moved], target, next) && nextId == next + moved
      {
        assert ids[..moved + 1][..moved] == ids[..moved];
        PrefixNoDup(ids, moved);
        RedialAllViews(before, ids[..moved], target, next);
        assert ids[moved] in ToSet(ids) && ids[moved] !in ToSet(ids[..moved]);
        var ok := MigrateSessionTo(ids[moved], target, moved < budget);
        if !ok {
          return;
        }
        moved := moved + 1;
      }
    }

    /** Dial replacements one by one until a dial fails; `ready` came up. */
    method DialAheadFor(planned: seq<SessionId>, target: string, keepSource: bool, budget: nat) returns (ready: nat)
      requires planned != []
      modifies this`slots, this`nextId, this`hold
      ensures ready == Min(|planned|, budget)
      ensures View() == DialAhead(old(View()), planned[..ready], target, keepSource)
    {
      hold := Some(Hold(target, planned, keepSource));
      ready := 0;
      ghost var before, next := slots, nextId;
      assert before + Dialed(0, target, next) == before;
      while ready < |planned|
        invariant ready <= |planned| && ready <= budget
        invariant slots == before + Dialed(ready, target, next) && nextId == next + ready
        invariant hold == Some(Hold(target, planned, keepSource))
      {
        if ready == budget {
          hold := if ready == 0 then None else Some(Hold(target, planned[..ready], keepSource));
          return;
        }
        slots := slots + [Slot(nextId, target)];
        nextId := nextId + 1;
        ready := ready + 1;
      }
      assert planned[..ready] == planned;
    }

    /** Move `toMove` sessions: idle sources in place, then dial ahead for busy ones. */
    method Move(target: string, toMove: nat, keepSource: bool, busy: set<SessionId>, budget: nat)
      returns (result: Option<nat>)
      requires Valid(View())
      modifies this`slots, this`nextId, this`hold
      ensures View() == MoveSessions(old(View()), target, toMove, keepSource, busy, budget).0
      ensures result == MoveSessions(old(View()), target, toMove, keepSource, busy, budget).1
    {
      ghost var q := View();
      var held := if hold.Some? then hold.value.pending else [];
      var idle, busyIds := ClassifySources(target, held, busy);
      assert idle == IdleMovable(q, target, busy) && busyIds == BusyMovable(q, target, busy);
      var inPlace := Min(toMove, |idle|);
      IdlePrefix(q, target, busy, inPlace);
      var moved := RedialSources(idle[..inPlace], target, budget);
      assert idle[..inPlace][..moved] == idle[..moved];
      if moved < inPlace {
        return None;
      }
      var planned := busyIds[..Min(toMove - inPlace, |busyIds|)];
      result := Ahead(planned, target, keepSource, budget - inPlace, inPlace);
    }

    method Ahead(planned: seq<SessionId>, target: string, keepSource: bool, budget: nat, inPlace: nat)
      returns (result: Option<nat>)
      modifies this`slots, this`nextId, this`hold
      ensures View() == AheadPhase(old(View()), planned, target, keepSource, budget, inPlace).0
      ensures result == AheadPhase(old(View()), planned, target, keepSource, budget, inPlace).1
    {
      if planned == [] {
        return Some(inPlace);
      }
      var ready := DialAheadFor(planned, target, keepSource, budget);
      if ready < |planned| {
        return None;
      }
      assert planned[..ready] == planned;
      return Some(inPlace + ready);
    }

    /**
     * Make-before-break migration. `busy` is what each source answers when it is classified and
     * `budget` the number of dials that succeed before one fails.
     */
    method MigrateGatewayPool(rawTarget: string, fraction: real, busy: set<SessionId>, budget: nat)
      returns (r: MigrationResult)
      requires Valid(View())
      modifies this
      ensures Trim(rawTarget) == "" ==> r == EmptyTarget && View() == old(View())
      ensures Trim(rawTarget) != "" ==>
                && View() == Migrate(old(View()), Trim(rawTarget), fraction, busy, budget).0
                && r == Migrate(old(View()), Trim(rawTarget), fraction, busy, budget).1
    {
      var target := Trim(rawTarget);
      if target == "" {
        return EmptyTarget;
      }
      r := MigrateTo(target, fraction, busy, budget);
    }

    method MigrateTo(target: string, fraction: real, busy: set<SessionId>, budget: nat) returns (r: MigrationResult)
      requires Valid(View())
      modifies this
      ensures View() == Migrate(old(View()), target, fraction, busy, budget).0
      ensures r == Migrate(old(View()), target, fraction, busy, budget).1
    {
      primary := target;
      PruneKeepsLogical(View());
      PruneMigrationHold();
      var held := if hold.Some? then hold.value.pending else [];
      var onTarget := OnTarget(slots, target);
      var plan := PlanGatewayMigration(|slots| - Min(|held|, |slots|), onTarget, fraction);
      if plan.blocked {
        return Migrated(0, onTarget, Monus(|slots|, onTarget), plan.targetCount, true, plan.reason);
      }
      r := MoveAndReport(target, fraction, plan, busy, budget);
    }

    method MoveAndReport(target: string, fraction: real, plan: MigrationPlan, busy: set<SessionId>, budget: nat)
      returns (r: MigrationResult)
      requires Valid(View()) && plan == PlanFor(View(), target, fraction) && !plan.blocked
      modifies this`slots, this`nextId, this`hold
      ensures View() == ExecuteMigration(old(View()), target, fraction, busy, budget).0
      ensures r == ExecuteMigration(old(View()), target, fraction, busy, budget).1
    {
      var moved := Move(target, plan.toMove, fraction < 1.0, busy, budget);
      if moved.None? {
        return DialFailed;
      }
      var onTarget := OnTarget(slots, target);
      r := Migrated(moved.value, onTarget, Monus(|slots|, onTarget), plan.targetCount, false, plan.reason);
    }
  }
}
