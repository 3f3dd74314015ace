/**
 * Runs of the supervised pool: any interleaving of retire-loop steps, drains, scale-ups, gateway
 * hints and migrations, where every step carries its own arbitrary observation of which sessions
 * are busy and of how many dials succeed.
 */
module PoolRuns {
  import opened Collections
  import opened Planning
  import opened PoolState
  import opened PoolFacts
  import opened Migration

  datatype Config = Config(poolTargetSize: nat, baseline: nat)

  /** The pool, the ids the deferred retire loops still watch, and how many sessions scale-ups added. */
  datatype System = System(pool: Pool, retiring: set<SessionId>, added: nat)

  datatype Act =
    | Retire(id: SessionId, busy: set<SessionId>)
    | Forget(id: SessionId)
    | Abandon(id: SessionId)  // idle at the loop's check, busy at the retire's own: the loop drops the id
    | DrainCall(count: Option<nat>, fraction: Option<real>, busy: set<SessionId>, busyAtCheck: set<SessionId>)
    | ScaleCall(targetSize: nat, succeeded: nat)
    | Hint(raw: nat, succeeded: nat, busy: set<SessionId>, busyAtCheck: set<SessionId>)
    | MigrateCall(url: string, share: real, busy: set<SessionId>, budget: nat)

  /** The pool after `act`; a retire step for an id the loop does not watch does nothing. */
  function NextPool(c: Config, s: System, act: Act): Pool {
    match act
    case Retire(id, busy) => if id in s.retiring then RetireRemove(s.pool, id, busy) else s.pool
    case Forget(id) => if id in s.retiring then RetireForget(s.pool, id) else s.pool
    case Abandon(_) => s.pool
    case DrainCall(count, fraction, busy, busyAtCheck) =>
      AfterDrain(c.poolTargetSize, s.pool, count, fraction, busy, busyAtCheck)
    case ScaleCall(targetSize, succeeded) => ScaleTo(c.poolTargetSize, s.pool, targetSize, succeeded).0
    case Hint(raw, succeeded, busy, busyAtCheck) =>
      ApplyDesired(c.poolTargetSize, c.baseline, s.pool, raw, succeeded, busy, busyAtCheck)
    case MigrateCall(url, fraction, busy, budget) => Migrate(s.pool, url, fraction, busy, budget).0
  }

  /** The ids watched after `act`; a migration starts a loop for the sources it newly holds. */
  function NextRetiring(s: System, act: Act, q: Pool): set<SessionId> {
    match act
    case Forget(id) => if id in Sources(s.pool.slots, s.pool.primary) then s.retiring else s.retiring - {id}
    case Abandon(id) => if id in Sources(s.pool.slots, s.pool.primary) then s.retiring - {id} else s.retiring
    case MigrateCall(url, _, _, _) => s.retiring + (ToSet(Pending(q)) - ToSet(Pending(Prepared(s.pool, url))))
    case _ => s.retiring
  }

  function Exec(c: Config, s: System, act: Act): System {
    var q := NextPool(c, s, act);
    var grown := if act.ScaleCall? || act.DrainCall? || act.Hint? then Monus(|q.slots|, |s.pool.slots|) else 0;
    System(q, NextRetiring(s, act, q), s.added + grown)
  }

  /** A hint for more sessions than there are is a scale-up. */
  lemma HintScales(c: Config, s: System, raw: nat, succeeded: nat, busy: set<SessionId>, busyAtCheck: set<SessionId>)
    requires ClampDesired(raw, c.baseline, c.poolTargetSize) > |s.pool.slots|
    ensures Exec(c, s, Hint(raw, succeeded, busy, busyAtCheck))
            == Exec(c, s, ScaleCall(ClampDesired(raw, c.baseline, c.poolTargetSize), succeeded))
  {
  }

  /** A hint for fewer is a counted drain. */
  lemma HintDrains(c: Config, s: System, raw: nat, succeeded: nat, busy: set<SessionId>, busyAtCheck: set<SessionId>)
    requires ClampDesired(raw, c.baseline, c.poolTargetSize) < |s.pool.slots|
    ensures
      var count := |s.pool.slots| - ClampDesired(raw, c.baseline, c.poolTargetSize);
      Exec(c, s, Hint(raw, succeeded, busy, busyAtCheck))
      == Exec(c, s, DrainCall(Some(count), None, busy, busyAtCheck))
  {
  }

  /** A hint for as many as there are does nothing. */
  lemma HintRests(c: Config, s: System, raw: nat, succeeded: nat, busy: set<SessionId>, busyAtCheck: set<SessionId>)
    requires ClampDesired(raw, c.baseline, c.poolTargetSize) == |s.pool.slots|
    ensures Exec(c, s, Hint(raw, succeeded, busy, busyAtCheck)) == s
  {
  }

  function Run(c: Config, s: System, acts: seq<Act>): System {
    if acts == [] then s
    else Exec(c, Run(c, s, acts[..|acts| - 1]), acts[|acts| - 1])
  }

  lemma {:induction false} RunConcat(c: Config, s: System, a: seq<Act>, b: seq<Act>)
    ensures Run(c, s, a + b) == Run(c, Run(c, s, a), b)
  {
    if b == [] {
      assert a + b == a;
    } else {
      var b' := b[..|b| - 1];
      assert (a + b)[..|a + b| - 1] == a + b';
      RunConcat(c, s, a, b');
    }
  }

  lemma RunLast(c: Config, s: System, acts: seq<Act>)
    requires acts != []
    ensures Run(c, s, acts) == Exec(c, Run(c, s, acts[..|acts| - 1]), acts[|acts| - 1])
  {
  }

  /** The pool after boot, of whose dials `succeeded` came up. */
  function Booted(c: Config, url: string, fraction: Option<real>, succeeded: nat): System {
    var empty := Pool([], None, url, 0);
    System(ConnectMany(empty, BootSessionCount(c.poolTargetSize, c.baseline, fraction), succeeded), {}, 0)
  }

  // ---------------------------------------------------------------- drain

  lemma {:induction false} CandidatesView(slots: seq<Slot>, prot: Option<string>, busy: set<SessionId>)
    requires DistinctIds(slots)
    ensures NoDup(DrainCandidates(slots, prot, busy))
    ensures forall x :: x in DrainCandidates(slots, prot, busy) <==>
                        exists s :: s in slots && s.id == x && x !in busy && prot != Some(s.url)
  {
    if slots != [] {
      var rest := slots[1..];
      CandidatesView(rest, prot, busy);
      assert forall s :: s in slots <==> s == slots[0] || s in rest;
      assert forall s :: s in rest ==> s.id != slots[0].id;
    }
  }

  lemma DrainedFacts(size: nat, p: Pool, count: Option<nat>, fraction: Option<real>,
                     busy: set<SessionId>, busyAtCheck: set<SessionId>)
    requires Valid(p)
    ensures
      var gone := Drained(size, p, count, fraction, busy, busyAtCheck);
      && gone <= IdSet(p.slots) && gone !! busy && gone !! busyAtCheck
      && (p.hold.Some? ==> gone <= Sources(p.slots, p.hold.value.target))
      && (!KeepsSource(p) ==> |gone| <= |DrainChoice(size, p, count, fraction, busy)|)
  {
    var candidates := DrainCandidates(p.slots, ProtectedTarget(p), busy);
    CandidatesView(p.slots, ProtectedTarget(p), busy);
    if !KeepsSource(p) {
      var choice := DrainChoice(size, p, count, fraction, busy);
      PrefixNoDup(candidates, |choice|);
      SubsetCardinality(ToSet(choice) - busyAtCheck, ToSet(choice));
      forall x | x in choice
        ensures x in IdSet(p.slots) && x !in busy
        ensures p.hold.Some? ==> x in Sources(p.slots, p.hold.value.target)
      {
        assert x in candidates;
        var s :| s in p.slots && s.id == x && x !in busy && ProtectedTarget(p) != Some(s.url);
      }
    }
  }

  /**
   * A drain removes only sessions that were idle both when listed and at their own check, keeps the
   * rest in order, accounts for every session, and leaves a protected target alone.
   */
  lemma DrainOutcome(size: nat, p: Pool, count: Option<nat>, fraction: Option<real>,
                     busy: set<SessionId>, busyAtCheck: set<SessionId>)
    requires Valid(p)
    ensures
      var q := AfterDrain(size, p, count, fraction, busy, busyAtCheck);
      var r := DrainReport(size, p, count, fraction, busy, busyAtCheck);
      var gone := Drained(size, p, count, fraction, busy, busyAtCheck);
      && q == p.(slots := RemoveIds(p.slots, gone)) && Valid(q)
      && gone <= IdSet(p.slots) && gone !! busy && gone !! busyAtCheck
      && r.drained == |gone| && r.remaining == |q.slots| && r.drained + r.remaining == |p.slots|
      && (p.hold.Some? ==> Targets(q.slots, p.hold.value.target) == Targets(p.slots, p.hold.value.target))
      && (KeepsSource(p) ==> q == p)
  {
    var gone := Drained(size, p, count, fraction, busy, busyAtCheck);
    DrainedFacts(size, p, count, fraction, busy, busyAtCheck);
    RemoveIdsCount(p.slots, gone);
    RemoveIdsMembers(p.slots, gone);
    RemoveIdsDistinct(p.slots, gone);
    if KeepsSource(p) {
      RemoveNothing(p.slots, {});
    }
    if p.hold.Some? {
      var target := p.hold.value.target;
      RemoveIdsViews(p.slots, gone, target);
      SlotCounts(p.slots, target);
    }
  }

  lemma DrainSize(size: nat, p: Pool, count: Option<nat>, fraction: Option<real>,
                  busy: set<SessionId>, busyAtCheck: set<SessionId>)
    requires Valid(p)
    ensures |AfterDrain(size, p, count, fraction, busy, busyAtCheck).slots|
            == |p.slots| - |Drained(size, p, count, fraction, busy, busyAtCheck)|
  {
    DrainOutcome(size, p, count, fraction, busy, busyAtCheck);
  }

  lemma DrainIsRemoval(c: Config, s: System, count: Option<nat>, fraction: Option<real>, busy: set<SessionId>,
                       busyAtCheck: set<SessionId>)
    requires Valid(s.pool)
    ensures
      var gone := Drained(c.poolTargetSize, s.pool, count, fraction, busy, busyAtCheck);
      Exec(c, s, DrainCall(count, fraction, busy, busyAtCheck))
      == s.(pool := s.pool.(slots := RemoveIds(s.pool.slots, gone)))
  {
    DrainOutcome(c.poolTargetSize, s.pool, count, fraction, busy, busyAtCheck);
  }

  /** A drain reports blocked exactly when it was refused or removed fewer sessions than asked for. */
  lemma DrainReportsBlocked(size: nat, p: Pool, count: Option<nat>, fraction: Option<real>,
                            busy: set<SessionId>, busyAtCheck: set<SessionId>)
    requires Valid(p)
    ensures
      var r := DrainReport(size, p, count, fraction, busy, busyAtCheck);
      r.blocked <==>
      || KeepsSource(p)
      || DrainRejected(size, |p.slots|, fraction, count)
      || r.drained < WantDrain(size, |p.slots|, fraction, count)
  {
    var candidates := DrainCandidates(p.slots, ProtectedTarget(p), busy);
    DrainPlanMeaning(size, |p.slots|, fraction, count, |candidates|);
    DrainedFacts(size, p, count, fraction, busy, busyAtCheck);
  }

  /** Idle sessions that no armed hold protects. */
  function Drainable(p: Pool, busy: set<SessionId>): set<SessionId> {
    set s | s in p.slots && s.id !in busy
            && !(p.hold.Some? && p.hold.value.pending != [] && p.hold.value.target == s.url) :: s.id
  }

  /** Candidates are listed in slot order: those of a prefix of the slots come first. */
  lemma {:induction false} CandidatesInOrder(a: seq<Slot>, b: seq<Slot>, prot: Option<string>, busy: set<SessionId>)
    ensures DrainCandidates(a, prot, busy) <= DrainCandidates(a + b, prot, busy)
  {
    if a != [] {
      assert (a + b)[0] == a[0] && (a + b)[1..] == a[1..] + b;
      CandidatesInOrder(a[1..], b, prot, busy);
    }
  }

  lemma DrainableCount(p: Pool, busy: set<SessionId>)
    requires Valid(p)
    ensures NoDup(DrainCandidates(p.slots, ProtectedTarget(p), busy))
    ensures ToSet(DrainCandidates(p.slots, ProtectedTarget(p), busy)) == Drainable(p, busy)
    ensures |DrainCandidates(p.slots, ProtectedTarget(p), busy)| == |Drainable(p, busy)|
  {
    var candidates := DrainCandidates(p.slots, ProtectedTarget(p), busy);
    CandidatesView(p.slots, ProtectedTarget(p), busy);
    NoDupCardinality(candidates);
    assert ToSet(candidates) == Drainable(p, busy);
  }

  /**
   * A drain never removes more than was asked; when it is not refused and no idle session turns
   * busy before its own check, it removes as many as asked or, if they are fewer, all that are idle.
   */
  lemma DrainsAsAsked(size: nat, p: Pool, count: Option<nat>, fraction: Option<real>,
                      busy: set<SessionId>, busyAtCheck: set<SessionId>)
    requires Valid(p)
    ensures
      var want, gone := WantDrain(size, |p.slots|, fraction, count), Drained(size, p, count, fraction, busy, busyAtCheck);
      && |gone| <= want
      && (busyAtCheck <= busy && !KeepsSource(p) && !DrainRejected(size, |p.slots|, fraction, count) ==>
            |gone| == Min(want, |Drainable(p, busy)|))
  {
    var candidates := DrainCandidates(p.slots, ProtectedTarget(p), busy);
    var choice := DrainChoice(size, p, count, fraction, busy);
    DrainPlanMeaning(size, |p.slots|, fraction, count, |candidates|);
    DrainedFacts(size, p, count, fraction, busy, busyAtCheck);
    DrainableCount(p, busy);
    PrefixNoDup(candidates, |choice|);
    if busyAtCheck <= busy {
      assert ToSet(choice) - busyAtCheck == ToSet(choice);
    }
  }

  /** Why a drain is blocked, as reported; sessions that turn busy at their own check leave no reason. */
  lemma DrainReason(size: nat, p: Pool, count: Option<nat>, fraction: Option<real>,
                    busy: set<SessionId>, busyAtCheck: set<SessionId>)
    requires Valid(p)
    ensures
      DrainReport(size, p, count, fraction, busy, busyAtCheck).reason
      == if KeepsSource(p) then Some("migration_hold")
         else if DrainRejected(size, |p.slots|, fraction, count)
         then Some(if count.Some? then "invalid_count" else if size == 0 then "pool_size_zero" else "invalid_fraction")
         else if |Drainable(p, busy)| < WantDrain(size, |p.slots|, fraction, count)
         then Some("insufficient_idle_sessions")
         else None
  {
    DrainableCount(p, busy);
    PlanReason(size, |p.slots|, fraction, count, |DrainCandidates(p.slots, ProtectedTarget(p), busy)|);
  }

  /** The remaining size a drain aims at: what is left if no chosen session turns busy. */
  lemma DrainAim(size: nat, p: Pool, count: Option<nat>, fraction: Option<real>,
                 busy: set<SessionId>, busyAtCheck: set<SessionId>)
    requires Valid(p)
    ensures
      DrainReport(size, p, count, fraction, busy, busyAtCheck).targetRemaining
      == if KeepsSource(p) || DrainRejected(size, |p.slots|, fraction, count) then |p.slots|
         else |p.slots| - Min(WantDrain(size, |p.slots|, fraction, count), |Drainable(p, busy)|)
  {
    DrainableCount(p, busy);
    DrainPlanMeaning(size, |p.slots|, fraction, count, |DrainCandidates(p.slots, ProtectedTarget(p), busy)|);
  }

  lemma PlanReason(size: nat, current: nat, fraction: Option<real>, count: Option<nat>, idle: nat)
    ensures
      PlanPoolDrain(size, current, fraction, count, idle).reason
      == if DrainRejected(size, current, fraction, count)
         then Some(if count.Some? then "invalid_count" else if size == 0 then "pool_size_zero" else "invalid_fraction")
         else if idle < WantDrain(size, current, fraction, count) then Some("insufficient_idle_sessions")
         else None
  {
  }

  /**
   * A fraction drain that is not blocked leaves at most floor(size * (1 - fraction)) sessions, and
   * with no idle session turning busy it removes exactly the excess, as far as sessions are idle.
   */
  lemma FractionDrainExact(size: nat, p: Pool, fraction: real, busy: set<SessionId>, busyAtCheck: set<SessionId>)
    requires Valid(p) && size >= 1 && 0.0 <= fraction <= 1.0
    ensures
      var keep := (size as real * (1.0 - fraction)).Floor;
      var q := AfterDrain(size, p, None, Some(fraction), busy, busyAtCheck);
      && (!DrainReport(size, p, None, Some(fraction), busy, busyAtCheck).blocked ==> |q.slots| <= keep)
      && (busyAtCheck <= busy && (p.hold.Some? ==> !p.hold.value.keepSource) ==>
            |p.slots| - |q.slots| == Min(Max(0, |p.slots| - keep), |Drainable(p, busy)|))
  {
    FractionDrainWants(size, |p.slots|, fraction);
    DrainSize(size, p, None, Some(fraction), busy, busyAtCheck);
    DrainReportsBlocked(size, p, None, Some(fraction), busy, busyAtCheck);
    DrainOutcome(size, p, None, Some(fraction), busy, busyAtCheck);
    DrainsAsAsked(size, p, None, Some(fraction), busy, busyAtCheck);
  }

  /** A fraction drain that was not blocked leaves nothing for an immediate repeat to drain. */
  lemma DrainFractionSettles(size: nat, p: Pool, fraction: real, busy: set<SessionId>, busyAtCheck: set<SessionId>,
                             busy': set<SessionId>, busyAtCheck': set<SessionId>)
    requires Valid(p)
    requires !DrainReport(size, p, None, Some(fraction), busy, busyAtCheck).blocked
    ensures
      var q := AfterDrain(size, p, None, Some(fraction), busy, busyAtCheck);
      var again := AfterDrain(size, q, None, Some(fraction), busy', busyAtCheck');
      var r := DrainReport(size, q, None, Some(fraction), busy', busyAtCheck');
      again == q && r.drained == 0 && !r.blocked
  {
    DrainOutcome(size, p, None, Some(fraction), busy, busyAtCheck);
    var q := AfterDrain(size, p, None, Some(fraction), busy, busyAtCheck);
    DrainOutcome(size, q, None, Some(fraction), busy', busyAtCheck');
    DrainReportsBlocked(size, p, None, Some(fraction), busy, busyAtCheck);
    DrainReportsBlocked(size, q, None, Some(fraction), busy', busyAtCheck');
    var choice := DrainChoice(size, q, None, Some(fraction), busy');
    DrainPlanMeaning(size, |q.slots|, Some(fraction), None, |DrainCandidates(q.slots, ProtectedTarget(q), busy')|);
    assert WantDrain(size, |q.slots|, Some(fraction), None) == 0;
    assert choice == [];
    assert ToSet(choice) == {};
    RemoveNothing(q.slots, {});
  }

  // ---------------------------------------------------------------- removal and growth of the logical pool

  /** Removing sessions: held sources leave the logical size alone, others lower it. */
  lemma RemovalLogical(p: Pool, gone: set<SessionId>)
    requires Valid(p) && gone <= IdSet(p.slots)
    ensures Valid(p.(slots := RemoveIds(p.slots, gone)))
    ensures Outstanding(p.(slots := RemoveIds(p.slots, gone))) == Outstanding(p) - gone
    ensures Logical(p.(slots := RemoveIds(p.slots, gone))) == Logical(p) - |gone - Outstanding(p)|
  {
    RemoveIdsMembers(p.slots, gone);
    RemoveIdsCount(p.slots, gone);
    RemoveIdsDistinct(p.slots, gone);
    RemovalOutstanding(p, gone);
    DifferenceCardinality(Outstanding(p), gone);
  }

  /** Removing held sources only. */
  lemma HeldRemoval(p: Pool, gone: set<SessionId>)
    requires Valid(p) && gone <= Outstanding(p)
    ensures Valid(p.(slots := RemoveIds(p.slots, gone)))
    ensures Logical(p.(slots := RemoveIds(p.slots, gone))) == Logical(p)
  {
    if p.hold.Some? {
      SourceTargetIds(p.slots, p.hold.value.target);
    }
    assert gone - Outstanding(p) == {};
    RemovalLogical(p, gone);
  }

  lemma RemovalOutstanding(p: Pool, gone: set<SessionId>)
    requires Valid(p)
    ensures Outstanding(p.(slots := RemoveIds(p.slots, gone))) == Outstanding(p) - gone
  {
    if p.hold.Some? {
      RemoveIdsViews(p.slots, gone, p.hold.value.target);
    }
  }

  lemma ConnectLogical(p: Pool, n: nat, succeeded: nat)
    requires Valid(p)
    ensures
      var q := ConnectMany(p, n, succeeded);
      var k := Min(n, succeeded);
      && Valid(q) && p.slots <= q.slots && |q.slots| == |p.slots| + k
      && Outstanding(q) == Outstanding(p) && Logical(q) == Logical(p) + k
      && Sources(q.slots, p.primary) == Sources(p.slots, p.primary)
      && Targets(p.slots, p.primary) <= Targets(q.slots, p.primary)
      && OnTarget(q.slots, p.primary) == OnTarget(p.slots, p.primary) + k
  {
    var k := Min(n, succeeded);
    var q := ConnectMany(p, n, succeeded);
    DialedViews(p.slots, k, p.primary, p.nextId);
    SlotCounts(p.slots, p.primary);
    SlotCounts(q.slots, p.primary);
    if p.hold.Some? {
      DialedOther(p.slots, k, p.primary, p.nextId, p.hold.value.target, ToSet(p.hold.value.pending));
    }
  }

  /**
   * A scale-up is refused exactly for a size outside 1..pool size, fails exactly when not all dials
   * came up, and otherwise reports how much the pool grew; either way what came up stays.
   */
  lemma ScaleReport(size: nat, p: Pool, targetSize: nat, succeeded: nat)
    requires Valid(p)
    ensures
      var (q, r) := ScaleTo(size, p, targetSize, succeeded);
      && (r.ScaleRejected? <==> !(1 <= targetSize <= size))
      && (r.ScaleRejected? ==> r.reason == Some(if size == 0 then "pool_size_zero" else "invalid_target_size"))
      && (r.ScaleFailed? <==> 1 <= targetSize <= size && succeeded < targetSize - |p.slots|)
      && (r.Scaled? ==> r.added == |q.slots| - |p.slots| && |q.slots| == Max(|p.slots|, targetSize))
      && |q.slots| == |p.slots| + (if r.ScaleRejected? then 0 else Min(Monus(targetSize, |p.slots|), succeeded))
      && OnTarget(q.slots, p.primary) - OnTarget(p.slots, p.primary) == |q.slots| - |p.slots|
  {
    var plan := PlanPoolScale(size, |p.slots|, targetSize);
    if !plan.blocked {
      ConnectLogical(p, plan.toAdd, succeeded);
    }
  }

  /** Forgetting an id that is no longer an outstanding source. */
  lemma ForgetLogical(p: Pool, id: SessionId)
    requires Valid(p) && id !in Outstanding(p)
    ensures Valid(ForgetPending(p, id)) && Outstanding(ForgetPending(p, id)) == Outstanding(p)
    ensures Logical(ForgetPending(p, id)) == Logical(p)
  {
    if p.hold.Some? {
      var h := p.hold.value;
      KeepNoDup(h.pending, {id});
      assert ToSet(Drop(h.pending, {id})) == ToSet(h.pending) - {id};
      if Drop(h.pending, {id}) == [] {
        assert ToSet(h.pending) - {id} == {};
        assert Outstanding(p) == {};
      }
    }
  }
}
