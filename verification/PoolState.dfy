/**
 * The supervised pool as a value: its slots, migration hold and primary gateway, and what each
 * pool operation does to them.
 *
 * A session id is the rank in which the connector issued it, so the next id is always fresh.
 * Each operation asks every session at most once per phase whether it is busy; one set of busy
 * ids per phase therefore covers every way sessions may turn busy or idle while it runs.
 * A migration stops at its first failed dial, so `budget`, the number of dials that succeed
 * before one fails, covers every pattern of dial outcomes.
 */
module PoolState {
  import opened Collections
  import opened Planning

  type SessionId = nat

  datatype Slot = Slot(id: SessionId, url: string)

  datatype Hold = Hold(target: string, pending: seq<SessionId>, keepSource: bool)

  datatype Pool = Pool(slots: seq<Slot>, hold: Option<Hold>, primary: string, nextId: SessionId)

  // ---------------------------------------------------------------- views of the slots

  ghost predicate DistinctIds(slots: seq<Slot>) {
    forall i, j :: 0 <= i < j < |slots| ==> slots[i].id != slots[j].id
  }

  function IdSet(slots: seq<Slot>): set<SessionId> {
    set s | s in slots :: s.id
  }

  /** Sessions that do not sit on `target`. */
  function Sources(slots: seq<Slot>, target: string): set<SessionId> {
    set s | s in slots && s.url != target :: s.id
  }

  function Targets(slots: seq<Slot>, target: string): set<SessionId> {
    set s | s in slots && s.url == target :: s.id
  }

  function OnTarget(slots: seq<Slot>, target: string): nat {
    if slots == [] then 0
    else (if slots[0].url == target then 1 else 0) + OnTarget(slots[1..], target)
  }

  function SourceIds(slots: seq<Slot>, target: string): seq<SessionId> {
    if slots == [] then []
    else if slots[0].url == target then SourceIds(slots[1..], target)
    else [slots[0].id] + SourceIds(slots[1..], target)
  }

  ghost predicate Valid(p: Pool) {
    && DistinctIds(p.slots)
    && (forall s :: s in p.slots ==> s.id < p.nextId)
    && (p.hold.Some? ==>
          && p.hold.value.pending != []
          && NoDup(p.hold.value.pending)
          && forall x :: x in p.hold.value.pending ==> x < p.nextId)
  }

  function Pending(p: Pool): seq<SessionId> {
    if p.hold.Some? then p.hold.value.pending else []
  }

  /** Held source sessions that are still in the pool. */
  function Outstanding(p: Pool): set<SessionId> {
    if p.hold.Some? then ToSet(p.hold.value.pending) * Sources(p.slots, p.hold.value.target) else {}
  }

  /** Live sessions, not counting held sources whose replacement is already up. */
  function Logical(p: Pool): int {
    |p.slots| - |Outstanding(p)|
  }

  // ---------------------------------------------------------------- slot edits

  /** The slots whose id is not in `gone`, in order. */
  function RemoveIds(slots: seq<Slot>, gone: set<SessionId>): seq<Slot> {
    if slots == [] then []
    else if slots[0].id in gone then RemoveIds(slots[1..], gone)
    else [slots[0]] + RemoveIds(slots[1..], gone)
  }

  /** Replace session `id` in place by a session `newId` on `url`. */
  function Redial(slots: seq<Slot>, id: SessionId, url: string, newId: SessionId): (r: seq<Slot>)
    ensures |r| == |slots|
  {
    seq(|slots|, i requires 0 <= i < |slots| => if slots[i].id == id then Slot(newId, url) else slots[i])
  }

  function RedialAll(slots: seq<Slot>, ids: seq<SessionId>, url: string, next: SessionId): (r: seq<Slot>)
    ensures |r| == |slots|
  {
    if ids == [] then slots
    else
      var k := |ids| - 1;
      Redial(RedialAll(slots, ids[..k], url, next), ids[k], url, next + k)
  }

  function Dialed(n: nat, url: string, next: SessionId): (r: seq<Slot>)
    ensures |r| == n
  {
    seq(n, j requires 0 <= j < n => Slot(next + j, url))
  }

  // ---------------------------------------------------------------- the hold

  function PruneHold(p: Pool): Pool {
    if p.hold.None? then p
    else
      var h := p.hold.value;
      var pending := Keep(h.pending, Sources(p.slots, h.target));
      if pending == [] then p.(hold := None) else p.(hold := Some(h.(pending := pending)))
  }

  function ForgetPending(p: Pool, id: SessionId): Pool {
    if p.hold.None? then p
    else
      var h := p.hold.value;
      var pending := Drop(h.pending, {id});
      if pending == [] then p.(hold := None) else p.(hold := Some(h.(pending := pending)))
  }

  predicate KeepsSource(p: Pool) {
    p.hold.Some? && p.hold.value.keepSource && p.hold.value.pending != []
  }

  function ProtectedTarget(p: Pool): Option<string> {
    if p.hold.Some? && p.hold.value.pending != [] then Some(p.hold.value.target) else None
  }

  // ---------------------------------------------------------------- drain

  datatype DrainResult =
    DrainResult(drained: nat, remaining: nat, targetRemaining: nat, blocked: bool, reason: Option<string>)

  /** Idle sessions off the protected target, in slot order. */
  function DrainCandidates(slots: seq<Slot>, protectedTarget: Option<string>, busy: set<SessionId>): seq<SessionId> {
    if slots == [] then []
    else if slots[0].id in busy || protectedTarget == Some(slots[0].url)
    then DrainCandidates(slots[1..], protectedTarget, busy)
    else [slots[0].id] + DrainCandidates(slots[1..], protectedTarget, busy)
  }

  function DrainChoice(poolTargetSize: nat, p: Pool, count: Option<nat>, fraction: Option<real>, busy: set<SessionId>)
    : seq<SessionId>
  {
    var candidates := DrainCandidates(p.slots, ProtectedTarget(p), busy);
    var plan := PlanPoolDrain(poolTargetSize, |p.slots|, fraction, count, |candidates|);
    candidates[..plan.toDrain]
  }

  /** Sessions a drain removes: chosen while idle and still idle at their own second check. */
  function Drained(poolTargetSize: nat, p: Pool, count: Option<nat>, fraction: Option<real>,
                   busy: set<SessionId>, busyAtCheck: set<SessionId>): set<SessionId>
  {
    if KeepsSource(p) then {}
    else ToSet(DrainChoice(poolTargetSize, p, count, fraction, busy)) - busyAtCheck
  }

  /** The pool without the drained sessions; a keep-source hold forbids any drain. */
  function AfterDrain(poolTargetSize: nat, p: Pool, count: Option<nat>, fraction: Option<real>,
                      busy: set<SessionId>, busyAtCheck: set<SessionId>): Pool
  {
    if KeepsSource(p) then p
    else p.(slots := RemoveIds(p.slots, Drained(poolTargetSize, p, count, fraction, busy, busyAtCheck)))
  }

  function DrainReport(poolTargetSize: nat, p: Pool, count: Option<nat>, fraction: Option<real>,
                       busy: set<SessionId>, busyAtCheck: set<SessionId>): DrainResult
  {
    if KeepsSource(p) then DrainResult(0, |p.slots|, |p.slots|, true, Some("migration_hold"))
    else
      var candidates := DrainCandidates(p.slots, ProtectedTarget(p), busy);
      var plan := PlanPoolDrain(poolTargetSize, |p.slots|, fraction, count, |candidates|);
      var drained := |Drained(poolTargetSize, p, count, fraction, busy, busyAtCheck)|;
      DrainResult(drained, |AfterDrain(poolTargetSize, p, count, fraction, busy, busyAtCheck).slots|,
                  plan.targetRemaining, plan.blocked || (plan.toDrain > 0 && drained < plan.toDrain), plan.reason)
  }

  // ---------------------------------------------------------------- scale, boot, hints

  datatype ScaleOutcome = Scaled(added: nat) | ScaleRejected(reason: Option<string>) | ScaleFailed

  /** Dial up to `n` sessions onto the primary gateway; `succeeded` of them come up. */
  function ConnectMany(p: Pool, n: nat, succeeded: nat): Pool {
    var k := Min(n, succeeded);
    p.(slots := p.slots + Dialed(k, p.primary, p.nextId), nextId := p.nextId + k)
  }

  function ScaleTo(poolTargetSize: nat, p: Pool, targetSize: nat, succeeded: nat): (Pool, ScaleOutcome) {
    var plan := PlanPoolScale(poolTargetSize, |p.slots|, targetSize);
    if plan.blocked then (p, ScaleRejected(plan.reason))
    else
      (ConnectMany(p, plan.toAdd, succeeded), if succeeded < plan.toAdd then ScaleFailed else Scaled(plan.toAdd))
  }

  /** Scale up or idle-drain towards `desired` sessions. */
  function AdjustTo(poolTargetSize: nat, p: Pool, desired: nat, succeeded: nat,
                    busy: set<SessionId>, busyAtCheck: set<SessionId>): Pool
  {
    if desired == |p.slots| then p
    else if desired > |p.slots| then ScaleTo(poolTargetSize, p, desired, succeeded).0
    else AfterDrain(poolTargetSize, p, Some(|p.slots| - desired), None, busy, busyAtCheck)
  }

  function ApplyDesired(poolTargetSize: nat, baseline: nat, p: Pool, raw: nat, succeeded: nat,
                        busy: set<SessionId>, busyAtCheck: set<SessionId>): Pool
  {
    AdjustTo(poolTargetSize, p, ClampDesired(raw, baseline, poolTargetSize), succeeded, busy, busyAtCheck)
  }

  // ---------------------------------------------------------------- retire

  /** The retire loop's removal of one source that left the busy state. */
  function RetireRemove(p: Pool, id: SessionId, busy: set<SessionId>): Pool {
    if id in Sources(p.slots, p.primary) && id !in busy then p.(slots := RemoveIds(p.slots, {id})) else p
  }

  /** The retire loop's bookkeeping once the source is gone. */
  function RetireForget(p: Pool, id: SessionId): Pool {
    if id in Sources(p.slots, p.primary) then p else ForgetPending(p, id)
  }

  // ---------------------------------------------------------------- migration

  datatype MigrationResult =
    | EmptyTarget
    | DialFailed
    | Migrated(moved: nat, onTarget: nat, onSource: nat, targetCount: nat, blocked: bool, reason: Option<string>)

  /** Primary switched to the target and the hold pruned: what a migrate call plans from. */
  function Prepared(p: Pool, target: string): Pool {
    PruneHold(p.(primary := target))
  }

  function MigrationLogical(p: Pool): nat {
    |p.slots| - Min(|Pending(p)|, |p.slots|)
  }

  function PlanFor(p: Pool, target: string, fraction: real): MigrationPlan {
    PlanGatewayMigration(MigrationLogical(p), OnTarget(p.slots, target), fraction)
  }

  /** Source sessions not already held, split by the busy check. */
  function IdleMovable(p: Pool, target: string, busy: set<SessionId>): seq<SessionId> {
    Drop(Drop(SourceIds(p.slots, target), ToSet(Pending(p))), busy)
  }

  function BusyMovable(p: Pool, target: string, busy: set<SessionId>): seq<SessionId> {
    Keep(Drop(SourceIds(p.slots, target), ToSet(Pending(p))), busy)
  }

  /** Redial the given idle sources in place. */
  function MoveIdle(p: Pool, ids: seq<SessionId>, target: string): Pool {
    p.(slots := RedialAll(p.slots, ids, target, p.nextId), nextId := p.nextId + |ids|)
  }

  /** Dial `ready` replacements ahead and hold their sources. */
  function DialAhead(p: Pool, ready: seq<SessionId>, target: string, keepSource: bool): Pool {
    Pool(p.slots + Dialed(|ready|, target, p.nextId),
         if ready == [] then None else Some(Hold(target, ready, keepSource)),
         p.primary, p.nextId + |ready|)
  }

  /** The busy sources to replace when `toMove` sessions must move. */
  function PlannedOf(p: Pool, target: string, toMove: nat, busy: set<SessionId>): seq<SessionId> {
    var busyIds := BusyMovable(p, target, busy);
    busyIds[..Min(Monus(toMove, |IdleMovable(p, target, busy)|), |busyIds|)]
  }

  function PlannedBusy(p: Pool, target: string, fraction: real, busy: set<SessionId>): seq<SessionId> {
    PlannedOf(p, target, PlanFor(p, target, fraction).toMove, busy)
  }

  /** Dial ahead for `planned`; None if a dial failed, else how many sessions moved in all. */
  function AheadPhase(q: Pool, planned: seq<SessionId>, target: string, keepSource: bool, budget: nat, inPlace: nat)
    : (Pool, Option<nat>)
  {
    if planned == [] then (q, Some(inPlace))
    else if |planned| <= budget then (DialAhead(q, planned, target, keepSource), Some(inPlace + |planned|))
    else (DialAhead(q, planned[..budget], target, keepSource), None)
  }

  /** Move `toMove` sessions; None if a dial failed, else how many moved. */
  function MoveSessions(p: Pool, target: string, toMove: nat, keepSource: bool, busy: set<SessionId>, budget: nat)
    : (Pool, Option<nat>)
  {
    var idle := IdleMovable(p, target, busy);
    var inPlace := Min(toMove, |idle|);
    if budget < inPlace then (MoveIdle(p, idle[..budget], target), None)
    else AheadPhase(MoveIdle(p, idle[..inPlace], target), PlannedOf(p, target, toMove, busy),
                    target, keepSource, budget - inPlace, inPlace)
  }

  function ExecuteMigration(p: Pool, target: string, fraction: real, busy: set<SessionId>, budget: nat)
    : (Pool, MigrationResult)
  {
    var plan := PlanFor(p, target, fraction);
    var (q, moved) := MoveSessions(p, target, plan.toMove, fraction < 1.0, busy, budget);
    (q, if moved.None? then DialFailed else Outcome(q, target, moved.value, plan))
  }

  function Outcome(p: Pool, target: string, moved: nat, plan: MigrationPlan): MigrationResult {
    Migrated(moved, OnTarget(p.slots, target), Monus(|p.slots|, OnTarget(p.slots, target)),
             plan.targetCount, plan.blocked, plan.reason)
  }

  /** A migrate call to a target gateway that is not blank. */
  function Migrate(p: Pool, target: string, fraction: real, busy: set<SessionId>, budget: nat)
    : (Pool, MigrationResult)
  {
    var q := Prepared(p, target);
    var plan := PlanFor(q, target, fraction);
    if plan.blocked then (q, Outcome(q, target, 0, plan))
    else ExecuteMigration(q, target, fraction, busy, budget)
  }
}
