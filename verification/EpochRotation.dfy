/**
 * Epoch rotation over whole runs: the schedule loop, minting and posting an epoch, the decryptor's
 * prune task, and the provider's handle table, interleaved in any order.
 */
module EpochRotation {
  import opened Collections
  import opened EpochStore

  datatype Policy = Policy(ttlMs: nat, leadMs: nat, graceMs: nat)

  /** When the schedule loop wants the next epoch. */
  function RotateAt(notAfter: nat, lead: nat, now: nat): (at: nat)
    ensures now <= at && notAfter <= at + lead
    ensures at == now || at + lead == notAfter
  {
    var due := Monus(notAfter, lead);
    if now >= due then now else due
  }

  /** `minted` is an epoch created by a rotation that has not finished posting it yet. */
  datatype Rotator = Rotator(
    now: nat,
    nextHandle: Handle,
    engines: map<Handle, Secret>,
    epochs: map<EpochId, Epoch>,
    current: Epoch,
    minted: Option<Epoch>,
    rotating: bool,
    stopped: bool)

  datatype Act =
    | Tick(ms: nat)
    | Mint(suffix: nat, secret: Secret, usageKey: SigningKey, ok: bool, forced: bool)  // a rotation creates its epoch
    | Post(statuses: seq<Option<nat>>)                                                 // one answer per live session
    | Prune(graceOverride: Option<nat>)
    | Stop

  function NewEpoch(p: Policy, now: nat, suffix: nat, secret: Secret, handle: Handle, usageKey: SigningKey): Epoch {
    Epoch(EpochId(now, suffix), now, now + p.ttlMs, secret, Some(handle), usageKey)
  }

  function Init(p: Policy, now: nat, suffix: nat, secret: Secret, usageKey: SigningKey): Rotator {
    var e := NewEpoch(p, now, suffix, secret, 1, usageKey);
    Rotator(now, 2, map[1 := secret], map[e.id := e], e, None, false, false)
  }

  /** The epoch counts as registered when some session is live and every session answered 201. */
  predicate AllRegistered(statuses: seq<Option<nat>>) {
    statuses != [] && forall i :: 0 <= i < |statuses| ==> statuses[i] == Some(201)
  }

  /** One step; unless forced, a rotation mints only once the current epoch is within its lead of expiry. */
  function Exec(p: Policy, s: Rotator, act: Act): Rotator {
    match act
    case Tick(ms) => s.(now := s.now + ms)
    case Mint(suffix, secret, usageKey, ok, forced) =>
      if s.stopped || s.rotating || (!forced && s.now < RotateAt(s.current.notAfter, p.leadMs, 0)) then s
      else if !ok then s.(rotating := true)
      else s.(rotating := true, nextHandle := s.nextHandle + 1,
              engines := s.engines[s.nextHandle := secret],
              minted := Some(NewEpoch(p, s.now, suffix, secret, s.nextHandle, usageKey)))
    case Post(statuses) =>
      if s.minted.None? then s
      else if !AllRegistered(statuses) then s.(minted := None)
      else
        var e := s.minted.value;
        s.(epochs := s.epochs[e.id := e], current := e, minted := None, rotating := false)
    case Prune(graceOverride) =>
      var gone := Retired(s.epochs, s.current.id, s.now, graceOverride.GetOr(p.graceMs));
      s.(epochs := s.epochs - gone, engines := s.engines - HandlesOf(s.epochs, gone))
    case Stop => s.(stopped := true)
  }

  function Run(p: Policy, s: Rotator, acts: seq<Act>): Rotator {
    if acts == [] then s else Exec(p, Run(p, s, acts[..|acts| - 1]), acts[|acts| - 1])
  }

  // ---------------------------------------------------------------- agreement of the components

  /** An epoch made by this rotator, not later than now, whose handle is registered for its key pair. */
  ghost predicate Made(p: Policy, s: Rotator, e: Epoch) {
    && e.id.createdMs == e.notBefore <= s.now && e.notAfter == e.notBefore + p.ttlMs
    && e.handle.Some? && e.handle.value < s.nextHandle
    && e.handle.value in s.engines && s.engines[e.handle.value] == e.hybrid
  }

  /** Two epochs are created at least the rotation period apart. */
  ghost predicate Apart(p: Policy, a: Epoch, b: Epoch) {
    a.notBefore + p.ttlMs <= b.notBefore + p.leadMs || b.notBefore + p.ttlMs <= a.notBefore + p.leadMs
  }

  ghost predicate Agree(p: Policy, s: Rotator) {
    && Backed(s.epochs, s.engines)
    && (forall h :: h in s.engines ==> h < s.nextHandle)
    && s.current.id in s.epochs && s.epochs[s.current.id] == s.current
    && (forall id :: id in s.epochs ==> Made(p, s, s.epochs[id]) && s.epochs[id].notBefore <= s.current.notBefore)
    && (s.minted.Some? ==>
          && s.rotating && Made(p, s, s.minted.value) && s.current.notBefore <= s.minted.value.notBefore
          && forall id :: id in s.epochs ==> s.epochs[id].handle != s.minted.value.handle)
  }

  ghost predicate Spaced(p: Policy, epochs: map<EpochId, Epoch>) {
    forall i, j :: i in epochs && j in epochs && i != j ==> Apart(p, epochs[i], epochs[j])
  }

  /** Epochs are a rotation period apart, and so is one just minted. */
  ghost predicate Paced(p: Policy, s: Rotator) {
    && Spaced(p, s.epochs)
    && (s.minted.Some? ==> s.current.notBefore + p.ttlMs <= s.minted.value.notBefore + p.leadMs)
  }

  predicate Scheduled(acts: seq<Act>) {
    forall i :: 0 <= i < |acts| && acts[i].Mint? ==> !acts[i].forced
  }

  lemma MintAgrees(p: Policy, s: Rotator, act: Act)
    requires Agree(p, s) && act.Mint?
    ensures Agree(p, Exec(p, s, act))
  {
  }

  lemma PostAgrees(p: Policy, s: Rotator, statuses: seq<Option<nat>>)
    requires Agree(p, s)
    ensures Agree(p, Exec(p, s, Post(statuses)))
  {
    if s.minted.Some? && AllRegistered(statuses) {
      AddKeepsBacked(s.epochs, s.engines, s.minted.value);
    }
  }

  lemma PruneAgrees(p: Policy, s: Rotator, graceOverride: Option<nat>)
    requires Agree(p, s)
    ensures Agree(p, Exec(p, s, Prune(graceOverride)))
  {
    var gone := Retired(s.epochs, s.current.id, s.now, graceOverride.GetOr(p.graceMs));
    var s' := Exec(p, s, Prune(graceOverride));
    PruneKeepsBacked(s.epochs, s.engines, gone);
    assert s'.epochs == s.epochs - gone;
    forall id | id in s'.epochs
      ensures Made(p, s', s'.epochs[id])
    {
      assert Made(p, s, s.epochs[id]);
    }
    if s.minted.Some? {
      assert s.minted.value.handle.value !in HandlesOf(s.epochs, gone);
    }
  }

  lemma StepAgrees(p: Policy, s: Rotator, act: Act)
    requires Agree(p, s)
    ensures Agree(p, Exec(p, s, act))
  {
    match act
    case Tick(_) =>
    case Mint(_, _, _, _, _) => MintAgrees(p, s, act);
    case Post(statuses) => PostAgrees(p, s, statuses);
    case Prune(graceOverride) => PruneAgrees(p, s, graceOverride);
    case Stop =>
  }

  lemma StepPaced(p: Policy, s: Rotator, act: Act)
    requires p.leadMs < p.ttlMs && Agree(p, s) && Paced(p, s) && (act.Mint? ==> !act.forced)
    ensures Paced(p, Exec(p, s, act))
  {
    var s' := Exec(p, s, act);
    if act.Post? && s.minted.Some? && AllRegistered(act.statuses) {
      var e := s.minted.value;
      assert forall id :: id in s.epochs ==> Apart(p, s.epochs[id], e);
      assert e.id !in s.epochs;
    } else {
      assert forall id :: id in s'.epochs ==> id in s.epochs && s'.epochs[id] == s.epochs[id];
    }
  }

  lemma {:induction false} RunAgrees(p: Policy, s: Rotator, acts: seq<Act>)
    requires Agree(p, s)
    ensures Agree(p, Run(p, s, acts))
  {
    if acts != [] {
      RunAgrees(p, s, acts[..|acts| - 1]);
      StepAgrees(p, Run(p, s, acts[..|acts| - 1]), acts[|acts| - 1]);
    }
  }

  /** Rotations that come only from the schedule loop stay paced. */
  lemma {:induction false} RunPaced(p: Policy, s: Rotator, acts: seq<Act>)
    requires p.leadMs < p.ttlMs && Agree(p, s) && Paced(p, s) && Scheduled(acts)
    ensures Paced(p, Run(p, s, acts))
  {
    if acts != [] {
      var front := acts[..|acts| - 1];
      RunAgrees(p, s, front);
      RunPaced(p, s, front);
      StepPaced(p, Run(p, s, front), acts[|acts| - 1]);
    }
  }

  lemma InitAgrees(p: Policy, now: nat, suffix: nat, secret: Secret, usageKey: SigningKey)
    ensures Agree(p, Init(p, now, suffix, secret, usageKey))
    ensures Paced(p, Init(p, now, suffix, secret, usageKey))
  {
  }

  /**
   * Over every run: the current epoch is retained, every request resolves to a handle that is
   * still registered, and for a retained named epoch that handle decrypts with the key pair that
   * epoch published while the usage key is that same epoch's.
   */
  lemma ResolvedHandlesAreLive(p: Policy, now: nat, suffix: nat, secret: Secret, usageKey: SigningKey,
                               acts: seq<Act>, named: Option<EpochId>)
    ensures
      var s := Run(p, Init(p, now, suffix, secret, usageKey), acts);
      var id := Requested(s.current.id, named);
      var handle := ResolveHandle(s.epochs, s.current.id, named);
      var key := ResolveUsageKey(s.epochs, s.current.id, named);
      && s.current.id in s.epochs
      && handle.Some? && handle.value in s.engines
      && (id in s.epochs ==> s.epochs[id].id == id && s.engines[handle.value] == s.epochs[id].hybrid
                             && key == Some(s.epochs[id].usageKey))
      && (id !in s.epochs ==> s.engines[handle.value] == s.current.hybrid && key == None)
  {
    InitAgrees(p, now, suffix, secret, usageKey);
    RunAgrees(p, Init(p, now, suffix, secret, usageKey), acts);
  }

  // ---------------------------------------------------------------- which epochs are kept

  /** `act` does not prune at a time when the grace of the epoch is over. */
  predicate InGrace(p: Policy, s: Rotator, act: Act, id: EpochId) {
    act.Prune? ==> s.now <= id.createdMs + p.ttlMs + act.graceOverride.GetOr(p.graceMs)
  }

  lemma StepRetains(p: Policy, s: Rotator, act: Act, id: EpochId)
    requires Agree(p, s) && id in s.epochs && InGrace(p, s, act, id)
    ensures id in Exec(p, s, act).epochs
    ensures p.leadMs < p.ttlMs && Paced(p, s) ==> Exec(p, s, act).epochs[id] == s.epochs[id]
  {
    assert Made(p, s, s.epochs[id]) && s.epochs[id].id == id;
    if act.Prune? {
      assert id !in Retired(s.epochs, s.current.id, s.now, act.graceOverride.GetOr(p.graceMs));
    }
  }

  /** No prune of the run comes after the grace of the epoch. */
  ghost predicate PrunedInGrace(p: Policy, s: Rotator, acts: seq<Act>, id: EpochId) {
    forall i :: 0 <= i < |acts| ==> InGrace(p, Run(p, s, acts[..i]), acts[i], id)
  }

  lemma GraceFront(p: Policy, s: Rotator, acts: seq<Act>, id: EpochId)
    requires PrunedInGrace(p, s, acts, id) && acts != []
    ensures
      var n := |acts| - 1;
      PrunedInGrace(p, s, acts[..n], id) && InGrace(p, Run(p, s, acts[..n]), acts[n], id)
  {
    var front := acts[..|acts| - 1];
    assert forall i :: 0 <= i < |front| ==> front[..i] == acts[..i];
  }

  /**
   * Over every run: an epoch once added stays, and a request that names it resolves to a registered
   * handle for the key pair it published, as long as no prune comes after its end plus grace. In a
   * run of the schedule loop it is the very same epoch.
   */
  lemma {:induction false} EpochStaysThroughGrace(p: Policy, s: Rotator, acts: seq<Act>, id: EpochId)
    requires Agree(p, s) && id in s.epochs && PrunedInGrace(p, s, acts, id)
    ensures
      var s' := Run(p, s, acts);
      var handle := ResolveHandle(s'.epochs, s'.current.id, Some(id));
      && Agree(p, s') && id in s'.epochs
      && handle.Some? && handle.value in s'.engines && s'.engines[handle.value] == s'.epochs[id].hybrid
      && (p.leadMs < p.ttlMs && Paced(p, s) && Scheduled(acts) ==> s'.epochs[id] == s.epochs[id])
  {
    RunAgrees(p, s, acts);
    if acts != [] {
      var n := |acts| - 1;
      GraceFront(p, s, acts, id);
      EpochStaysThroughGrace(p, s, acts[..n], id);
      StepRetains(p, Run(p, s, acts[..n]), acts[n], id);
      if p.leadMs < p.ttlMs && Paced(p, s) && Scheduled(acts) {
        RunPaced(p, s, acts[..n]);
      }
    }
    assert Made(p, Run(p, s, acts), Run(p, s, acts).epochs[id]);
  }

  /** A prune removes exactly the epochs, besides the current one, whose end plus grace has passed. */
  lemma PruneIsExact(p: Policy, s: Rotator, graceOverride: Option<nat>, id: EpochId)
    requires Agree(p, s) && id in s.epochs
    ensures id in Exec(p, s, Prune(graceOverride)).epochs
            <==> id == s.current.id || s.now <= id.createdMs + p.ttlMs + graceOverride.GetOr(p.graceMs)
  {
    assert Made(p, s, s.epochs[id]) && s.epochs[id].id == id;
  }

  // ---------------------------------------------------------------- how many epochs are kept

  ghost predicate Separated(times: set<nat>, gap: nat) {
    forall a, b :: a in times && b in times && a < b ==> a + gap <= b
  }

  lemma Latest(times: set<nat>) returns (m: nat)
    requires times != {}
    ensures m in times && forall t :: t in times ==> t <= m
  {
    var x :| x in times;
    var rest := times - {x};
    m := x;
    if rest != {} {
      var m' := Latest(rest);
      m := if m' > x then m' else x;
    }
    forall t | t in times
      ensures t <= m
    {
      assert t == x || t in rest;
    }
  }

  lemma OneMoreGap(gap: nat, k: int)
    ensures gap * (k + 1) == gap * k + gap
    ensures k >= 0 ==> gap * k >= 0
  {
  }

  /** `k` whole gaps fit into `span` only if `k` is at most the quotient. */
  lemma QuotientBound(gap: nat, k: nat, span: nat)
    requires gap >= 1 && gap * k <= span
    ensures k <= span / gap
  {
    var q, r := span / gap, span % gap;
    assert span == gap * q + r;
    var over := k - q - 1;
    OneMoreGap(gap, over);
    assert gap * (over + 1) == gap * k - gap * q;
  }

  /** Instants at least `gap` apart within `lo..hi`. */
  lemma {:induction false} PackingSpan(times: set<nat>, lo: int, hi: int, gap: nat)
    requires times != {} && Separated(times, gap)
    requires forall t :: t in times ==> lo <= t <= hi
    ensures gap * (|times| - 1) <= hi - lo
    decreases |times|
  {
    var m := Latest(times);
    var rest := times - {m};
    assert |times| == |rest| + 1;
    if rest == {} {
      assert lo <= m <= hi;
    } else {
      forall t | t in rest
        ensures lo <= t <= hi - gap
      {
        assert t < m && m <= hi;
      }
      PackingSpan(rest, lo, hi - gap, gap);
      OneMoreGap(gap, |rest| - 1);
    }
  }

  function CreationTimes(epochs: map<EpochId, Epoch>): set<nat> {
    set id | id in epochs :: epochs[id].notBefore
  }

  lemma CreationSplit(epochs: map<EpochId, Epoch>, id: EpochId)
    requires id in epochs
    ensures CreationTimes(epochs) == CreationTimes(epochs - {id}) + {epochs[id].notBefore}
  {
    var rest := epochs - {id};
    forall t | t in CreationTimes(epochs)
      ensures t in CreationTimes(rest) + {epochs[id].notBefore}
    {
      var e :| e in epochs && epochs[e].notBefore == t;
      if e != id {
        assert e in rest && rest[e].notBefore == t;
      }
    }
  }

  /** Spaced epochs have different creation times, so counting times counts epochs. */
  lemma {:induction false} CountByTime(p: Policy, epochs: map<EpochId, Epoch>)
    requires p.leadMs < p.ttlMs && Spaced(p, epochs)
    ensures |CreationTimes(epochs)| == |epochs|
    decreases |epochs|
  {
    if epochs != map[] {
      var id :| id in epochs;
      var rest := epochs - {id};
      CountByTime(p, rest);
      assert epochs[id].notBefore !in CreationTimes(rest);
      CreationSplit(epochs, id);
      assert epochs.Keys == rest.Keys + {id};
    } else {
      assert CreationTimes(epochs) == {};
    }
  }

  /**
   * Right after any prune of any run whose epochs come from the schedule, the decryptor keeps at most
   * floor((ttl + grace) / (ttl - lead)) + 1 epochs, where grace is the one used by that prune.
   */
  lemma EpochsKeptBounded(p: Policy, now: nat, suffix: nat, secret: Secret, usageKey: SigningKey,
                          acts: seq<Act>, graceOverride: Option<nat>)
    requires p.leadMs < p.ttlMs && Scheduled(acts)
    ensures
      var s := Run(p, Init(p, now, suffix, secret, usageKey), acts + [Prune(graceOverride)]);
      |s.epochs| <= (p.ttlMs + graceOverride.GetOr(p.graceMs)) / (p.ttlMs - p.leadMs) + 1
  {
    InitAgrees(p, now, suffix, secret, usageKey);
    var s0 := Init(p, now, suffix, secret, usageKey);
    RunAgrees(p, s0, acts);
    RunPaced(p, s0, acts);
    assert (acts + [Prune(graceOverride)])[..|acts|] == acts;
    PrunedBound(p, Run(p, s0, acts), graceOverride);
  }

  /** What a prune keeps besides the current epoch was created within the last ttl + grace. */
  lemma KeptAreRecent(p: Policy, s: Rotator, graceOverride: Option<nat>)
    requires Agree(p, s)
    ensures
      var span := p.ttlMs + graceOverride.GetOr(p.graceMs);
      var kept := Exec(p, s, Prune(graceOverride)).epochs;
      && s.current.id in kept
      && (s.now <= s.current.notBefore + span ==>
            forall t :: t in CreationTimes(kept) ==> s.now - span <= t <= s.now)
      && (s.now > s.current.notBefore + span ==> kept.Keys == {s.current.id})
  {
    var grace := graceOverride.GetOr(p.graceMs);
    var kept := Exec(p, s, Prune(graceOverride)).epochs;
    assert Made(p, s, s.current);
    forall id | id in kept
      ensures Made(p, s, kept[id]) && kept[id].notBefore <= s.current.notBefore
      ensures id == s.current.id || s.now <= kept[id].notBefore + p.ttlMs + grace
    {
      assert id in s.epochs && kept[id] == s.epochs[id];
    }
  }

  lemma PrunedBound(p: Policy, s: Rotator, graceOverride: Option<nat>)
    requires p.leadMs < p.ttlMs && Agree(p, s) && Paced(p, s)
    ensures |Exec(p, s, Prune(graceOverride)).epochs|
            <= (p.ttlMs + graceOverride.GetOr(p.graceMs)) / (p.ttlMs - p.leadMs) + 1
  {
    var kept := Exec(p, s, Prune(graceOverride)).epochs;
    StepPaced(p, s, Prune(graceOverride));
    KeptAreRecent(p, s, graceOverride);
    SpacedCount(p, kept, s.current.id, s.now, p.ttlMs + graceOverride.GetOr(p.graceMs));
  }

  lemma SpacedCount(p: Policy, kept: map<EpochId, Epoch>, current: EpochId, now: nat, span: nat)
    requires p.leadMs < p.ttlMs && Spaced(p, kept) && current in kept
    requires kept.Keys == {current} || forall t :: t in CreationTimes(kept) ==> now - span <= t <= now
    ensures |kept| <= span / (p.ttlMs - p.leadMs) + 1
  {
    var times, gap := CreationTimes(kept), p.ttlMs - p.leadMs;
    if kept.Keys == {current} {
      assert |kept| == |kept.Keys| == 1;
      QuotientBound(gap, 0, span);
    } else {
      CountByTime(p, kept);
      assert kept[current].notBefore in times;
      assert Separated(times, gap);
      PackingSpan(times, now - span, now, gap);
      QuotientBound(gap, |times| - 1, span);
    }
  }

  // ---------------------------------------------------------------- a failed rotation is final

  /** A rotation that failed: nothing minted, but the in-progress flag is still set. */
  predicate Stuck(s: Rotator) {
    s.rotating && s.minted.None?
  }

  /**
   * The code announces a retry after a failed rotation, but its error path leaves the in-progress
   * flag set: from then on no epoch is ever minted or added, in any run.
   */
  lemma {:induction false} FailedRotationIsFinal(p: Policy, s: Rotator, acts: seq<Act>)
    requires Stuck(s)
    ensures Stuck(Run(p, s, acts)) && Run(p, s, acts).current == s.current
    ensures Run(p, s, acts).epochs.Keys <= s.epochs.Keys && Run(p, s, acts).nextHandle == s.nextHandle
  {
    if acts != [] {
      FailedRotationIsFinal(p, s, acts[..|acts| - 1]);
    }
  }

  /** `act` starts a rotation: nothing stops it, none is running, and it is due or forced. */
  predicate StartsRotation(p: Policy, s: Rotator, act: Act) {
    act.Mint? && !s.stopped && !s.rotating && (act.forced || s.current.notAfter <= s.now + p.leadMs)
  }

  /** A rotation that could not mint its epoch, or whose epoch some session did not register. */
  predicate RotationFails(p: Policy, s: Rotator, act: Act) {
    || (StartsRotation(p, s, act) && !act.ok)
    || (act.Post? && s.minted.Some? && !AllRegistered(act.statuses))
  }

  lemma StuckStep(p: Policy, s: Rotator, act: Act)
    requires s.minted.Some? ==> s.rotating
    ensures Exec(p, s, act).minted.Some? ==> Exec(p, s, act).rotating
    ensures Stuck(Exec(p, s, act)) <==> Stuck(s) || RotationFails(p, s, act)
  {
  }

  /** Some rotation of the run failed. */
  ghost predicate SomeRotationFails(p: Policy, s: Rotator, acts: seq<Act>) {
    exists i :: 0 <= i < |acts| && RotationFails(p, Run(p, s, acts[..i]), acts[i])
  }

  lemma FailsSoFar(p: Policy, s: Rotator, front: seq<Act>, act: Act)
    ensures SomeRotationFails(p, s, front + [act])
            <==> SomeRotationFails(p, s, front) || RotationFails(p, Run(p, s, front), act)
  {
    var acts := front + [act];
    assert acts[..|front|] == front && acts[|front|] == act;
    assert forall i :: 0 <= i < |front| ==> front[..i] == acts[..i] && front[i] == acts[i];
  }

  /** Over every run from a rotator that is not stuck, it ends stuck if and only if some rotation failed on the way. */
  lemma {:induction false} StuckExactlyAfterFailure(p: Policy, s: Rotator, acts: seq<Act>)
    requires !Stuck(s) && (s.minted.Some? ==> s.rotating)
    ensures Run(p, s, acts).minted.Some? ==> Run(p, s, acts).rotating
    ensures Stuck(Run(p, s, acts)) <==> SomeRotationFails(p, s, acts)
  {
    if acts != [] {
      var front, act := acts[..|acts| - 1], acts[|acts| - 1];
      StuckExactlyAfterFailure(p, s, front);
      StuckStep(p, Run(p, s, front), act);
      FailsSoFar(p, s, front, act);
      assert front + [act] == acts;
    }
  }

  /** From any start, one forced rotation with no live session to post to. */
  lemma StuckIsReachable(p: Policy, now: nat, suffix: nat, secret: Secret, usageKey: SigningKey)
    ensures
      var acts := [Mint(suffix, secret, usageKey, true, true), Post([])];
      Stuck(Run(p, Init(p, now, suffix, secret, usageKey), acts))
  {
    var s := Init(p, now, suffix, secret, usageKey);
    var mint := Mint(suffix, secret, usageKey, true, true);
    assert [mint, Post([])][..1] == [mint] && [mint][..0] == [];
    assert Run(p, s, []) == s && Run(p, s, [mint]) == Exec(p, s, mint);
  }

  // ---------------------------------------------------------------- a rotation that succeeds

  /** The epoch a rotation mints now. */
  ghost predicate FreshEpoch(p: Policy, s: Rotator, e: Epoch, secret: Secret, usageKey: SigningKey) {
    && e.id.createdMs == e.notBefore == s.now && e.notAfter == s.now + p.ttlMs
    && e.hybrid == secret && e.usageKey == usageKey
    && e.handle.Some? && e.handle.value !in s.engines
  }

  /** A rotation that is neither stopped nor running, and due or forced, mints an epoch that starts now. */
  lemma DueRotationMints(p: Policy, s: Rotator, suffix: nat, secret: Secret, usageKey: SigningKey, forced: bool)
    requires Agree(p, s) && !s.stopped && !s.rotating && (forced || s.now + p.leadMs >= s.current.notAfter)
    ensures
      var s' := Exec(p, s, Mint(suffix, secret, usageKey, true, forced));
      && s'.rotating && s'.minted.Some? && FreshEpoch(p, s, s'.minted.value, secret, usageKey)
      && s'.engines == s.engines[s'.minted.value.handle.value := secret]
      && s'.epochs == s.epochs && s'.current == s.current && s'.now == s.now
  {
  }

  /** A minted epoch becomes current exactly when some session is live and every one answers 201. */
  lemma PostMeaning(p: Policy, s: Rotator, statuses: seq<Option<nat>>)
    requires Agree(p, s) && s.minted.Some?
    ensures
      var s', e := Exec(p, s, Post(statuses)), s.minted.value;
      && s'.minted.None? && s'.engines == s.engines
      && if |statuses| >= 1 && forall i :: 0 <= i < |statuses| ==> statuses[i] == Some(201)
         then s'.current == e && s'.epochs == s.epochs[e.id := e] && !s'.rotating
         else s'.current == s.current && s'.epochs == s.epochs && s'.rotating
  {
  }

  lemma TwoSteps(p: Policy, s: Rotator, a: Act, b: Act)
    ensures Run(p, s, [a, b]) == Exec(p, Exec(p, s, a), b)
  {
    assert [a, b][..1] == [a] && [a][..0] == [];
    assert Run(p, s, [a]) == Exec(p, s, a);
  }

  /**
   * From every reachable state in which a rotation is due, minting and posting to sessions that all
   * answer 201 installs an epoch that starts now, keeps the others, and leaves the rotator ready.
   */
  lemma RotationSucceeds(p: Policy, s: Rotator, suffix: nat, secret: Secret, usageKey: SigningKey, sessions: nat)
    requires Agree(p, s) && !s.stopped && !s.rotating && s.now + p.leadMs >= s.current.notAfter && sessions >= 1
    ensures
      var answers := seq(sessions, i requires 0 <= i < sessions => Some(201));
      var s' := Run(p, s, [Mint(suffix, secret, usageKey, true, false), Post(answers)]);
      && FreshEpoch(p, s, s'.current, secret, usageKey) && s'.epochs == s.epochs[s'.current.id := s'.current]
      && !s'.rotating && s'.current.handle.value in s'.engines
      && s'.engines[s'.current.handle.value] == secret
  {
    var answers := seq(sessions, i requires 0 <= i < sessions => Some(201));
    var mint := Mint(suffix, secret, usageKey, true, false);
    DueRotationMints(p, s, suffix, secret, usageKey, false);
    MintAgrees(p, s, mint);
    PostMeaning(p, Exec(p, s, mint), answers);
    TwoSteps(p, s, mint, Post(answers));
  }

  /** A rotation that took place at `s`. */
  ghost predicate Rotated(s: Rotator, s': Rotator, secret: Secret) {
    && !s'.rotating && s'.current.notBefore == s'.current.id.createdMs == s.now && s'.current.hybrid == secret
    && s'.epochs == s.epochs[s'.current.id := s'.current]
  }

  lemma RotatesNow(p: Policy, s: Rotator, suffix: nat, secret: Secret, usageKey: SigningKey)
    requires Agree(p, s) && !s.stopped && !s.rotating && s.now + p.leadMs >= s.current.notAfter
    ensures
      var acts := [Mint(suffix, secret, usageKey, true, false), Post([Some(201)])];
      Rotated(s, Run(p, s, acts), secret) && Agree(p, Run(p, s, acts))
  {
    RotationSucceeds(p, s, suffix, secret, usageKey, 1);
    assert seq(1, i requires 0 <= i < 1 => Some(201)) == [Some(201)];
    RunAgrees(p, s, [Mint(suffix, secret, usageKey, true, false), Post([Some(201)])]);
  }

  /**
   * From every reachable state of a rotator that is neither stopped nor in a rotation, waiting long
   * enough, minting and posting installs a new epoch, and the current one stays.
   */
  lemma NextRotationComes(p: Policy, s: Rotator, suffix: nat, secret: Secret, usageKey: SigningKey)
    returns (acts: seq<Act>)
    requires p.leadMs < p.ttlMs && Agree(p, s) && !s.stopped && !s.rotating
    ensures
      var s' := Run(p, s, acts);
      && Scheduled(acts) && Agree(p, s') && !s'.rotating
      && s'.current.id != s.current.id && s'.current.hybrid == secret
      && s.current.id in s'.epochs && s'.epochs[s.current.id] == s.current
  {
    var wait := Tick(Monus(s.current.notAfter, s.now));
    var rotate := [Mint(suffix, secret, usageKey, true, false), Post([Some(201)])];
    StepAgrees(p, s, wait);
    RotatesNow(p, Exec(p, s, wait), suffix, secret, usageKey);
    OneStep(p, s, wait);
    RunConcat(p, s, [wait], rotate);
    acts := [wait] + rotate;
    assert Made(p, s, s.current);
  }

  lemma OneStep(p: Policy, s: Rotator, a: Act)
    ensures Run(p, s, [a]) == Exec(p, s, a)
  {
    assert [a][..0] == [];
  }

  /** Once stopped, no run mints an epoch any more. */
  lemma {:induction false} StoppedMintsNothing(p: Policy, s: Rotator, acts: seq<Act>)
    requires s.stopped
    ensures Run(p, s, acts).stopped && Run(p, s, acts).nextHandle == s.nextHandle
  {
    if acts != [] {
      StoppedMintsNothing(p, s, acts[..|acts| - 1]);
    }
  }

  /** From a stop on, whatever came before, no run mints an epoch. */
  lemma StopIsFinal(p: Policy, s: Rotator, before: seq<Act>, after: seq<Act>)
    ensures Run(p, s, before + [Stop] + after).nextHandle == Run(p, s, before).nextHandle
  {
    assert (before + [Stop])[..|before|] == before;
    RunConcat(p, s, before + [Stop], after);
    StoppedMintsNothing(p, Run(p, s, before + [Stop]), after);
  }

  lemma {:induction false} RunConcat(p: Policy, s: Rotator, a: seq<Act>, b: seq<Act>)
    ensures Run(p, s, a + b) == Run(p, Run(p, s, a), b)
  {
    if b == [] {
      assert a + b == a;
    } else {
      var b' := b[..|b| - 1];
      assert (a + b)[..|a + b| - 1] == a + b';
      RunConcat(p, s, a, b');
    }
  }

  // ---------------------------------------------------------------- how many handles stay registered

  /** Registered handles that belong neither to a retained epoch nor to one being posted. */
  function Orphans(s: Rotator): set<Handle> {
    s.engines.Keys - HandlesOf(s.epochs, s.epochs.Keys) - (if s.minted.Some? then MintedHandle(s.minted.value) else {})
  }

  function MintedHandle(e: Epoch): set<Handle> {
    if e.handle.Some? then {e.handle.value} else {}
  }

  /** Only a failed rotation leaves a handle behind, and at most one. */
  ghost predicate Tidy(s: Rotator) {
    (Orphans(s) == {} || exists h :: Orphans(s) == {h}) && (!Stuck(s) ==> Orphans(s) == {})
  }

  lemma AddedHandles(epochs: map<EpochId, Epoch>, e: Epoch)
    requires e.id !in epochs
    ensures HandlesOf(epochs[e.id := e], epochs[e.id := e].Keys) == HandlesOf(epochs, epochs.Keys) + MintedHandle(e)
  {
    var after := epochs[e.id := e];
    assert after.Keys == epochs.Keys + {e.id};
    FreedOneMore(after, epochs.Keys, e.id);
    assert HandlesOf(after, epochs.Keys) == HandlesOf(epochs, epochs.Keys);
  }

  lemma PrunedHandles(epochs: map<EpochId, Epoch>, engines: map<Handle, Secret>, gone: set<EpochId>)
    requires Backed(epochs, engines) && gone <= epochs.Keys
    ensures HandlesOf(epochs - gone, (epochs - gone).Keys) == HandlesOf(epochs, epochs.Keys) - HandlesOf(epochs, gone)
  {
    var rest := epochs - gone;
    forall h | h in HandlesOf(rest, rest.Keys)
      ensures h in HandlesOf(epochs, epochs.Keys) && h !in HandlesOf(epochs, gone)
    {
      var id :| id in rest && rest[id].handle == Some(h);
      assert epochs[id] == rest[id];
    }
    forall h | h in HandlesOf(epochs, epochs.Keys) && h !in HandlesOf(epochs, gone)
      ensures h in HandlesOf(rest, rest.Keys)
    {
      var id :| id in epochs && epochs[id].handle == Some(h);
      assert id !in gone;
      assert rest[id] == epochs[id];
    }
  }

  lemma PostTidy(p: Policy, s: Rotator, statuses: seq<Option<nat>>)
    requires Agree(p, s) && Tidy(s) && (s.minted.Some? ==> s.minted.value.id !in s.epochs)
    ensures Tidy(Exec(p, s, Post(statuses)))
  {
    if s.minted.Some? {
      var e, s' := s.minted.value, Exec(p, s, Post(statuses));
      if AllRegistered(statuses) {
        AddedHandles(s.epochs, e);
        assert Orphans(s') == Orphans(s);
      } else {
        assert e.handle.value !in HandlesOf(s.epochs, s.epochs.Keys);
        assert Orphans(s') == {e.handle.value};
      }
    }
  }

  lemma MintTidy(p: Policy, s: Rotator, act: Act)
    requires Agree(p, s) && Tidy(s) && act.Mint?
    ensures Tidy(Exec(p, s, act))
  {
    var s' := Exec(p, s, act);
    assert Orphans(s') == Orphans(s);
  }

  lemma PruneTidy(p: Policy, s: Rotator, graceOverride: Option<nat>)
    requires Agree(p, s) && Tidy(s)
    ensures Tidy(Exec(p, s, Prune(graceOverride)))
  {
    var gone := Retired(s.epochs, s.current.id, s.now, graceOverride.GetOr(p.graceMs));
    var s' := Exec(p, s, Prune(graceOverride));
    PrunedHandles(s.epochs, s.engines, gone);
    assert Orphans(s') == Orphans(s);
  }

  lemma StepTidy(p: Policy, s: Rotator, act: Act)
    requires p.leadMs < p.ttlMs && Agree(p, s) && Paced(p, s) && Tidy(s)
    ensures Tidy(Exec(p, s, act))
  {
    match act
    case Tick(_) =>
    case Mint(_, _, _, _, _) => MintTidy(p, s, act);
    case Post(statuses) => PostTidy(p, s, statuses);
    case Prune(graceOverride) => PruneTidy(p, s, graceOverride);
    case Stop =>
  }

  lemma {:induction false} RunTidy(p: Policy, s: Rotator, acts: seq<Act>)
    requires p.leadMs < p.ttlMs && Agree(p, s) && Paced(p, s) && Tidy(s) && Scheduled(acts)
    ensures Tidy(Run(p, s, acts))
  {
    if acts != [] {
      var front := acts[..|acts| - 1];
      RunTidy(p, s, front);
      RunAgrees(p, s, front);
      RunPaced(p, s, front);
      StepTidy(p, Run(p, s, front), acts[|acts| - 1]);
    }
  }

  lemma {:induction false} HandleCount(epochs: map<EpochId, Epoch>, ids: set<EpochId>)
    requires ids <= epochs.Keys
    ensures |HandlesOf(epochs, ids)| <= |ids|
    decreases |ids|
  {
    if ids == {} {
      assert HandlesOf(epochs, ids) == {};
    } else {
      var id :| id in ids;
      var rest := ids - {id};
      HandleCount(epochs, rest);
      FreedOneMore(epochs, rest, id);
      assert rest + {id} == ids;
    }
  }

  /** Registered handles are those of the retained epochs and one more at most: being posted, or orphaned. */
  lemma TableBound(p: Policy, s: Rotator)
    requires Agree(p, s) && Tidy(s)
    ensures |s.engines| <= |s.epochs| + 1
  {
    var owned := HandlesOf(s.epochs, s.epochs.Keys);
    var extra := Orphans(s) + (if s.minted.Some? then MintedHandle(s.minted.value) else {});
    HandleCount(s.epochs, s.epochs.Keys);
    assert |extra| <= 1;
    assert s.engines.Keys <= owned + extra;
    SubsetCardinality(s.engines.Keys, owned + extra);
    assert |owned + extra| <= |owned| + |extra|;
  }

  /**
   * Over every run of the schedule loop: the provider holds at most one handle besides those of
   * the retained epochs, and after a prune at most floor((ttl + grace) / (ttl - lead)) + 2 in all.
   */
  lemma HandlesKeptBounded(p: Policy, now: nat, suffix: nat, secret: Secret, usageKey: SigningKey,
                           acts: seq<Act>, graceOverride: Option<nat>)
    requires p.leadMs < p.ttlMs && Scheduled(acts)
    ensures
      var s0 := Init(p, now, suffix, secret, usageKey);
      var s, s' := Run(p, s0, acts), Run(p, s0, acts + [Prune(graceOverride)]);
      && |Orphans(s)| <= 1 && |s.engines| <= |s.epochs| + 1
      && |s'.engines| <= (p.ttlMs + graceOverride.GetOr(p.graceMs)) / (p.ttlMs - p.leadMs) + 2
  {
    var s0 := Init(p, now, suffix, secret, usageKey);
    InitAgrees(p, now, suffix, secret, usageKey);
    InitTidy(p, now, suffix, secret, usageKey);
    RunAgrees(p, s0, acts);
    RunPaced(p, s0, acts);
    RunTidy(p, s0, acts);
    var s, prune := Run(p, s0, acts), Prune(graceOverride);
    TableBound(p, s);
    assert (acts + [prune])[..|acts|] == acts;
    StepAgrees(p, s, prune);
    StepTidy(p, s, prune);
    TableBound(p, Exec(p, s, prune));
    PrunedBound(p, s, graceOverride);
  }

  lemma InitTidy(p: Policy, now: nat, suffix: nat, secret: Secret, usageKey: SigningKey)
    ensures Tidy(Init(p, now, suffix, secret, usageKey))
  {
    var s := Init(p, now, suffix, secret, usageKey);
    assert s.epochs[s.current.id].handle == Some(1);
    assert s.engines.Keys == {1};
    assert Orphans(s) == {};
  }

  // ---------------------------------------------------------------- posting

  /** Posting to every session, remembering the last error. */
  method PostEpochToSessions(statuses: seq<Option<nat>>) returns (ok: bool)
    ensures ok <==> |statuses| >= 1 && forall i :: 0 <= i < |statuses| ==> statuses[i] == Some(201)
  {
    if statuses == [] {
      return false;
    }
    ok := true;
    for i := 0 to |statuses|
      invariant ok <==> forall k :: 0 <= k < i ==> statuses[k] == Some(201)
    {
      if statuses[i] != Some(201) {
        ok := false;
      }
    }
  }
}
