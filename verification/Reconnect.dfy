/**
 * The reconnect protocol: tasks that watch for lost transports, claim a slot's pending flag, sleep,
 * and re-dial the session, running against drains, retires and in-place migrations.
 *
 * Steps are the atomic flag accesses of the source. Flag accesses under the read lock interleave
 * freely; adding, removing and renaming slots take the write lock and so wait for tasks that are
 * between their two flag accesses (phase Checked).
 */
module Reconnect {

  type SessionId = nat
  type TaskId = nat

  datatype SlotFlags = SlotFlags(suppress: bool, pending: bool)

  datatype Phase =
    | Spawned   // schedule_reconnect's task before it looks at the slot
    | Checked   // saw the slot unsuppressed, about to claim the pending flag (read lock held)
    | Sleeping  // owns the claim, waiting out the delay
    | Dialing   // re-dialing
    | Clearing  // dial finished, about to clear the pending flag

  datatype Task = Task(id: SessionId, phase: Phase)

  datatype Event = Suppressed(id: SessionId) | Attempt(id: SessionId)

  datatype State = State(
    slots: map<SessionId, SlotFlags>,
    nextId: SessionId,
    tasks: map<TaskId, Task>,
    nextTask: TaskId,
    closed: bool,
    log: seq<Event>)

  datatype Act =
    | Notice(id: SessionId)               // transport lost, or a watch tick found the session closed
    | CheckSlot(task: TaskId)
    | Claim(task: TaskId)                 // compare_exchange on reconnect_pending
    | Wake(task: TaskId)                  // delay over: reconnect_slot begins
    | DialEnds(task: TaskId)
    | Clear(task: TaskId, failed: bool)   // clear_reconnect_pending, rescheduling after a failure
    | SuppressMark(id: SessionId)         // suppress_reconnect, first store
    | SuppressRelease(id: SessionId)      // suppress_reconnect, second store
    | AddSlot
    | RemoveSlot(id: SessionId)
    | RenameSlot(id: SessionId)           // in-place migration gives the slot a fresh id
    | Close

  function Init(): State {
    State(map[], 0, map[], 0, false, [])
  }

  function Spawn(s: State, id: SessionId): State {
    if s.closed then s else s.(tasks := s.tasks[s.nextTask := Task(id, Spawned)], nextTask := s.nextTask + 1)
  }

  function Move(s: State, t: TaskId, phase: Phase): State
    requires t in s.tasks
  {
    s.(tasks := s.tasks[t := s.tasks[t].(phase := phase)])
  }

  function End(s: State, t: TaskId): State {
    s.(tasks := s.tasks - {t})
  }

  function SetFlags(s: State, id: SessionId, flags: SlotFlags): State {
    s.(slots := s.slots[id := flags])
  }

  predicate At(s: State, t: TaskId, phase: Phase) {
    t in s.tasks && s.tasks[t].phase == phase
  }

  /** The session is in the pool and not suppressed. */
  predicate Live(s: State, id: SessionId) {
    id in s.slots && !s.slots[id].suppress
  }

  /** No task holds the read lock between its two flag accesses. */
  predicate WriteLockFree(s: State) {
    forall t :: t in s.tasks ==> s.tasks[t].phase != Checked
  }

  /** One step; a step whose guard fails changes nothing. */
  function Exec(s: State, act: Act): State {
    match act
    case Notice(id) => Spawn(s, id)
    case CheckSlot(t) =>
      if !At(s, t, Spawned) then s
      else if Live(s, s.tasks[t].id) then Move(s, t, Checked) else End(s, t)
    case Claim(t) =>
      if !At(s, t, Checked) || s.tasks[t].id !in s.slots then s
      else
        var id := s.tasks[t].id;
        if s.slots[id].pending then End(s, t)
        else Move(SetFlags(s, id, s.slots[id].(pending := true)), t, Sleeping)
    case Wake(t) =>
      if !At(s, t, Sleeping) then s
      else
        var id := s.tasks[t].id;
        if s.closed || id !in s.slots then End(s, t)
        else if s.slots[id].suppress then End(SetFlags(s, id, s.slots[id].(pending := false)), t)
        else Move(s, t, Dialing).(log := s.log + [Attempt(id)])
    case DialEnds(t) => if At(s, t, Dialing) then Move(s, t, Clearing) else s
    case Clear(t, failed) =>
      if !At(s, t, Clearing) then s
      else
        var id := s.tasks[t].id;
        var s1 := if id in s.slots then SetFlags(s, id, s.slots[id].(pending := false)) else s;
        var s2 := End(s1, t);
        if failed then Spawn(s2, id) else s2
    case SuppressMark(id) =>
      if id in s.slots
      then SetFlags(s, id, s.slots[id].(suppress := true)).(log := s.log + [Suppressed(id)]) else s
    case SuppressRelease(id) =>
      if id in s.slots && s.slots[id].suppress then SetFlags(s, id, s.slots[id].(pending := false)) else s
    case AddSlot =>
      if WriteLockFree(s)
      then SetFlags(s, s.nextId, SlotFlags(false, false)).(nextId := s.nextId + 1) else s
    case RemoveSlot(id) => if WriteLockFree(s) then s.(slots := s.slots - {id}) else s
    case RenameSlot(id) =>
      if WriteLockFree(s) && id in s.slots
      then s.(slots := (s.slots - {id})[s.nextId := SlotFlags(false, false)], nextId := s.nextId + 1) else s
    case Close => s.(closed := true)
  }

  function Run(acts: seq<Act>): State {
    if acts == [] then Init() else Exec(Run(acts[..|acts| - 1]), acts[|acts| - 1])
  }

  /** The task claimed its slot and has not cleared the claim yet. */
  predicate Active(s: State, t: TaskId) {
    t in s.tasks && (s.tasks[t].phase == Sleeping || s.tasks[t].phase == Dialing || s.tasks[t].phase == Clearing)
  }

  /** The task is re-dialing, or has just done so. */
  predicate Redialing(s: State, t: TaskId) {
    t in s.tasks && (s.tasks[t].phase == Dialing || s.tasks[t].phase == Clearing)
  }

  /** Ids in use were issued before. */
  ghost predicate Fresh(s: State) {
    && (forall t :: t in s.tasks ==> t < s.nextTask)
    && (forall id :: id in s.slots ==> id < s.nextId)
    && (forall t :: Active(s, t) ==> s.tasks[t].id < s.nextId)
    && (forall i :: 0 <= i < |s.log| ==> s.log[i].id < s.nextId)
  }

  /** At most one task per session is re-dialing. */
  ghost predicate Exclusive(s: State) {
    forall t, u :: Redialing(s, t) && Redialing(s, u) && s.tasks[t].id == s.tasks[u].id ==> t == u
  }

  /** For a live session the pending flag is held by at most one active task. */
  ghost predicate ClaimHeld(s: State) {
    && (forall t :: Active(s, t) && Live(s, s.tasks[t].id) ==> s.slots[s.tasks[t].id].pending)
    && (forall t, u :: Active(s, t) && Active(s, u) && s.tasks[t].id == s.tasks[u].id && Live(s, s.tasks[t].id)
                       ==> t == u)
  }

  /** A suppressed session never becomes live again, and no attempt for it follows in the log. */
  ghost predicate Quiet(s: State) {
    && (forall i :: 0 <= i < |s.log| && s.log[i].Suppressed? ==> !Live(s, s.log[i].id))
    && (forall i, j :: 0 <= i < j < |s.log| && s.log[i].Suppressed? ==> s.log[j] != Attempt(s.log[i].id))
  }

  ghost predicate Inv(s: State) {
    Fresh(s) && Exclusive(s) && ClaimHeld(s) && Quiet(s)
  }

  /** A task becomes active only by winning the claim on an unclaimed slot. */
  lemma ActiveFrame(s: State, act: Act, t: TaskId)
    requires Fresh(s) && Active(Exec(s, act), t)
    ensures t in s.tasks && Exec(s, act).tasks[t].id == s.tasks[t].id
    ensures Active(s, t) || (act == Claim(t) && s.tasks[t].id in s.slots && !s.slots[s.tasks[t].id].pending)
  {
  }

  /** A task starts re-dialing only by waking up on a live session. */
  lemma RedialFrame(s: State, act: Act, t: TaskId)
    requires Fresh(s) && Redialing(Exec(s, act), t)
    ensures t in s.tasks && Exec(s, act).tasks[t].id == s.tasks[t].id
    ensures Redialing(s, t) || (act == Wake(t) && Active(s, t) && Live(s, s.tasks[t].id))
  {
  }

  /** A session becomes live only by being issued. */
  lemma LiveFrame(s: State, act: Act, id: SessionId)
    requires Live(Exec(s, act), id)
    ensures Live(s, id) || id == s.nextId
  {
  }

  /** On a live session the pending flag is dropped only by the task that clears it. */
  lemma PendingFrame(s: State, act: Act, id: SessionId)
    requires Live(s, id) && Live(Exec(s, act), id) && s.slots[id].pending && !Exec(s, act).slots[id].pending
    requires id < s.nextId
    ensures act.Clear? && Active(s, act.task) && s.tasks[act.task].id == id
  {
  }

  lemma StepKeepsFresh(s: State, act: Act)
    requires Fresh(s)
    ensures Fresh(Exec(s, act))
  {
    var s' := Exec(s, act);
    forall t | Active(s', t)
      ensures s'.tasks[t].id < s'.nextId
    {
      ActiveFrame(s, act, t);
    }
    LogFrame(s, act);
    assert s.nextId <= s'.nextId;
  }

  lemma StepKeepsExclusive(s: State, act: Act)
    requires Fresh(s) && Exclusive(s) && ClaimHeld(s)
    ensures Exclusive(Exec(s, act))
  {
    var s' := Exec(s, act);
    forall t, u | Redialing(s', t) && Redialing(s', u) && s'.tasks[t].id == s'.tasks[u].id
      ensures t == u
    {
      RedialFrame(s, act, t);
      RedialFrame(s, act, u);
      assert Active(s, t) && Active(s, u);
    }
  }

  lemma ClaimPending(s: State, act: Act, t: TaskId)
    requires Fresh(s) && ClaimHeld(s)
    requires Active(Exec(s, act), t) && Live(Exec(s, act), Exec(s, act).tasks[t].id)
    ensures Exec(s, act).slots[Exec(s, act).tasks[t].id].pending
  {
    ActiveFrame(s, act, t);
    var id := s.tasks[t].id;
    assert id < s.nextId;
    LiveFrame(s, act, id);
    if Active(s, t) && !Exec(s, act).slots[id].pending {
      PendingFrame(s, act, id);
    }
  }

  lemma ClaimUnique(s: State, act: Act, t: TaskId, u: TaskId)
    requires Fresh(s) && ClaimHeld(s)
    requires Active(Exec(s, act), t) && Active(Exec(s, act), u)
    requires Exec(s, act).tasks[t].id == Exec(s, act).tasks[u].id && Live(Exec(s, act), Exec(s, act).tasks[t].id)
    ensures t == u
  {
    ActiveFrame(s, act, t);
    ActiveFrame(s, act, u);
    LiveFrame(s, act, s.tasks[t].id);
  }

  lemma StepKeepsClaim(s: State, act: Act)
    requires Fresh(s) && ClaimHeld(s)
    ensures ClaimHeld(Exec(s, act))
  {
    var s' := Exec(s, act);
    forall t | Active(s', t) && Live(s', s'.tasks[t].id)
      ensures s'.slots[s'.tasks[t].id].pending
    {
      ClaimPending(s, act, t);
    }
    forall t, u | Active(s', t) && Active(s', u) && s'.tasks[t].id == s'.tasks[u].id && Live(s', s'.tasks[t].id)
      ensures t == u
    {
      ClaimUnique(s, act, t, u);
    }
  }

  /** A step logs a suppression of a session it silences, or an attempt on a live session, or nothing. */
  lemma LogFrame(s: State, act: Act)
    ensures
      var log := Exec(s, act).log;
      || log == s.log
      || (exists id :: log == s.log + [Suppressed(id)] && id in s.slots && !Live(Exec(s, act), id))
      || (exists id :: log == s.log + [Attempt(id)] && Live(s, id))
  {
  }

  lemma SilentStaysSilent(s: State, act: Act, id: SessionId)
    requires !Live(s, id) && id < s.nextId
    ensures !Live(Exec(s, act), id)
  {
    if Live(Exec(s, act), id) {
      LiveFrame(s, act, id);
    }
  }

  lemma StepKeepsQuiet(s: State, act: Act)
    requires Fresh(s) && Quiet(s)
    ensures Quiet(Exec(s, act))
  {
    var s' := Exec(s, act);
    LogFrame(s, act);
    forall i | 0 <= i < |s.log| && s.log[i].Suppressed?
      ensures !Live(s', s.log[i].id)
    {
      SilentStaysSilent(s, act, s.log[i].id);
    }
  }

  lemma {:induction false} RunInvariant(acts: seq<Act>)
    ensures Inv(Run(acts))
  {
    if acts != [] {
      var s, act := Run(acts[..|acts| - 1]), acts[|acts| - 1];
      RunInvariant(acts[..|acts| - 1]);
      StepKeepsFresh(s, act);
      StepKeepsExclusive(s, act);
      StepKeepsClaim(s, act);
      StepKeepsQuiet(s, act);
    }
  }

  /** In every run, no two tasks re-dial the same session at once. */
  lemma NeverTwoDialers(acts: seq<Act>, t: TaskId, u: TaskId)
    requires At(Run(acts), t, Dialing) && At(Run(acts), u, Dialing)
    requires Run(acts).tasks[t].id == Run(acts).tasks[u].id
    ensures t == u
  {
    RunInvariant(acts);
    assert Redialing(Run(acts), t) && Redialing(Run(acts), u);
  }

  /** In every run, once a session was suppressed no reconnect attempt for it starts. */
  lemma NoAttemptAfterSuppression(acts: seq<Act>, i: nat, j: nat)
    requires i < j < |Run(acts).log| && Run(acts).log[i].Suppressed?
    ensures Run(acts).log[j] != Attempt(Run(acts).log[i].id)
  {
    RunInvariant(acts);
  }

  /** Two tasks can hold claims on one session, but only after it was suppressed. */
  lemma DoubleClaimOnlyWhenSuppressed(acts: seq<Act>, t: TaskId, u: TaskId)
    requires Active(Run(acts), t) && Active(Run(acts), u) && t != u
    requires Run(acts).tasks[t].id == Run(acts).tasks[u].id
    ensures !Live(Run(acts), Run(acts).tasks[t].id)
  {
    RunInvariant(acts);
  }

  // ---------------------------------------------------------------- a lost session is retried

  /** While the pool is open, a pending flag of a live session belongs to an active task. */
  ghost predicate PendingOwned(s: State) {
    forall id :: Live(s, id) && s.slots[id].pending && !s.closed ==> exists t :: Active(s, t) && s.tasks[t].id == id
  }

  lemma StepKeepsOwned(s: State, act: Act)
    requires Fresh(s) && PendingOwned(s)
    ensures PendingOwned(Exec(s, act))
  {
    var s' := Exec(s, act);
    forall id | Live(s', id) && s'.slots[id].pending && !s'.closed
      ensures exists t :: Active(s', t) && s'.tasks[t].id == id
    {
      if act.Claim? && At(s, act.task, Checked) && s.tasks[act.task].id == id && !s.slots[id].pending {
        assert Active(s', act.task);
      } else {
        OwnerStays(s, act, id);
      }
    }
  }

  /** The owner of a flag that stays set stays active. */
  lemma OwnerStays(s: State, act: Act, id: SessionId)
    requires Fresh(s) && PendingOwned(s) && Live(Exec(s, act), id) && Exec(s, act).slots[id].pending
    requires !Exec(s, act).closed
    requires !(act.Claim? && At(s, act.task, Checked) && s.tasks[act.task].id == id && !s.slots[id].pending)
    ensures exists t :: Active(Exec(s, act), t) && Exec(s, act).tasks[t].id == id
  {
    assert Live(s, id) && s.slots[id].pending && !s.closed;
    var t :| Active(s, t) && s.tasks[t].id == id;
    assert Active(Exec(s, act), t);
  }

  lemma {:induction false} RunOwned(acts: seq<Act>)
    ensures PendingOwned(Run(acts))
  {
    if acts != [] {
      RunOwned(acts[..|acts| - 1]);
      RunInvariant(acts[..|acts| - 1]);
      StepKeepsOwned(Run(acts[..|acts| - 1]), acts[|acts| - 1]);
    }
  }

  /**
   * The end of a dial: the task goes and gives up its claim, and a new task for the same session
   * appears if and only if the dial failed and the pool is open.
   */
  lemma ClearReschedules(s: State, t: TaskId, failed: bool)
    requires Fresh(s) && At(s, t, Clearing)
    ensures
      var s', id := Exec(s, Clear(t, failed)), s.tasks[t].id;
      && t !in s'.tasks
      && (id in s'.slots ==> !s'.slots[id].pending)
      && ((exists u :: u in s'.tasks && u !in s.tasks) <==> failed && !s.closed)
      && forall u :: u in s'.tasks && u !in s.tasks ==> s'.tasks[u] == Task(id, Spawned)
  {
    var s' := Exec(s, Clear(t, failed));
    assert failed && !s.closed ==> s.nextTask in s'.tasks;
  }

  /** Some task is on its way to re-dial the session. */
  ghost predicate HasTask(s: State, id: SessionId) {
    exists t :: t in s.tasks && s.tasks[t].id == id
  }

  /** `act` suppresses or removes the session, closes the pool, or reports a dial of it that succeeded. */
  predicate Settles(s: State, act: Act, id: SessionId) {
    || !Live(Exec(s, act), id)
    || Exec(s, act).closed
    || (act.Clear? && !act.failed && At(s, act.task, Clearing) && s.tasks[act.task].id == id)
  }

  lemma TaskStays(s: State, act: Act, id: SessionId)
    requires Fresh(s) && PendingOwned(s) && Live(s, id) && HasTask(s, id) && !Settles(s, act, id)
    ensures HasTask(Exec(s, act), id)
  {
    var t :| t in s.tasks && s.tasks[t].id == id;
    var s' := Exec(s, act);
    if t in s'.tasks {
      assert s'.tasks[t].id == id;
    } else if act.Claim? {
      var u :| Active(s, u) && s.tasks[u].id == id;
      assert u in s'.tasks && s'.tasks[u].id == id;
    } else {
      assert act == Clear(t, true);
      assert s'.tasks[s.nextTask].id == id;
    }
  }

  /** Nothing in `more`, taken after `acts`, settles the session. */
  ghost predicate Unsettled(acts: seq<Act>, more: seq<Act>, id: SessionId) {
    forall i :: 0 <= i < |more| ==> !Settles(Run(acts + more[..i]), more[i], id)
  }

  lemma RunOneMore(acts: seq<Act>, more: seq<Act>)
    requires more != []
    ensures Run(acts + more) == Exec(Run(acts + more[..|more| - 1]), more[|more| - 1])
  {
    assert (acts + more)[..|acts + more| - 1] == acts + more[..|more| - 1];
  }

  lemma {:induction false} TaskKept(acts: seq<Act>, more: seq<Act>, id: SessionId)
    requires Live(Run(acts), id) && HasTask(Run(acts), id) && Unsettled(acts, more, id)
    ensures Live(Run(acts + more), id) && HasTask(Run(acts + more), id)
  {
    if more == [] {
      assert acts + more == acts;
    } else {
      var front := more[..|more| - 1];
      assert forall i :: 0 <= i < |front| ==> front[..i] == more[..i];
      TaskKept(acts, front, id);
      RunOneMore(acts, more);
      RunInvariant(acts + front);
      RunOwned(acts + front);
      TaskStays(Run(acts + front), more[|more| - 1], id);
    }
  }

  /**
   * Over every run: after a notice that a live session was lost, some task for it exists until
   * the session is suppressed or removed, the pool closes, or a dial of it succeeds.
   */
  lemma LostSessionIsRetried(acts: seq<Act>, id: SessionId, more: seq<Act>)
    requires Live(Run(acts), id) && !Run(acts).closed && Unsettled(acts + [Notice(id)], more, id)
    ensures HasTask(Run(acts + [Notice(id)] + more), id)
  {
    var noticed := acts + [Notice(id)];
    RunOneMore(acts, [Notice(id)]);
    assert acts + [Notice(id)][..0] == acts;
    assert Run(noticed).tasks[Run(acts).nextTask].id == id;
    TaskKept(noticed, more, id);
  }

  // ---------------------------------------------------------------- and the retry can start

  lemma After(acts: seq<Act>, act: Act)
    ensures Run(acts + [act]) == Exec(Run(acts), act)
  {
    RunOneMore(acts, [act]);
    assert acts + [act][..0] == acts;
  }

  /** A sleeping task of a live session wakes up to dial it. */
  lemma SleeperDials(s: State, t: TaskId)
    requires At(s, t, Sleeping) && Live(s, s.tasks[t].id) && !s.closed
    ensures At(Exec(s, Wake(t)), t, Dialing) && Exec(s, Wake(t)).tasks[t].id == s.tasks[t].id
    ensures Exec(s, Wake(t)).log == s.log + [Attempt(s.tasks[t].id)]
  {
  }

  /** A task that finds its session live and unclaimed claims it. */
  lemma WatcherClaims(s: State, t: TaskId)
    requires At(s, t, Checked) && Live(s, s.tasks[t].id) && !s.slots[s.tasks[t].id].pending
    ensures At(Exec(s, Claim(t)), t, Sleeping) && Live(Exec(s, Claim(t)), s.tasks[t].id)
    ensures Exec(s, Claim(t)).tasks[t].id == s.tasks[t].id && Exec(s, Claim(t)).closed == s.closed
  {
  }

  lemma SpawnedChecks(s: State, t: TaskId)
    requires At(s, t, Spawned) && Live(s, s.tasks[t].id)
    ensures At(Exec(s, CheckSlot(t)), t, Checked) && Exec(s, CheckSlot(t)).slots == s.slots
    ensures Exec(s, CheckSlot(t)).tasks[t].id == s.tasks[t].id && Exec(s, CheckSlot(t)).closed == s.closed
  {
  }

  lemma SleeperRuns(acts: seq<Act>, t: TaskId) returns (more: seq<Act>)
    requires At(Run(acts), t, Sleeping) && Live(Run(acts), Run(acts).tasks[t].id) && !Run(acts).closed
    ensures Redialing(Run(acts + more), t) && Run(acts + more).tasks[t].id == Run(acts).tasks[t].id
  {
    SleeperDials(Run(acts), t);
    After(acts, Wake(t));
    more := [Wake(t)];
  }

  lemma CheckedRuns(acts: seq<Act>, t: TaskId) returns (more: seq<Act>)
    requires At(Run(acts), t, Checked) && Live(Run(acts), Run(acts).tasks[t].id) && !Run(acts).closed
    requires !Run(acts).slots[Run(acts).tasks[t].id].pending
    ensures Redialing(Run(acts + more), t) && Run(acts + more).tasks[t].id == Run(acts).tasks[t].id
  {
    WatcherClaims(Run(acts), t);
    After(acts, Claim(t));
    var rest := SleeperRuns(acts + [Claim(t)], t);
    more := [Claim(t)] + rest;
    assert acts + more == acts + [Claim(t)] + rest;
  }

  lemma SpawnedRuns(acts: seq<Act>, t: TaskId) returns (more: seq<Act>)
    requires At(Run(acts), t, Spawned) && Live(Run(acts), Run(acts).tasks[t].id) && !Run(acts).closed
    requires !Run(acts).slots[Run(acts).tasks[t].id].pending
    ensures Redialing(Run(acts + more), t) && Run(acts + more).tasks[t].id == Run(acts).tasks[t].id
  {
    SpawnedChecks(Run(acts), t);
    After(acts, CheckSlot(t));
    var rest := CheckedRuns(acts + [CheckSlot(t)], t);
    more := [CheckSlot(t)] + rest;
    assert acts + more == acts + [CheckSlot(t)] + rest;
  }

  /** From every reachable state with a task for a live session, some continuation re-dials the session. */
  lemma RetryCanDial(acts: seq<Act>, id: SessionId) returns (more: seq<Act>, t: TaskId)
    requires Live(Run(acts), id) && !Run(acts).closed && HasTask(Run(acts), id)
    ensures Redialing(Run(acts + more), t) && Run(acts + more).tasks[t].id == id
  {
    var s := Run(acts);
    RunOwned(acts);
    if u :| Active(s, u) && s.tasks[u].id == id {
      t := u;
      if At(s, u, Sleeping) {
        more := SleeperRuns(acts, u);
      } else {
        more := [];
        assert acts + more == acts;
      }
    } else {
      t :| t in s.tasks && s.tasks[t].id == id;
      if At(s, t, Spawned) {
        more := SpawnedRuns(acts, t);
      } else {
        more := CheckedRuns(acts, t);
      }
    }
  }

  /** A suppressed session is not live, whatever it was, and the log records it if it was in the pool. */
  lemma SuppressTakesEffect(s: State, id: SessionId)
    ensures !Live(Exec(s, SuppressMark(id)), id)
    ensures id in s.slots ==> Exec(s, SuppressMark(id)).log == s.log + [Suppressed(id)]
    ensures !Live(Exec(s, RemoveSlot(id)), id) || !WriteLockFree(s)
  {
  }

  /** A session added or renamed in place is live and unclaimed under a new id. */
  lemma NewSlotIsLive(s: State, id: SessionId)
    requires Fresh(s) && WriteLockFree(s)
    ensures Live(Exec(s, AddSlot), s.nextId) && !Exec(s, AddSlot).slots[s.nextId].pending && s.nextId !in s.slots
    ensures id in s.slots ==>
              Live(Exec(s, RenameSlot(id)), s.nextId) && !Exec(s, RenameSlot(id)).slots[s.nextId].pending
              && id !in Exec(s, RenameSlot(id)).slots
  {
  }

  /** Of the tasks that saw the session live, the one that finds the flag clear claims it; any other ends. */
  lemma ClaimOutcome(s: State, t: TaskId)
    requires At(s, t, Checked) && s.tasks[t].id in s.slots
    ensures
      var s', id := Exec(s, Claim(t)), s.tasks[t].id;
      && s'.slots[id].pending
      && (At(s', t, Sleeping) <==> !s.slots[id].pending)
      && (t !in s'.tasks <==> s.slots[id].pending)
  {
  }

  /** A woken task attempts the dial exactly on an open pool and a live session; else it ends, the claim given up. */
  lemma WakeOutcome(s: State, t: TaskId)
    requires At(s, t, Sleeping)
    ensures
      var s', id := Exec(s, Wake(t)), s.tasks[t].id;
      if !s.closed && Live(s, id) then At(s', t, Dialing) && s'.log == s.log + [Attempt(id)]
      else t !in s'.tasks && s'.log == s.log && (!s.closed && id in s.slots ==> !s'.slots[id].pending)
  {
  }

  /** Two watchers of a live, unclaimed session. */
  ghost predicate TwoWatchers(s: State, id: SessionId, t: TaskId, u: TaskId) {
    && t != u && At(s, t, Checked) && At(s, u, Checked) && s.tasks[t].id == s.tasks[u].id == id
    && Live(s, id) && !s.slots[id].pending
  }

  /** Two notices give a live, unclaimed session two watchers. */
  lemma TwoNotices(acts: seq<Act>, id: SessionId) returns (run: seq<Act>, t: TaskId, u: TaskId)
    requires Live(Run(acts), id) && !Run(acts).slots[id].pending && !Run(acts).closed
    ensures acts <= run && TwoWatchers(Run(run), id, t, u)
  {
    t, u := Run(acts).nextTask, Run(acts).nextTask + 1;
    run := acts;
    After(run, Notice(id));
    run := run + [Notice(id)];
    After(run, Notice(id));
    run := run + [Notice(id)];
    After(run, CheckSlot(t));
    run := run + [CheckSlot(t)];
    After(run, CheckSlot(u));
    run := run + [CheckSlot(u)];
  }

  /** The second store of a suppression releases the first claim, and the other watcher takes it. */
  lemma BothClaim(acts: seq<Act>, id: SessionId, t: TaskId, u: TaskId) returns (run: seq<Act>)
    requires TwoWatchers(Run(acts), id, t, u)
    ensures acts <= run && Active(Run(run), t) && Active(Run(run), u)
    ensures Run(run).tasks[t].id == id && Run(run).tasks[u].id == id
  {
    run := acts;
    After(run, Claim(t));
    run := run + [Claim(t)];
    After(run, SuppressMark(id));
    run := run + [SuppressMark(id)];
    After(run, SuppressRelease(id));
    run := run + [SuppressRelease(id)];
    After(run, Claim(u));
    run := run + [Claim(u)];
  }

  /** Two claims on one session can really happen, from every reachable state with a live, unclaimed session. */
  lemma DoubleClaimHappens(acts: seq<Act>, id: SessionId) returns (run: seq<Act>, t: TaskId, u: TaskId)
    requires Live(Run(acts), id) && !Run(acts).slots[id].pending && !Run(acts).closed
    ensures acts <= run && t != u && Active(Run(run), t) && Active(Run(run), u)
    ensures Run(run).tasks[t].id == id && Run(run).tasks[u].id == id
  {
    run, t, u := TwoNotices(acts, id);
    run := BothClaim(run, id, t, u);
  }

  // ---------------------------------------------------------------- the end of an attempt, and of the pool

  /** A re-dial can end either way; the task is then gone, and after a failure on an open pool another one is there. */
  lemma AttemptCanEnd(acts: seq<Act>, t: TaskId, failed: bool) returns (run: seq<Act>)
    requires Redialing(Run(acts), t)
    ensures acts <= run && t !in Run(run).tasks
    ensures failed && !Run(acts).closed ==> HasTask(Run(run), Run(acts).tasks[t].id)
  {
    run := acts;
    if At(Run(acts), t, Dialing) {
      After(run, DialEnds(t));
      run := run + [DialEnds(t)];
    }
    RunInvariant(run);
    ClearReschedules(Run(run), t, failed);
    After(run, Clear(t, failed));
    run := run + [Clear(t, failed)];
  }

  /** Entries of the log from `from` on are suppressions. */
  ghost predicate NoAttemptFrom(log: seq<Event>, from: nat) {
    forall j :: from <= j < |log| ==> log[j].Suppressed?
  }

  lemma {:induction false} ClosedRun(acts: seq<Act>, more: seq<Act>)
    requires Run(acts).closed
    ensures Run(acts + more).closed && NoAttemptFrom(Run(acts + more).log, |Run(acts).log|)
    ensures Run(acts + more).nextTask == Run(acts).nextTask
  {
    if more == [] {
      assert acts + more == acts;
    } else {
      ClosedRun(acts, more[..|more| - 1]);
      RunOneMore(acts, more);
    }
  }

  /** In every run, once the pool closed no task is spawned and no attempt starts. */
  lemma NoAttemptAfterClose(acts: seq<Act>, more: seq<Act>)
    ensures
      var s := Run(acts + [Close] + more);
      NoAttemptFrom(s.log, |Run(acts).log|) && s.nextTask == Run(acts).nextTask
  {
    After(acts, Close);
    ClosedRun(acts + [Close], more);
  }
}
