/** How each slot edit changes the sets of source and target sessions. */
module PoolFacts {
  import opened Collections
  import opened Planning
  import opened PoolState

  lemma ConsViews(s: Slot, rest: seq<Slot>, target: string)
    ensures IdSet([s] + rest) == {s.id} + IdSet(rest)
    ensures Sources([s] + rest, target) == (if s.url != target then {s.id} else {}) + Sources(rest, target)
    ensures Targets([s] + rest, target) == (if s.url == target then {s.id} else {}) + Targets(rest, target)
  {
    var all := [s] + rest;
    assert all[0] == s;
    assert forall x :: x in all <==> x == s || x in rest;
  }

  lemma TailDistinct(slots: seq<Slot>)
    requires DistinctIds(slots) && slots != []
    ensures slots == [slots[0]] + slots[1..] && DistinctIds(slots[1..])
    ensures slots[0].id !in IdSet(slots[1..])
    ensures forall x :: x in slots[1..] ==> x.id != slots[0].id
  {
    forall x | x in slots[1..]
      ensures x.id != slots[0].id
    {
      var i :| 0 <= i < |slots[1..]| && slots[1..][i] == x;
      assert slots[i + 1] == x;
    }
  }

  lemma {:induction false} IdCount(slots: seq<Slot>)
    requires DistinctIds(slots)
    ensures |IdSet(slots)| == |slots|
  {
    if slots == [] {
      assert IdSet(slots) == {};
    } else {
      var s, rest := slots[0], slots[1..];
      TailDistinct(slots);
      IdCount(rest);
      ConsViews(s, rest, "");
      assert |{s.id} + IdSet(rest)| == 1 + |IdSet(rest)|;
    }
  }

  lemma {:induction false} TargetCount(slots: seq<Slot>, target: string)
    requires DistinctIds(slots)
    ensures OnTarget(slots, target) == |Targets(slots, target)|
  {
    if slots == [] {
      assert Targets(slots, target) == {};
    } else {
      var s, rest := slots[0], slots[1..];
      TailDistinct(slots);
      TargetCount(rest, target);
      assert forall x :: x in slots <==> x == s || x in rest;
      assert s.id !in Targets(rest, target);
      if s.url == target {
        assert Targets(slots, target) == {s.id} + Targets(rest, target);
      } else {
        assert Targets(slots, target) == Targets(rest, target);
      }
    }
  }

  lemma {:induction false} SourceIdsView(slots: seq<Slot>, target: string)
    requires DistinctIds(slots)
    ensures ToSet(SourceIds(slots, target)) == Sources(slots, target)
    ensures NoDup(SourceIds(slots, target))
  {
    if slots != [] {
      var s, rest := slots[0], slots[1..];
      TailDistinct(slots);
      SourceIdsView(rest, target);
      ConsViews(s, rest, target);
      var tail := SourceIds(rest, target);
      assert s.id !in ToSet(tail);
      assert ToSet([s.id] + tail) == {s.id} + ToSet(tail);
    }
  }

  /** Sources are listed in slot order: those of a prefix of the slots come first. */
  lemma {:induction false} SourceIdsInOrder(a: seq<Slot>, b: seq<Slot>, target: string)
    ensures SourceIds(a, target) <= SourceIds(a + b, target)
  {
    if a != [] {
      assert (a + b)[0] == a[0] && (a + b)[1..] == a[1..] + b;
      SourceIdsInOrder(a[1..], b, target);
    }
  }

  lemma SlotCounts(slots: seq<Slot>, target: string)
    requires DistinctIds(slots)
    ensures |SourceIds(slots, target)| == |Sources(slots, target)|
    ensures OnTarget(slots, target) == |Targets(slots, target)|
    ensures Sources(slots, target) !! Targets(slots, target)
    ensures |slots| == |Sources(slots, target)| + |Targets(slots, target)|
  {
    SourceIdsView(slots, target);
    NoDupCardinality(SourceIds(slots, target));
    TargetCount(slots, target);
    IdCount(slots);
    SourceTargetIds(slots, target);
    forall x | x in Sources(slots, target)
      ensures x !in Targets(slots, target)
    {
      var a :| a in slots && a.url != target && a.id == x;
      if x in Targets(slots, target) {
        var b :| b in slots && b.url == target && b.id == x;
        DistinctMember(slots, a, b);
      }
    }
    assert |IdSet(slots)| == |Sources(slots, target)| + |Targets(slots, target)|;
  }

  lemma SourceTargetIds(slots: seq<Slot>, target: string)
    ensures Sources(slots, target) + Targets(slots, target) == IdSet(slots)
  {
    forall x | x in IdSet(slots)
      ensures x in Sources(slots, target) + Targets(slots, target)
    {
      var s :| s in slots && s.id == x;
      if s.url == target {
        assert x in Targets(slots, target);
      } else {
        assert x in Sources(slots, target);
      }
    }
  }

  lemma {:induction false} DistinctMember(slots: seq<Slot>, a: Slot, b: Slot)
    requires DistinctIds(slots) && a in slots && b in slots && a.id == b.id
    ensures a == b
  {
    var i :| 0 <= i < |slots| && slots[i] == a;
    var j :| 0 <= j < |slots| && slots[j] == b;
    assert i == j;
  }

  lemma {:induction false} RemoveIdsMembers(slots: seq<Slot>, gone: set<SessionId>)
    ensures forall s :: s in RemoveIds(slots, gone) <==> s in slots && s.id !in gone
  {
    if slots != [] {
      RemoveIdsMembers(slots[1..], gone);
      assert forall s :: s in slots <==> s == slots[0] || s in slots[1..];
    }
  }

  lemma {:induction false} RemoveIdsDistinct(slots: seq<Slot>, gone: set<SessionId>)
    requires DistinctIds(slots)
    ensures DistinctIds(RemoveIds(slots, gone))
  {
    if slots != [] {
      RemoveIdsDistinct(slots[1..], gone);
      RemoveIdsMembers(slots[1..], gone);
      assert forall s :: s in slots[1..] ==> s.id != slots[0].id;
    }
  }

  lemma RemoveIdsViews(slots: seq<Slot>, gone: set<SessionId>, target: string)
    requires DistinctIds(slots)
    ensures DistinctIds(RemoveIds(slots, gone))
    ensures Sources(RemoveIds(slots, gone), target) == Sources(slots, target) - gone
    ensures Targets(RemoveIds(slots, gone), target) == Targets(slots, target) - gone
  {
    RemoveIdsDistinct(slots, gone);
    RemoveIdsMembers(slots, gone);
  }

  /** Removing ids that are present shrinks the pool by exactly that many. */
  lemma RemoveIdsCount(slots: seq<Slot>, gone: set<SessionId>)
    requires DistinctIds(slots) && gone <= IdSet(slots)
    ensures |RemoveIds(slots, gone)| == |slots| - |gone|
  {
    RemoveIdsDistinct(slots, gone);
    RemoveIdsMembers(slots, gone);
    IdCount(slots);
    IdCount(RemoveIds(slots, gone));
    assert IdSet(RemoveIds(slots, gone)) == IdSet(slots) - gone;
    assert IdSet(slots) == (IdSet(slots) - gone) + gone;
  }

  lemma {:induction false} RemoveIdsCompose(slots: seq<Slot>, a: set<SessionId>, b: set<SessionId>)
    ensures RemoveIds(RemoveIds(slots, a), b) == RemoveIds(slots, a + b)
  {
    if slots != [] {
      var rest := slots[1..];
      RemoveIdsCompose(rest, a, b);
      if slots[0].id !in a {
        var inner := RemoveIds(rest, a);
        assert ([slots[0]] + inner)[1..] == inner;
      } else {
        assert RemoveIds(slots, a) == RemoveIds(rest, a);
      }
    }
  }

  /** Removing the slot at an index is the same as filtering its id out. */
  lemma {:induction false} RemoveAtIsRemoveId(slots: seq<Slot>, index: nat)
    requires DistinctIds(slots) && index < |slots|
    ensures slots[..index] + slots[index + 1..] == RemoveIds(slots, {slots[index].id})
  {
    var id, rest := slots[index].id, slots[1..];
    if index == 0 {
      RemoveNothing(rest, {id});
      assert slots[..0] + rest == rest;
    } else {
      RemoveAtIsRemoveId(rest, index - 1);
      assert slots[..index] + slots[index + 1..] == [slots[0]] + (rest[..index - 1] + rest[index..]);
    }
  }

  lemma {:induction false} RemoveNothing(slots: seq<Slot>, gone: set<SessionId>)
    requires forall s :: s in slots ==> s.id !in gone
    ensures RemoveIds(slots, gone) == slots
  {
    if slots != [] {
      RemoveNothing(slots[1..], gone);
    }
  }

  lemma RedialMembers(slots: seq<Slot>, id: SessionId, url: string, newId: SessionId, s: Slot)
    requires DistinctIds(slots) && id in IdSet(slots)
    ensures s in Redial(slots, id, url, newId) <==> s == Slot(newId, url) || (s in slots && s.id != id)
  {
    var out := Redial(slots, id, url, newId);
    if s in slots && s.id != id {
      var i :| 0 <= i < |slots| && slots[i] == s;
      assert out[i] == s;
    }
    var t :| t in slots && t.id == id;
    var k :| 0 <= k < |slots| && slots[k] == t;
    assert out[k] == Slot(newId, url);
    if s in out {
      var i :| 0 <= i < |out| && out[i] == s;
      assert slots[i] in slots;
    }
  }

  lemma RedialDistinct(slots: seq<Slot>, id: SessionId, url: string, newId: SessionId)
    requires DistinctIds(slots) && newId !in IdSet(slots)
    ensures DistinctIds(Redial(slots, id, url, newId))
  {
    assert forall i :: 0 <= i < |slots| ==> slots[i] in slots && slots[i].id in IdSet(slots);
  }

  lemma RedialViews(slots: seq<Slot>, id: SessionId, target: string, newId: SessionId)
    requires DistinctIds(slots) && newId !in IdSet(slots)
    requires id in Sources(slots, target)
    ensures DistinctIds(Redial(slots, id, target, newId))
    ensures Sources(Redial(slots, id, target, newId), target) == Sources(slots, target) - {id}
    ensures Targets(slots, target) <= Targets(Redial(slots, id, target, newId), target)
    ensures IdSet(Redial(slots, id, target, newId)) == IdSet(slots) - {id} + {newId}
  {
    RedialDistinct(slots, id, target, newId);
    forall s
      ensures s in Redial(slots, id, target, newId) <==> s == Slot(newId, target) || (s in slots && s.id != id)
    {
      RedialMembers(slots, id, target, newId, s);
    }
    var src :| src in slots && src.url != target && src.id == id;
    forall x | x in Targets(slots, target)
      ensures x in Targets(Redial(slots, id, target, newId), target)
    {
      var s :| s in slots && s.url == target && s.id == x;
      if s.id == id {
        DistinctMember(slots, s, src);
      }
    }
  }

  ghost predicate IdsBelow(slots: seq<Slot>, bound: SessionId) {
    forall s :: s in slots ==> s.id < bound
  }

  lemma {:induction false} RedialAllViews(slots: seq<Slot>, ids: seq<SessionId>, target: string, next: SessionId)
    requires DistinctIds(slots) && IdsBelow(slots, next)
    requires NoDup(ids) && ToSet(ids) <= Sources(slots, target)
    ensures DistinctIds(RedialAll(slots, ids, target, next))
    ensures IdsBelow(RedialAll(slots, ids, target, next), next + |ids|)
    ensures Sources(RedialAll(slots, ids, target, next), target) == Sources(slots, target) - ToSet(ids)
    ensures Targets(slots, target) <= Targets(RedialAll(slots, ids, target, next), target)
  {
    if ids != [] {
      var k := |ids| - 1;
      PrefixStep(ids, k);
      assert ids[..k + 1] == ids;
      RedialAllViews(slots, ids[..k], target, next);
      RedialOneMore(RedialAll(slots, ids[..k], target, next), ids[k], target, next + k);
    }
  }

  lemma RedialOneMore(slots: seq<Slot>, id: SessionId, target: string, next: SessionId)
    requires DistinctIds(slots) && IdsBelow(slots, next) && id in Sources(slots, target)
    ensures
      var out := Redial(slots, id, target, next);
      && DistinctIds(out) && IdsBelow(out, next + 1)
      && Sources(out, target) == Sources(slots, target) - {id} && Targets(slots, target) <= Targets(out, target)
      && IdSet(out) == IdSet(slots) - {id} + {next}
  {
    assert next !in IdSet(slots);
    RedialViews(slots, id, target, next);
    var out := Redial(slots, id, target, next);
    forall s | s in out
      ensures s.id < next + 1
    {
      assert s.id in IdSet(out);
    }
  }

  /** Redialing other sessions in place does not change which held sessions are sources of a target. */
  lemma RedialKeepsHeld(slots: seq<Slot>, id: SessionId, url: string, newId: SessionId,
                        target: string, held: set<SessionId>)
    requires DistinctIds(slots) && id in IdSet(slots) && id !in held && newId !in held
    ensures held * Sources(Redial(slots, id, url, newId), target) == held * Sources(slots, target)
  {
    forall s
      ensures s in Redial(slots, id, url, newId) <==> s == Slot(newId, url) || (s in slots && s.id != id)
    {
      RedialMembers(slots, id, url, newId, s);
    }
  }

  lemma {:induction false} RedialAllKeepsHeld(slots: seq<Slot>, ids: seq<SessionId>, url: string, next: SessionId,
                                              target: string, held: set<SessionId>)
    requires DistinctIds(slots) && IdsBelow(slots, next)
    requires NoDup(ids) && ToSet(ids) <= Sources(slots, url) && ToSet(ids) !! held
    requires forall x :: x in held ==> x < next
    ensures held * Sources(RedialAll(slots, ids, url, next), target) == held * Sources(slots, target)
  {
    if ids != [] {
      var k := |ids| - 1;
      var front := ids[..k];
      assert ids[k] in ToSet(ids) && ids[k] !in front;
      assert forall x :: x in front ==> x in ToSet(ids);
      RedialAllKeepsHeld(slots, front, url, next, target, held);
      RedialAllViews(slots, front, url, next);
      var mid := RedialAll(slots, front, url, next);
      assert ids[k] in Sources(mid, url);
      RedialKeepsHeld(mid, ids[k], url, next + k, target, held);
    }
  }

  lemma DialedViews(slots: seq<Slot>, n: nat, target: string, next: SessionId)
    requires DistinctIds(slots) && IdsBelow(slots, next)
    ensures DistinctIds(slots + Dialed(n, target, next)) && IdsBelow(slots + Dialed(n, target, next), next + n)
    ensures Sources(slots + Dialed(n, target, next), target) == Sources(slots, target)
    ensures Targets(slots, target) <= Targets(slots + Dialed(n, target, next), target)
  {
    var more := Dialed(n, target, next);
    assert forall i :: 0 <= i < n ==> more[i].id == next + i && more[i].url == target;
    assert forall i :: 0 <= i < |slots| ==> slots[i] in slots;
    assert forall s :: s in more ==> s.url == target && next <= s.id < next + n;
  }

  /** `n` ids issued from `next` on. */
  function Issued(next: SessionId, n: nat): (ids: set<SessionId>)
    ensures forall x :: x in ids <==> next <= x < next + n
  {
    if n == 0 then {} else Issued(next, n - 1) + {next + n - 1}
  }

  lemma RedialFront(slots: seq<Slot>, ids: seq<SessionId>, target: string, next: SessionId)
    requires DistinctIds(slots) && IdsBelow(slots, next) && ids != []
    requires NoDup(ids) && ToSet(ids) <= Sources(slots, target)
    ensures
      var k := |ids| - 1;
      var mid := RedialAll(slots, ids[..k], target, next);
      && DistinctIds(mid) && IdsBelow(mid, next + k) && ids[k] in Sources(mid, target)
      && ids[k] in IdSet(slots) && ids[k] < next && ToSet(ids[..k]) <= Sources(slots, target) && NoDup(ids[..k])
      && ToSet(ids) == ToSet(ids[..k]) + {ids[k]}
  {
    var k := |ids| - 1;
    PrefixStep(ids, k);
    assert ids[..k + 1] == ids;
    assert ids[k] in ToSet(ids);
    SourceTargetIds(slots, target);
    RedialAllViews(slots, ids[..k], target, next);
  }

  lemma RedialAllLast(slots: seq<Slot>, ids: seq<SessionId>, target: string, next: SessionId)
    requires ids != []
    ensures
      var k := |ids| - 1;
      RedialAll(slots, ids, target, next) == Redial(RedialAll(slots, ids[..k], target, next), ids[k], target, next + k)
  {
  }

  lemma RedialHasId(slots: seq<Slot>, id: SessionId, target: string, next: SessionId, x: SessionId)
    requires DistinctIds(slots) && IdsBelow(slots, next) && id in Sources(slots, target)
    ensures x in IdSet(Redial(slots, id, target, next)) <==> (x in IdSet(slots) && x != id) || x == next
  {
    RedialOneMore(slots, id, target, next);
  }

  lemma {:induction false} RedialAllHasId(slots: seq<Slot>, ids: seq<SessionId>, target: string, next: SessionId,
                                          x: SessionId)
    requires DistinctIds(slots) && IdsBelow(slots, next)
    requires NoDup(ids) && ToSet(ids) <= Sources(slots, target)
    ensures x in IdSet(RedialAll(slots, ids, target, next))
            <==> (x in IdSet(slots) && x !in ToSet(ids)) || next <= x < next + |ids|
  {
    if ids != [] {
      var k := |ids| - 1;
      RedialFront(slots, ids, target, next);
      RedialAllHasId(slots, ids[..k], target, next, x);
      RedialAllLast(slots, ids, target, next);
      RedialHasId(RedialAll(slots, ids[..k], target, next), ids[k], target, next + k, x);
    }
  }

  lemma RedialAllIds(slots: seq<Slot>, ids: seq<SessionId>, target: string, next: SessionId)
    requires DistinctIds(slots) && IdsBelow(slots, next)
    requires NoDup(ids) && ToSet(ids) <= Sources(slots, target)
    ensures IdSet(RedialAll(slots, ids, target, next)) == IdSet(slots) - ToSet(ids) + Issued(next, |ids|)
  {
    forall x
      ensures x in IdSet(RedialAll(slots, ids, target, next)) <==> x in IdSet(slots) - ToSet(ids) + Issued(next, |ids|)
    {
      RedialAllHasId(slots, ids, target, next, x);
    }
  }

  lemma DialedIds(slots: seq<Slot>, n: nat, url: string, next: SessionId)
    ensures IdSet(slots + Dialed(n, url, next)) == IdSet(slots) + Issued(next, n)
  {
    var more := Dialed(n, url, next);
    forall x | x in Issued(next, n)
      ensures x in IdSet(slots + more)
    {
      assert more[x - next] in slots + more;
    }
    assert forall s :: s in slots + more <==> s in slots || s in more;
  }

  /** A pool in which the hold changes nothing about which slots count as sources elsewhere. */
  lemma DialedOther(slots: seq<Slot>, n: nat, url: string, next: SessionId, target: string, pending: set<SessionId>)
    requires IdsBelow(slots, next) && forall x :: x in pending ==> x < next
    ensures pending * Sources(slots + Dialed(n, url, next), target) == pending * Sources(slots, target)
  {
    var more := Dialed(n, url, next);
    assert forall s :: s in more ==> next <= s.id;
    var all := slots + more;
    forall x | x in pending * Sources(all, target)
      ensures x in Sources(slots, target)
    {
      var s :| s in all && s.url != target && s.id == x;
      assert s in slots;
    }
    forall x | x in pending * Sources(slots, target)
      ensures x in Sources(all, target)
    {
      var s :| s in slots && s.url != target && s.id == x;
      assert s in all;
    }
  }

  /** Pruning keeps exactly the held sources that are still present, and so keeps the logical size. */
  lemma PruneKeepsLogical(p: Pool)
    requires Valid(p)
    ensures Valid(PruneHold(p))
    ensures Outstanding(PruneHold(p)) == Outstanding(p) == ToSet(Pending(PruneHold(p)))
    ensures |Pending(PruneHold(p))| == |Outstanding(p)|
    ensures Logical(PruneHold(p)) == Logical(p)
    ensures MigrationLogical(PruneHold(p)) == Logical(p)
    ensures PruneHold(p).hold.None? <==> Outstanding(p) == {}
  {
    if p.hold.Some? {
      var h := p.hold.value;
      var src := Sources(p.slots, h.target);
      KeepNoDup(h.pending, src);
      NoDupCardinality(Keep(h.pending, src));
      SlotCounts(p.slots, h.target);
      SubsetCardinality(Outstanding(p), src);
      var q := PruneHold(p);
      assert ToSet(Keep(h.pending, src)) == Outstanding(p);
      assert q.hold.Some? ==> ToSet(q.hold.value.pending) * src == Outstanding(p);
    } else {
      assert ToSet(Pending(p)) == {};
    }
  }

  /** What a migrate call plans from a pruned hold: the logical size and the sessions on the target. */
  lemma PlanAfterPrune(p: Pool, target: string, fraction: real)
    requires Valid(p)
    ensures Logical(p) >= 0
    ensures PlanFor(PruneHold(p), target, fraction) == PlanGatewayMigration(Logical(p), OnTarget(p.slots, target), fraction)
  {
    PruneKeepsLogical(p);
    assert PruneHold(p).slots == p.slots;
  }
}
