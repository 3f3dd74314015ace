/** The sliding-window limit on force_target and drain operations. */
module RateLimiter {
  import opened Collections
  import opened SlidingWindow

  datatype Op = ForceTarget | Drain | Migrate | Status

  datatype Call = Call(op: Op, now: nat)

  predicate Limited(op: Op) {
    op.ForceTarget? || op.Drain?
  }

  datatype Limiter = Limiter(windowMs: nat, maxHits: nat)

  /** The stored hits after a call, and whether it was admitted. */
  function Check(l: Limiter, hits: seq<nat>, call: Call): (seq<nat>, bool) {
    if !Limited(call.op) then (hits, true)
    else
      var recent := Within(hits, call.now, l.windowMs);
      if |recent| >= l.maxHits then (recent, false) else (recent + [call.now], true)
  }

  function Hits(l: Limiter, calls: seq<Call>): seq<nat> {
    if calls == [] then [] else Check(l, Hits(l, calls[..|calls| - 1]), calls[|calls| - 1]).0
  }

  /** Whether call `i` of a history was admitted. */
  function Admits(l: Limiter, calls: seq<Call>, i: nat): bool
    requires i < |calls|
  {
    Check(l, Hits(l, calls[..i]), calls[i]).1
  }

  /** Times of the limited calls of a history that were admitted. */
  function AdmittedTimes(l: Limiter, calls: seq<Call>): seq<nat> {
    if calls == [] then []
    else
      var n := |calls| - 1;
      AdmittedTimes(l, calls[..n]) + (if Limited(calls[n].op) && Admits(l, calls, n) then [calls[n].now] else [])
  }

  ghost predicate Timed(calls: seq<Call>) {
    forall i, j :: 0 <= i < j < |calls| ==> calls[i].now <= calls[j].now
  }

  /** For every later instant the stored hits and the full admission history agree on the window. */
  lemma {:induction false} HitsMatchHistory(l: Limiter, calls: seq<Call>, now: nat)
    requires Timed(calls) && (calls != [] ==> calls[|calls| - 1].now <= now)
    ensures Within(Hits(l, calls), now, l.windowMs) == Within(AdmittedTimes(l, calls), now, l.windowMs)
  {
    if calls != [] {
      var n := |calls| - 1;
      var front, call := calls[..n], calls[n];
      HitsMatchHistory(l, front, now);
      var before := AdmittedTimes(l, front);
      assert before + [] == before;
      if Limited(call.op) {
        var hits := Hits(l, front);
        WithinLater(hits, call.now, now, l.windowMs);
        WithinAppend(Within(hits, call.now, l.windowMs), call.now, now, l.windowMs);
        WithinAppend(before, call.now, now, l.windowMs);
      }
    }
  }

  /** A limited call is refused exactly when the trailing window already holds `maxHits` admissions. */
  lemma RefusedExactlyWhenFull(l: Limiter, calls: seq<Call>, i: nat)
    requires Timed(calls) && i < |calls| && Limited(calls[i].op)
    ensures Admits(l, calls, i) <==> |Within(AdmittedTimes(l, calls[..i]), calls[i].now, l.windowMs)| < l.maxHits
  {
    HitsMatchHistory(l, calls[..i], calls[i].now);
  }

  /** Migrations and status calls are always admitted and never counted; the two others are when admitted. */
  lemma OnlyForceAndDrainCount(l: Limiter, calls: seq<Call>, call: Call)
    ensures
      var all, n := calls + [call], |calls|;
      var before, after := AdmittedTimes(l, calls), AdmittedTimes(l, all);
      match call.op
      case Migrate => Admits(l, all, n) && after == before && Hits(l, all) == Hits(l, calls)
      case Status => Admits(l, all, n) && after == before && Hits(l, all) == Hits(l, calls)
      case ForceTarget => after == if Admits(l, all, n) then before + [call.now] else before
      case Drain => after == if Admits(l, all, n) then before + [call.now] else before
  {
    var all, n := calls + [call], |calls|;
    assert all[..n] == calls && all[n] == call;
    assert AdmittedTimes(l, calls) + [] == AdmittedTimes(l, calls);
  }

  /** How many timestamps lie in the closed interval from `from` of length `length`. */
  function CountIn(ts: seq<nat>, from: nat, length: nat): nat {
    if ts == [] then 0
    else CountIn(ts[..|ts| - 1], from, length) + (if from <= ts[|ts| - 1] <= from + length then 1 else 0)
  }

  /** An interval reaching back no further than the trailing window holds no more than it. */
  lemma {:induction false} CountInWithin(ts: seq<nat>, from: nat, length: nat, now: nat)
    requires from <= now <= from + length && forall i :: 0 <= i < |ts| ==> ts[i] <= now
    ensures CountIn(ts, from, length) <= |Within(ts, now, length)|
  {
    if ts != [] {
      var n := |ts| - 1;
      CountInWithin(ts[..n], from, length, now);
      WithinAppend(ts[..n], ts[n], now, length);
      assert ts[..n] + [ts[n]] == ts;
    }
  }

  lemma {:induction false} AdmittedBefore(l: Limiter, calls: seq<Call>, now: nat)
    requires forall i :: 0 <= i < |calls| ==> calls[i].now <= now
    ensures forall i :: 0 <= i < |AdmittedTimes(l, calls)| ==> AdmittedTimes(l, calls)[i] <= now
  {
    if calls != [] {
      AdmittedBefore(l, calls[..|calls| - 1], now);
    }
  }

  /** Over every call history, every closed interval of the window's length holds at most `maxHits` admissions. */
  lemma {:induction false} NoBurstAnywhere(l: Limiter, calls: seq<Call>, from: nat)
    requires Timed(calls)
    ensures CountIn(AdmittedTimes(l, calls), from, l.windowMs) <= l.maxHits
  {
    if calls != [] {
      var n := |calls| - 1;
      var front, now := calls[..n], calls[n].now;
      NoBurstAnywhere(l, front, from);
      if Limited(calls[n].op) && Admits(l, calls, n) {
        var before := AdmittedTimes(l, front);
        assert (before + [now])[..|before|] == before;
        if from <= now <= from + l.windowMs {
          RefusedExactlyWhenFull(l, calls, n);
          AdmittedBefore(l, front, now);
          CountInWithin(before, from, l.windowMs, now);
        }
      } else {
        assert AdmittedTimes(l, calls) == AdmittedTimes(l, front);
      }
    }
  }

  class OpsControlRateLimiter {
    const limiter: Limiter
    var hits: seq<nat>

    constructor (windowMs: nat, maxHits: nat)
      ensures limiter == Limiter(windowMs, Max(maxHits, 1)) && hits == []
    {
      limiter := Limiter(windowMs, Max(maxHits, 1));
      hits := [];
    }

    method CheckOp(op: Op, now: nat) returns (ok: bool)
      modifies this
      ensures (hits, ok) == Check(limiter, old(hits), Call(op, now))
      ensures op == Migrate || op == Status ==> ok && hits == old(hits)
      ensures (op == ForceTarget || op == Drain) && ok ==> hits != [] && hits[|hits| - 1] == now
    {
      if op.Migrate? || op.Status? {
        return true;
      }
      var kept := [];
      for i := 0 to |hits|
        invariant hits == old(hits)
        invariant kept + Within(hits[i..], now, limiter.windowMs) == Within(hits, now, limiter.windowMs)
      {
        assert hits[i..][1..] == hits[i + 1..];
        if Monus(now, hits[i]) <= limiter.windowMs {
          kept := kept + [hits[i]];
        }
      }
      assert kept == Within(hits, now, limiter.windowMs);
      hits := kept;
      if |hits| >= limiter.maxHits {
        return false;
      }
      hits := hits + [now];
      return true;
    }
  }
}
