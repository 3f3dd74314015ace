/** The connect throttle: staggered starts and a bounded number of connects in flight. */
module Throttle {
  import opened Collections

  /** Start of each connect when connect `i` asks at `nows[i]` and the first may start at `next`. */
  function Starts(next: int, nows: seq<int>, stagger: nat): (r: seq<int>)
    ensures |r| == |nows|
  {
    if nows == [] then []
    else
      var n := |nows| - 1;
      var before := Starts(next, nows[..n], stagger);
      before + [Max(nows[n], NextStart(next, before, stagger))]
  }

  /** The `next_start` field after the given starts. */
  function NextStart(next: int, starts: seq<int>, stagger: nat): int {
    if starts == [] then next else starts[|starts| - 1] + stagger
  }

  lemma {:induction false} StartsAt(next: int, nows: seq<int>, stagger: nat, i: nat)
    requires i < |nows|
    ensures Starts(next, nows, stagger)[..i] == Starts(next, nows[..i], stagger)
    ensures Starts(next, nows, stagger)[i]
            == Max(nows[i], if i == 0 then next else Starts(next, nows, stagger)[i - 1] + stagger)
  {
    var n := |nows| - 1;
    if i < n {
      StartsAt(next, nows[..n], stagger, i);
      assert nows[..n][..i] == nows[..i];
    }
  }

  /** What earlier asks and the initial `next_start` demand of start `i`. */
  function Demand(next: int, nows: seq<int>, stagger: nat, i: nat, j: int): int
    requires -1 <= j <= i < |nows|
  {
    if j == -1 then next + i * stagger else nows[j] + (i - j) * stagger
  }

  lemma DemandStep(next: int, nows: seq<int>, stagger: nat, i: nat, j: int)
    requires -1 <= j <= i && i + 1 < |nows|
    ensures Demand(next, nows, stagger, i + 1, j) == Demand(next, nows, stagger, i, j) + stagger
  {
    assert (i + 1) * stagger == i * stagger + stagger;
    if j >= 0 {
      assert (i + 1 - j) * stagger == (i - j) * stagger + stagger;
    }
  }

  /**
   * The closed form of the schedule: start `i` is the largest of `next + i * stagger` and
   * `nows[j] + (i - j) * stagger` over all earlier asks `j`. It meets every demand and equals one.
   */
  lemma {:induction false} ClosedForm(next: int, nows: seq<int>, stagger: nat, i: nat) returns (tight: int)
    requires i < |nows|
    ensures forall j :: -1 <= j <= i ==> Demand(next, nows, stagger, i, j) <= Starts(next, nows, stagger)[i]
    ensures -1 <= tight <= i && Demand(next, nows, stagger, i, tight) == Starts(next, nows, stagger)[i]
  {
    StartsAt(next, nows, stagger, i);
    if i == 0 {
      tight := if nows[0] >= next then 0 else -1;
    } else {
      var w := ClosedForm(next, nows, stagger, i - 1);
      forall j | -1 <= j < i
        ensures Demand(next, nows, stagger, i, j) <= Starts(next, nows, stagger)[i]
      {
        DemandStep(next, nows, stagger, i - 1, j);
      }
      DemandStep(next, nows, stagger, i - 1, w);
      tight := if nows[i] >= Starts(next, nows, stagger)[i - 1] + stagger then i else w;
    }
  }

  /** Any k + 1 successive starts span at least k staggers. */
  lemma {:induction false} StartsAreSpaced(next: int, nows: seq<int>, stagger: nat, i: nat, k: nat)
    requires i + k < |nows|
    ensures Starts(next, nows, stagger)[i + k] >= Starts(next, nows, stagger)[i] + k * stagger
  {
    if k > 0 {
      StartsAreSpaced(next, nows, stagger, i, k - 1);
      StartsAt(next, nows, stagger, i + k);
      assert k * stagger == (k - 1) * stagger + stagger;
    }
  }

  /** A schedule that starts nothing before it is asked for and keeps the stagger. */
  ghost predicate Respects(other: seq<int>, next: int, nows: seq<int>, stagger: nat) {
    && |other| == |nows|
    && (other != [] ==> other[0] >= next)
    && (forall i :: 0 <= i < |other| ==> other[i] >= nows[i])
    && (forall i :: 0 < i < |other| ==> other[i] >= other[i - 1] + stagger)
  }

  /** The throttle's schedule respects the rules, and starts nothing later than any schedule that does. */
  lemma {:induction false} StartsAreEarliest(next: int, nows: seq<int>, stagger: nat, other: seq<int>, i: nat)
    requires i < |nows| && Respects(other, next, nows, stagger)
    ensures Starts(next, nows, stagger)[i] <= other[i]
  {
    StartsAt(next, nows, stagger, i);
    if i > 0 {
      StartsAreEarliest(next, nows, stagger, other, i - 1);
    }
  }

  lemma StartsRespect(next: int, nows: seq<int>, stagger: nat)
    ensures Respects(Starts(next, nows, stagger), next, nows, stagger)
  {
    forall i | 0 <= i < |nows|
      ensures Starts(next, nows, stagger)[i] >= nows[i]
      ensures i == 0 ==> Starts(next, nows, stagger)[i] >= next
      ensures i > 0 ==> Starts(next, nows, stagger)[i] >= Starts(next, nows, stagger)[i - 1] + stagger
    {
      StartsAt(next, nows, stagger, i);
    }
  }

  type ConnectId = nat

  /** A throttled connect acquires a permit, reserves its start, and gives the permit back at the end. */
  class PoolConnectThrottle {
    const concurrency: nat
    const stagger: nat
    var permits: nat
    var inFlight: set<ConnectId>
    var nextStart: int
    ghost var first: int
    ghost var nows: seq<int>
    ghost var starts: seq<int>

    /** Permits out equal connects in flight; the starts handed out are the schedule of all asks. */
    ghost predicate Valid()
      reads this
    {
      && permits + |inFlight| == concurrency
      && starts == Starts(first, nows, stagger)
      && nextStart == NextStart(first, starts, stagger)
    }

    constructor (concurrency: nat, stagger: nat, now: int)
      ensures Valid() && this.concurrency == Max(concurrency, 1) && this.stagger == stagger
      ensures inFlight == {} && nows == [] && first == now
    {
      this.concurrency, this.stagger := Max(concurrency, 1), stagger;
      permits, inFlight, nextStart := Max(concurrency, 1), {}, now;
      first, nows, starts := now, [], [];
    }

    /** Take a permit and reserve a start; without a free permit the caller keeps waiting. */
    method TryBegin(id: ConnectId, now: int) returns (start: Option<int>)
      requires Valid() && id !in inFlight
      modifies this
      ensures Valid() && first == old(first) && |inFlight| <= concurrency
      ensures start.None? <==> old(|inFlight|) == concurrency
      ensures start.None? ==> inFlight == old(inFlight) && nows == old(nows) && starts == old(starts)
      ensures start.Some? ==> inFlight == old(inFlight) + {id} && nows == old(nows) + [now]
                              && starts == old(starts) + [start.value] && start.value >= now
    {
      if permits == 0 {
        return None;
      }
      permits := permits - 1;
      inFlight := inFlight + {id};
      var at := Max(now, nextStart);
      nextStart := at + stagger;
      assert (nows + [now])[..|nows|] == nows;
      nows, starts := nows + [now], starts + [at];
      return Some(at);
    }

    method Finish(id: ConnectId)
      requires Valid() && id in inFlight
      modifies this`permits, this`inFlight
      ensures Valid() && inFlight == old(inFlight) - {id}
    {
      inFlight := inFlight - {id};
      permits := permits + 1;
    }
  }
}
