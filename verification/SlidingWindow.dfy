/** Timestamps that lie in a trailing window. */
module SlidingWindow {
  import opened Collections

  /** Nondecreasing timestamps, none later than `now`. */
  ghost predicate Ordered(ts: seq<nat>, now: nat) {
    && (forall i, j :: 0 <= i < j < |ts| ==> ts[i] <= ts[j])
    && (forall i :: 0 <= i < |ts| ==> ts[i] <= now)
  }

  /** The timestamps at most `window` before `now`, in order (`Vec::retain`). */
  function Within(ts: seq<nat>, now: nat, window: nat): (r: seq<nat>)
    ensures |r| <= |ts|
  {
    if ts == [] then []
    else if Monus(now, ts[0]) <= window then [ts[0]] + Within(ts[1..], now, window)
    else Within(ts[1..], now, window)
  }

  /** Pop timestamps from the front while they are older than the window. */
  function PopOld(ts: seq<nat>, now: nat, window: nat): seq<nat> {
    if ts != [] && Monus(now, ts[0]) > window then PopOld(ts[1..], now, window) else ts
  }

  lemma {:induction false} WithinAll(ts: seq<nat>, now: nat, window: nat)
    requires forall i :: 0 <= i < |ts| ==> Monus(now, ts[i]) <= window
    ensures Within(ts, now, window) == ts
  {
    if ts != [] {
      WithinAll(ts[1..], now, window);
    }
  }

  /** On ordered timestamps, popping from the front keeps exactly those in the window. */
  lemma {:induction false} PopOldIsWithin(ts: seq<nat>, now: nat, window: nat)
    requires Ordered(ts, now)
    ensures PopOld(ts, now, window) == Within(ts, now, window)
  {
    if ts != [] {
      if Monus(now, ts[0]) > window {
        PopOldIsWithin(ts[1..], now, window);
      } else {
        WithinAll(ts, now, window);
      }
    }
  }

  lemma {:induction false} WithinAppend(ts: seq<nat>, t: nat, now: nat, window: nat)
    ensures Within(ts + [t], now, window)
            == Within(ts, now, window) + (if Monus(now, t) <= window then [t] else [])
  {
    if ts == [] {
      assert [t][1..] == [] && ts + [t] == [t];
    } else {
      WithinAppend(ts[1..], t, now, window);
      assert (ts + [t])[1..] == ts[1..] + [t];
    }
  }

  /** Looking through an earlier window first changes nothing for a later one. */
  lemma {:induction false} WithinLater(ts: seq<nat>, earlier: nat, now: nat, window: nat)
    requires earlier <= now
    ensures Within(Within(ts, earlier, window), now, window) == Within(ts, now, window)
  {
    if ts != [] {
      WithinLater(ts[1..], earlier, now, window);
      var rest := Within(ts[1..], earlier, window);
      assert ([ts[0]] + rest)[1..] == rest;
    }
  }

  lemma {:induction false} WithinOrdered(ts: seq<nat>, now: nat, window: nat)
    requires Ordered(ts, now)
    ensures Ordered(Within(ts, now, window), now)
    ensures forall t :: t in Within(ts, now, window) ==> t in ts
  {
    if ts != [] {
      WithinOrdered(ts[1..], now, window);
    }
  }

  /** `k` ordered timestamps fit the window exactly when the k-th last one does. */
  lemma {:induction false} WithinCount(ts: seq<nat>, now: nat, window: nat, k: nat)
    requires Ordered(ts, now) && k >= 1
    ensures |Within(ts, now, window)| >= k <==> |ts| >= k && now - ts[|ts| - k] <= window
  {
    if ts != [] {
      var rest := ts[1..];
      if Monus(now, ts[0]) <= window {
        WithinAll(ts, now, window);
      } else {
        WithinCount(rest, now, window, k);
        assert |ts| > k ==> rest[|rest| - k] == ts[|ts| - k];
      }
    }
  }

  lemma AppendOrdered(ts: seq<nat>, last: nat, now: nat)
    requires Ordered(ts, last) && last <= now
    ensures Ordered(ts, now) && Ordered(ts + [now], now)
  {
  }

  /** Popping from the previous window and appending `now` yields the window of the extended history. */
  lemma PopThenPush(ts: seq<nat>, last: nat, now: nat, window: nat)
    requires Ordered(ts, last) && last <= now
    ensures PopOld(Within(ts, last, window), now, window) + [now] == Within(ts + [now], now, window)
  {
    WithinOrdered(ts, last, window);
    AppendOrdered(Within(ts, last, window), last, now);
    PopOldIsWithin(Within(ts, last, window), now, window);
    WithinLater(ts, last, now, window);
    WithinAppend(ts, now, now, window);
  }
}
