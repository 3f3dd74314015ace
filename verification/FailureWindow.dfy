/** The reconnect failure window and the circuit it opens. */
module FailureWindow {
  import opened Collections
  import opened SlidingWindow

  datatype Config = Config(threshold: nat, windowMs: nat, circuitMs: nat)

  datatype Circuit = Circuit(failures: seq<nat>, openUntil: nat)

  datatype Event = Failure(now: nat) | Reset

  function RecordFailure(c: Config, s: Circuit, now: nat): Circuit {
    var recent := PopOld(s.failures, now, c.windowMs) + [now];
    if |recent| >= c.threshold then Circuit([], now + c.circuitMs) else s.(failures := recent)
  }

  function Step(c: Config, s: Circuit, e: Event): Circuit {
    match e
    case Failure(now) => RecordFailure(c, s, now)
    case Reset => Circuit([], 0)
  }

  function Run(c: Config, events: seq<Event>): Circuit {
    if events == [] then Circuit([], 0) else Step(c, Run(c, events[..|events| - 1]), events[|events| - 1])
  }

  /** The last `threshold` of these failures lie within one window. */
  predicate Bursts(c: Config, failures: seq<nat>) {
    && |failures| >= c.threshold >= 1
    && failures[|failures| - 1] - failures[|failures| - c.threshold] <= c.windowMs
  }

  /** Failures since the last reset, an opening of the circuit counting as a reset. */
  function SinceReset(c: Config, events: seq<Event>): seq<nat> {
    if events == [] then []
    else
      match events[|events| - 1]
      case Reset => []
      case Failure(now) =>
        var all := SinceReset(c, events[..|events| - 1]) + [now];
        if Bursts(c, all) then [] else all
  }

  function LastTime(events: seq<Event>): nat {
    if events == [] then 0
    else
      match events[|events| - 1]
      case Failure(now) => now
      case Reset => LastTime(events[..|events| - 1])
  }

  /** The clock does not run backwards. */
  ghost predicate Timed(events: seq<Event>) {
    forall i :: 0 <= i < |events| && events[i].Failure? ==> LastTime(events[..i]) <= events[i].now
  }

  lemma {:induction false} SinceResetOrdered(c: Config, events: seq<Event>)
    requires Timed(events)
    ensures Ordered(SinceReset(c, events), LastTime(events))
  {
    if events != [] {
      var front := events[..|events| - 1];
      assert forall i :: 0 <= i < |front| ==> front[..i] == events[..i];
      SinceResetOrdered(c, front);
    }
  }

  /**
   * The deque holds exactly the failures since the last reset that lie within the window of the
   * latest failure, and stays shorter than the threshold between calls.
   */
  lemma {:induction false} DequeIsRecentFailures(c: Config, events: seq<Event>)
    requires c.threshold >= 1 && Timed(events)
    ensures Run(c, events).failures == Within(SinceReset(c, events), LastTime(events), c.windowMs)
    ensures |Run(c, events).failures| < c.threshold
  {
    if events != [] {
      var front := events[..|events| - 1];
      assert forall i :: 0 <= i < |front| ==> front[..i] == events[..i];
      DequeIsRecentFailures(c, front);
      if events[|events| - 1].Failure? {
        SinceResetOrdered(c, front);
        FailureStep(c, SinceReset(c, front), LastTime(front), events[|events| - 1].now);
      }
    }
  }

  lemma FailureStep(c: Config, since: seq<nat>, last: nat, now: nat)
    requires c.threshold >= 1 && Ordered(since, last) && last <= now
    ensures
      var recent := PopOld(Within(since, last, c.windowMs), now, c.windowMs) + [now];
      && recent == Within(since + [now], now, c.windowMs)
      && (|recent| >= c.threshold <==> Bursts(c, since + [now]))
  {
    PopThenPush(since, last, now, c.windowMs);
    AppendOrdered(since, last, now);
    WithinCount(since + [now], now, c.windowMs, c.threshold);
  }

  /**
   * In every history, a failure opens the circuit exactly when the last `threshold` failures since
   * the last reset, this one included, fit in the window; the circuit then stays open `circuitMs`.
   */
  lemma OpensExactlyOnBursts(c: Config, events: seq<Event>, now: nat)
    requires c.threshold >= 1 && Timed(events) && LastTime(events) <= now
    ensures
      var before, after := Run(c, events), Run(c, events + [Failure(now)]);
      if Bursts(c, SinceReset(c, events) + [now]) then after == Circuit([], now + c.circuitMs)
      else after.openUntil == before.openUntil && after.failures != []
  {
    DequeIsRecentFailures(c, events);
    SinceResetOrdered(c, events);
    FailureStep(c, SinceReset(c, events), LastTime(events), now);
    assert (events + [Failure(now)])[..|events|] == events;
  }

  /** A reset closes the circuit and forgets every failure, whatever came before. */
  lemma ResetCloses(c: Config, events: seq<Event>)
    ensures Run(c, events + [Reset]) == Circuit([], 0) && SinceReset(c, events + [Reset]) == []
  {
    assert (events + [Reset])[..|events|] == events;
  }

  class ReconnectCircuit {
    const config: Config
    var failures: seq<nat>
    var openUntil: nat

    constructor (config: Config)
      ensures this.config == config && failures == [] && openUntil == 0
    {
      this.config := config;
      failures, openUntil := [], 0;
    }

    method Record(now: nat)
      modifies this
      ensures Circuit(failures, openUntil) == RecordFailure(config, Circuit(old(failures), old(openUntil)), now)
    {
      while failures != [] && Monus(now, failures[0]) > config.windowMs
        invariant openUntil == old(openUntil)
        invariant PopOld(failures, now, config.windowMs) == PopOld(old(failures), now, config.windowMs)
        decreases |failures|
      {
        failures := failures[1..];
      }
      failures := failures + [now];
      if |failures| >= config.threshold {
        openUntil := now + config.circuitMs;
        failures := [];
      }
    }

    method ClearCircuit()
      modifies this
      ensures failures == [] && openUntil == 0
    {
      failures, openUntil := [], 0;
    }
  }
}
