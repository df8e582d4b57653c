/** How many notifications a key can cause, whatever its events. */
module FloodLaws {
  import opened Types
  import opened EdgeFlap
  import opened EdgeRuns
  import opened EdgeLaws
  import opened WindowLaws
  import opened Arithmetic

  ghost predicate Within(evs: seq<Event>, lo: int, hi: int) {
    forall i :: 0 <= i < |evs| ==> lo <= evs[i].now <= hi
  }

  /** Aggregation replaces forwards, and aggregates cool down or cannot be sent at all. */
  predicate Curbed(f: FlapConfig) {
    f.aggregateAt > 0 && (f.aggregateAt > HARD_LIMIT_RECENT_ITEMS || f.aggregateCooldownSeconds > 0)
  }

  /** The most edge forwards within `span` seconds: the first observation and one per window. */
  function ForwardCap(f: FlapConfig, span: int): int {
    if f.windowSeconds > 0 then 1 + span / (f.windowSeconds + 1) else 1
  }

  /** The most aggregates within `span` seconds: one at once and one per cooldown. */
  function AggregateCap(f: FlapConfig, span: int): int
    requires Curbed(f)
  {
    if f.aggregateAt > HARD_LIMIT_RECENT_ITEMS then 0 else 1 + span / f.aggregateCooldownSeconds
  }

  function FloodCap(f: FlapConfig, span: int): int
    requires Curbed(f)
  {
    ForwardCap(f, span) + AggregateCap(f, span)
  }

  // ---------------------------------------------------------------- cooldown

  lemma {:induction false} ActionsPrefix(f: Option<FlapConfig>, evs: seq<Event>, k: nat)
    requires k <= |evs|
    ensures |Play(f, evs).actions| == |evs|
    ensures Play(f, evs[..k]).actions == Play(f, evs).actions[..k]
    decreases |evs|
  {
    if evs != [] {
      var n := |evs| - 1;
      ActionsPrefix(f, evs[..n], if k > n then n else k);
      if k <= n {
        assert evs[..n][..k] == evs[..k];
      } else {
        assert evs[..k] == evs;
      }
    }
  }

  lemma {:induction false} PlayAt(f: Option<FlapConfig>, evs: seq<Event>, j: nat)
    requires j < |evs|
    ensures Play(f, evs[..j + 1]).actions
         == Play(f, evs[..j]).actions + [Step(Play(f, evs[..j]).edge, evs[j], f).action]
  {
    assert evs[..j + 1] == evs[..j] + [evs[j]];
    PlayExtend(f, evs[..j], evs[j]);
  }

  lemma {:induction false} TakeSnoc<T>(all: seq<T>, init: seq<T>, a: T, j: nat)
    requires j < |all| && init == all[..j] && all[..j + 1] == init + [a]
    ensures all[j] == a
  {
    assert all[..j + 1][j] == a;
  }

  /** The answer at `j` is that of the step from the state before it. */
  lemma {:induction false} ActionAt(f: Option<FlapConfig>, evs: seq<Event>, j: nat)
    requires j < |evs|
    ensures |Play(f, evs).actions| == |evs| && |Play(f, evs[..j]).actions| == j
    ensures Play(f, evs).actions[j] == Step(Play(f, evs[..j]).edge, evs[j], f).action
    ensures Play(f, evs[..j]).actions == Play(f, evs).actions[..j]
  {
    ActionsPrefix(f, evs, j);
    ActionsPrefix(f, evs, j + 1);
    PlayAt(f, evs, j);
    TakeSnoc(Play(f, evs).actions, Play(f, evs[..j]).actions, Step(Play(f, evs[..j]).edge, evs[j], f).action, j);
  }

  /** An aggregate waits for the deadline and sets the next one; nothing else moves it. */
  lemma {:induction false} StepDeadline(f: FlapConfig, e: Edge, ev: Event)
    ensures var r := Step(Some(e), ev, Some(f));
            && (r.action == AggregateSent ==>
                  ev.now >= e.aggUntilTS && r.next.aggUntilTS == ev.now + f.aggregateCooldownSeconds)
            && (r.action != AggregateSent ==> r.next.aggUntilTS == e.aggUntilTS)
  {
  }

  /** No step brings the deadline forward. */
  lemma {:induction false} DeadlineKept(f: FlapConfig, e: Edge, ev: Event, x: int)
    requires f.aggregateCooldownSeconds >= 0 && e.aggUntilTS >= x
    ensures Step(Some(e), ev, Some(f)).next.aggUntilTS >= x
  {
    StepDeadline(f, e, ev);
  }

  lemma {:induction false} FirstSendsNone(ev: Event, f: Option<FlapConfig>)
    ensures Step(None, ev, f).action != AggregateSent
  {
  }

  /** After an aggregate, the deadline stays at least a cooldown later than it. */
  lemma {:induction false} CooldownHolds(f: FlapConfig, evs: seq<Event>, i: nat)
    requires f.aggregateCooldownSeconds >= 0 && i < |evs| == |Play(Some(f), evs).actions|
    requires Play(Some(f), evs).actions[i] == AggregateSent
    ensures Play(Some(f), evs).edge.Some?
    ensures Play(Some(f), evs).edge.value.aggUntilTS >= evs[i].now + f.aggregateCooldownSeconds
  {
    var n := |evs| - 1;
    var t := Play(Some(f), evs[..n]);
    ActionAt(Some(f), evs, n);
    assert Play(Some(f), evs).edge == Some(Step(t.edge, evs[n], Some(f)).next);
    if i < n {
      CooldownHolds(f, evs[..n], i);
      DeadlineKept(f, t.edge.value, evs[n], evs[i].now + f.aggregateCooldownSeconds);
    } else if t.edge.None? {
      FirstSendsNone(evs[n], Some(f));
    } else {
      StepDeadline(f, t.edge.value, evs[n]);
    }
  }

  /** Any two aggregates of a run are at least the cooldown apart, also across windows and for any clock. */
  lemma {:induction false} AggregatesSpaced(f: FlapConfig, evs: seq<Event>, i: nat, j: nat)
    requires f.aggregateCooldownSeconds >= 0 && i < j < |evs| == |Play(Some(f), evs).actions|
    requires Play(Some(f), evs).actions[i] == Play(Some(f), evs).actions[j] == AggregateSent
    ensures evs[j].now >= evs[i].now + f.aggregateCooldownSeconds
  {
    ActionAt(Some(f), evs, j);
    CooldownHolds(f, evs[..j], i);
    StepDeadline(f, Play(Some(f), evs[..j]).edge.value, evs[j]);
  }

  // ---------------------------------------------------------------- the bound

  /** Every forward but the first moved the window start by more than a window. */
  predicate Windowed(f: FlapConfig, t: Trace, lo: int, hi: int) {
    var forwards := Count(t.actions, EdgeTriggeredForward);
    && t.edge.Some?
    && forwards >= 1
    && (f.windowSeconds <= 0 ==> forwards == 1)
    && (f.windowSeconds > 0 ==>
          lo + (forwards - 1) * (f.windowSeconds + 1) <= t.edge.value.windowStart <= hi)
  }

  /** Every aggregate moved the deadline by a cooldown. */
  predicate Cooled(f: FlapConfig, t: Trace, lo: int, hi: int) {
    var aggregates := Count(t.actions, AggregateSent);
    && t.edge.Some?
    && (f.aggregateAt > HARD_LIMIT_RECENT_ITEMS ==> aggregates == 0)
    && (aggregates > 0 ==>
          lo + aggregates * f.aggregateCooldownSeconds <= t.edge.value.aggUntilTS <= hi + f.aggregateCooldownSeconds)
  }

  /** What the state remembers about the notifications so far. */
  predicate Throttled(f: FlapConfig, t: Trace, lo: int, hi: int) {
    Windowed(f, t, lo, hi) && Cooled(f, t, lo, hi)
  }

  /** A forward needs a new window, which starts more than a window after the old one. */
  lemma {:induction false} StepWindow(f: FlapConfig, e: Edge, ev: Event)
    requires f.aggregateAt > 0
    ensures var r := Step(Some(e), ev, Some(f));
            && (r.next.windowStart == e.windowStart
                || (r.next.windowStart == ev.now && ev.now >= e.windowStart + f.windowSeconds + 1))
            && (r.action == EdgeTriggeredForward ==>
                  f.windowSeconds > 0 && r.next.windowStart >= e.windowStart + f.windowSeconds + 1)
  {
  }

  /** A threshold above the buffer size is never met. */
  lemma {:induction false} StepUnreachable(f: FlapConfig, e: Edge, ev: Event)
    requires f.aggregateAt > HARD_LIMIT_RECENT_ITEMS
    ensures Step(Some(e), ev, Some(f)).action != AggregateSent
  {
  }

  lemma {:induction false} OneMore(k: int, w: int, lo: int, x: int, y: int)
    requires lo + k * w <= x && x + w <= y
    ensures lo + (k + 1) * w <= y
  {
  }

  lemma {:induction false} StaysWindowed(f: FlapConfig, t: Trace, ev: Event, lo: int, hi: int)
    requires Curbed(f) && lo <= ev.now <= hi && Windowed(f, t, lo, hi)
    ensures Windowed(f, Extend(Some(f), t, ev), lo, hi)
  {
    var r := Step(t.edge, ev, Some(f));
    StepWindow(f, t.edge.value, ev);
    CountSnoc(t.actions, r.action, EdgeTriggeredForward);
    if r.action == EdgeTriggeredForward {
      OneMore(Count(t.actions, EdgeTriggeredForward) - 1, f.windowSeconds + 1, lo,
              t.edge.value.windowStart, r.next.windowStart);
    }
  }

  lemma {:induction false} StaysCooled(f: FlapConfig, t: Trace, ev: Event, lo: int, hi: int)
    requires Curbed(f) && lo <= ev.now <= hi && Cooled(f, t, lo, hi)
    ensures Cooled(f, Extend(Some(f), t, ev), lo, hi)
  {
    var r := Step(t.edge, ev, Some(f));
    var aggregates := Count(t.actions, AggregateSent);
    CountSnoc(t.actions, r.action, AggregateSent);
    if f.aggregateAt > HARD_LIMIT_RECENT_ITEMS {
      StepUnreachable(f, t.edge.value, ev);
    } else {
      StepDeadline(f, t.edge.value, ev);
      if r.action == AggregateSent {
        OneMore(aggregates, f.aggregateCooldownSeconds, lo,
                if aggregates == 0 then lo else t.edge.value.aggUntilTS, r.next.aggUntilTS);
      }
    }
  }

  lemma {:induction false} FirstThrottled(f: FlapConfig, ev: Event, lo: int, hi: int)
    requires lo <= ev.now <= hi
    ensures Throttled(f, Extend(Some(f), Trace(None, [], []), ev), lo, hi)
  {
    CountSnoc([], EdgeTriggeredForward, EdgeTriggeredForward);
    CountSnoc([], EdgeTriggeredForward, AggregateSent);
    assert (1 - 1) * (f.windowSeconds + 1) == 0;
  }

  lemma {:induction false} AlwaysThrottled(f: FlapConfig, evs: seq<Event>, lo: int, hi: int)
    requires Curbed(f) && evs != [] && Within(evs, lo, hi)
    ensures Throttled(f, Play(Some(f), evs), lo, hi)
  {
    var n := |evs| - 1;
    if n == 0 {
      assert Play(Some(f), evs[..0]) == Trace(None, [], []);
      FirstThrottled(f, evs[0], lo, hi);
    } else {
      var t := Play(Some(f), evs[..n]);
      AlwaysThrottled(f, evs[..n], lo, hi);
      StaysWindowed(f, t, evs[n], lo, hi);
      StaysCooled(f, t, evs[n], lo, hi);
    }
  }

  lemma {:induction false} ForwardsBounded(f: FlapConfig, t: Trace, lo: int, hi: int)
    requires lo <= hi && Windowed(f, t, lo, hi)
    ensures Count(t.actions, EdgeTriggeredForward) <= ForwardCap(f, hi - lo)
  {
    if f.windowSeconds > 0 {
      FactorBound(Count(t.actions, EdgeTriggeredForward) - 1, f.windowSeconds + 1, hi - lo);
    }
  }

  lemma {:induction false} AggregatesBounded(f: FlapConfig, t: Trace, lo: int, hi: int)
    requires Curbed(f) && lo <= hi && Cooled(f, t, lo, hi)
    ensures Count(t.actions, AggregateSent) <= AggregateCap(f, hi - lo)
  {
    if f.aggregateAt <= HARD_LIMIT_RECENT_ITEMS {
      var aggregates := Count(t.actions, AggregateSent);
      FactorBound(if aggregates > 0 then aggregates - 1 else 0, f.aggregateCooldownSeconds, hi - lo);
    }
  }

  lemma {:induction false} CapsNonNegative(f: FlapConfig, span: int)
    requires Curbed(f) && span >= 0
    ensures ForwardCap(f, span) >= 1 && AggregateCap(f, span) >= 0
  {
    if f.windowSeconds > 0 {
      FactorBound(0, f.windowSeconds + 1, span);
    }
    if f.aggregateAt <= HARD_LIMIT_RECENT_ITEMS {
      FactorBound(0, f.aggregateCooldownSeconds, span);
    }
  }

  /**
   * Under curbing settings, a run whose clock readings span `hi - lo` seconds, in any order, publishes a
   * number of times bounded by the span alone, not by the number of events.
   */
  lemma {:induction false} FloodBound(f: FlapConfig, evs: seq<Event>, lo: int, hi: int)
    requires Curbed(f) && lo <= hi && Within(evs, lo, hi)
    ensures Published(Play(Some(f), evs).actions) <= FloodCap(f, hi - lo)
  {
    CapsNonNegative(f, hi - lo);
    if evs != [] {
      AlwaysThrottled(f, evs, lo, hi);
      ForwardsBounded(f, Play(Some(f), evs), lo, hi);
      AggregatesBounded(f, Play(Some(f), evs), lo, hi);
    }
  }

  /** For a configuration that passed validation, edge forwards alone are at most one per eleven seconds. */
  lemma {:induction false} ValidatedFloodBound(c: ClientConfig, evs: seq<Event>, lo: int, hi: int)
    requires Validate(c) && c.flapping.Some? && Curbed(c.flapping.value)
    requires lo <= hi && Within(evs, lo, hi)
    ensures Published(Play(c.flapping, evs).actions)
            <= 1 + (hi - lo) / 11 + AggregateCap(c.flapping.value, hi - lo)
  {
    FloodBound(c.flapping.value, evs, lo, hi);
    QuotientShrinks(hi - lo, MIN_WINDOW_SIZE_SECONDS + 1, c.flapping.value.windowSeconds + 1);
  }
}
