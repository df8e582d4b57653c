/** Exactly which settings bound the notifications of a time span, and how tight the bound is. */
module FloodExact {
  import opened Types
  import opened EdgeFlap
  import opened EdgeRuns
  import opened EdgeLaws
  import opened WindowLaws
  import opened AggregateLaws
  import opened FloodLaws
  import opened StutterLaws
  import opened Arithmetic

  // ---------------------------------------------------------------- which settings flood

  lemma {:induction false} ChartAtOnce(f: FlapConfig, flips: seq<Flip>)
    requires forall i :: 0 <= i < |flips| ==> flips[i].at == 0
    ensures Chart(f, 0, flips).start == 0 && Chart(f, 0, flips).first == 0
  {
    if flips != [] {
      ChartAtOnce(f, flips[..|flips| - 1]);
    }
  }

  /** The alternating run stays in its first window and counts every flip. */
  lemma {:induction false} ToggleCounts(f: FlapConfig, n: nat)
    ensures var e := Play(Some(f), Toggle(n)).edge;
            e.Some? && e.value.flipCount == n && e.value.windowStart == 0
  {
    ToggleFlips(n);
    BufferRefinesLog(f, Toggle(n));
    ChartAtOnce(f, ToggleLog(n));
  }

  /** The `m`th flip within one second is published. */
  predicate Loudly(f: Option<FlapConfig>, m: nat) {
    match f
    case None => true
    case Some(f) => m > f.suppressBelow && (f.aggregateAt <= 0 || (Prompt(f) && m % f.aggregateAt == 0))
  }

  lemma {:induction false} PlainFlipForwards(f: FlapConfig, e: Edge, ev: Event)
    requires f.aggregateAt <= 0 && e.lastValue != ev.value && e.windowStart == ev.now
    requires e.flipCount + 1 > f.suppressBelow
    ensures Step(Some(e), ev, Some(f)).action == EdgeTriggeredForward
  {
  }

  lemma {:induction false} ToggleOrdered(n: nat)
    requires n > 0
    ensures Ordered(Toggle(n - 1) + [Event(Side(n), 0, "")])
  {
  }

  lemma {:induction false} LoudFlipPublishes(f: Option<FlapConfig>, m: nat)
    requires m > 0 && Loudly(f, m)
    ensures Publishes(Step(Play(f, Toggle(m - 1)).edge, Event(Side(m), 0, ""), f).action)
  {
    var evs, ev := Toggle(m - 1), Event(Side(m), 0, "");
    SidesDiffer(m - 1);
    LastValueTracked(f, evs);
    var e := Play(f, evs).edge.value;
    assert e.lastValue == Side(m - 1);
    if f.Some? {
      ToggleCounts(f.value, m - 1);
      if f.value.aggregateAt <= 0 {
        PlainFlipForwards(f.value, e, ev);
      } else {
        ToggleOrdered(m);
        EmissionLaw(f.value, evs, ev);
      }
    }
  }

  lemma {:induction false} TogglePublishes(f: Option<FlapConfig>, m: nat)
    requires m > 0
    ensures Published(Play(f, Toggle(m)).actions) == Published(Play(f, Toggle(m - 1)).actions)
              + (if Publishes(Step(Play(f, Toggle(m - 1)).edge, Event(Side(m), 0, ""), f).action) then 1 else 0)
  {
    var ev := Event(Side(m), 0, "");
    ToggleSnoc(m);
    PlayExtend(f, Toggle(m - 1), ev);
    PublishedSnoc(Play(f, Toggle(m - 1)).actions, Step(Play(f, Toggle(m - 1)).edge, ev, f).action);
  }

  lemma {:induction false} TogglePublishesNoLess(f: Option<FlapConfig>, m: nat)
    requires m > 0
    ensures Published(Play(f, Toggle(m - 1)).actions) <= Published(Play(f, Toggle(m)).actions)
  {
    TogglePublishes(f, m);
  }

  lemma {:induction false} TogglePublishesMore(f: Option<FlapConfig>, n: nat, m: nat)
    requires n <= m
    ensures Published(Play(f, Toggle(n)).actions) <= Published(Play(f, Toggle(m)).actions)
  {
    if n < m {
      TogglePublishesMore(f, n, m - 1);
      TogglePublishesNoLess(f, m);
    }
  }

  lemma {:induction false} NextLoud(f: Option<FlapConfig>, n: nat) returns (m: nat)
    requires f.Some? ==> !Curbed(f.value)
    ensures m > n && Loudly(f, m)
  {
    if f.None? {
      m := n + 1;
    } else {
      var s := if f.value.suppressBelow > n then f.value.suppressBelow else n;
      if f.value.aggregateAt <= 0 {
        m := s + 1;
      } else {
        FirstMultipleAbove(f.value.aggregateAt, s, 0);
        m := f.value.aggregateAt * (s / f.value.aggregateAt + 1);
      }
    }
  }

  /** Without curbing settings, one second is enough for any number of publications. */
  lemma {:induction false} OneSecondFloods(f: Option<FlapConfig>, k: nat) returns (n: nat)
    requires f.Some? ==> !Curbed(f.value)
    ensures Within(Toggle(n), 0, 0) && Published(Play(f, Toggle(n)).actions) >= k
  {
    n := 0;
    if k > 0 {
      var m := OneSecondFloods(f, k - 1);
      n := NextLoud(f, m);
      TogglePublishesMore(f, m, n - 1);
      LoudFlipPublishes(f, n);
      TogglePublishes(f, n);
    }
  }

  ghost predicate BoundedBy(f: Option<FlapConfig>, lo: int, hi: int, bound: nat) {
    forall evs: seq<Event> :: Within(evs, lo, hi) ==> Published(Play(f, evs).actions) <= bound
  }

  /** Some number bounds the publications of every run with clock readings from `lo` to `hi`. */
  ghost predicate Bounded(f: Option<FlapConfig>, lo: int, hi: int) {
    exists bound: nat :: BoundedBy(f, lo, hi, bound)
  }

  /**
   * The publications of every time span are bounded independently of the number of events if and only
   * if aggregation is on and either cools down or has a threshold it can never meet.
   */
  lemma {:induction false} FloodBoundedExactly(f: Option<FlapConfig>)
    ensures (forall lo, hi :: lo <= hi ==> Bounded(f, lo, hi)) <==> f.Some? && Curbed(f.value)
  {
    if f.Some? && Curbed(f.value) {
      forall lo, hi | lo <= hi
        ensures Bounded(f, lo, hi)
      {
        CapsNonNegative(f.value, hi - lo);
        forall evs: seq<Event> | Within(evs, lo, hi)
          ensures Published(Play(f, evs).actions) <= FloodCap(f.value, hi - lo)
        {
          FloodBound(f.value, evs, lo, hi);
        }
        assert BoundedBy(f, lo, hi, FloodCap(f.value, hi - lo));
      }
    } else {
      forall bound: nat
        ensures !BoundedBy(f, 0, 0, bound)
      {
        var n := OneSecondFloods(f, bound + 1);
      }
      assert !Bounded(f, 0, 0);
    }
  }

  // ---------------------------------------------------------------- the bound is reached

  /** One flip within a window of settings that suppress nothing, spelled out. */
  lemma {:induction false} FlipInWindow(f: FlapConfig, e: Edge, ev: Event)
    requires f.aggregateAt > 0 && f.suppressBelow <= 0 && e.flipCount >= 0 && e.lastValue != ev.value
    requires !OpensWindow(f, e, ev.now)
    ensures var r := Step(Some(e), ev, Some(f));
            var held := Min(|e.recent| + 1, HARD_LIMIT_RECENT_ITEMS);
            var due := (e.flipCount + 1) % f.aggregateAt == 0 && ev.now >= e.aggUntilTS && held >= f.aggregateAt;
            && r.next.flipCount == e.flipCount + 1 && r.next.windowStart == e.windowStart
            && r.action == (if due then AggregateSent else SuppressFlapping)
            && r.next.aggUntilTS == (if due then ev.now + f.aggregateCooldownSeconds else e.aggUntilTS)
            && |r.next.recent| == (if due then 0 else held)
  {
  }

  lemma {:induction false} FlipOpensWindow(f: FlapConfig, e: Edge, ev: Event)
    requires f.aggregateAt > 0 && f.suppressBelow <= 0 && e.lastValue != ev.value
    requires OpensWindow(f, e, ev.now)
    ensures var r := Step(Some(e), ev, Some(f));
            && r.next.flipCount == 1 && r.next.windowStart == ev.now
            && r.action == EdgeTriggeredForward && r.next.aggUntilTS == e.aggUntilTS
  {
  }

  /** The current window is the last that fits in `t` seconds, and every window so far was forwarded. */
  predicate WindowsSpent(f: FlapConfig, tr: Trace, t: nat) {
    && tr.edge.Some? && tr.edge.value.flipCount >= 0
    && Count(tr.actions, EdgeTriggeredForward) == ForwardCap(f, t)
    && (f.windowSeconds > 0 ==> tr.edge.value.windowStart == t - t % (f.windowSeconds + 1))
  }

  /** All aggregates that the cooldown allows up to second `t` have been sent. */
  predicate AggregatesSpent(f: FlapConfig, tr: Trace, t: nat)
    requires Curbed(f)
  {
    && tr.edge.Some?
    && Count(tr.actions, AggregateSent) == AggregateCap(f, t)
    && (f.aggregateAt <= HARD_LIMIT_RECENT_ITEMS ==>
          tr.edge.value.aggUntilTS == t - t % f.aggregateCooldownSeconds + f.aggregateCooldownSeconds)
  }

  /** The last of them is still missing, `r` flips into second `t`, and its turn comes within the second. */
  predicate AggregateWaits(f: FlapConfig, tr: Trace, t: nat, r: nat)
    requires Curbed(f)
  {
    && f.aggregateAt <= HARD_LIMIT_RECENT_ITEMS
    && tr.edge.Some?
    && Count(tr.actions, AggregateSent) == AggregateCap(f, t) - 1
    && t % f.aggregateCooldownSeconds == 0 && tr.edge.value.aggUntilTS <= t
    && |tr.edge.value.recent| >= Min(r, f.aggregateAt)
    && (r >= f.aggregateAt ==> tr.edge.value.flipCount % f.aggregateAt >= r - f.aggregateAt + 1)
  }

  predicate Storming(f: FlapConfig, tr: Trace, t: nat, r: nat)
    requires Curbed(f)
  {
    WindowsSpent(f, tr, t) && (AggregatesSpent(f, tr, t) || AggregateWaits(f, tr, t, r))
  }

  /** Within a second no window opens. */
  lemma {:induction false} WindowStays(f: FlapConfig, tr: Trace, t: nat, e: Edge)
    requires WindowsSpent(f, tr, t) && e == tr.edge.value
    ensures !OpensWindow(f, e, t)
  {
  }

  lemma {:induction false} StaysSpent(f: FlapConfig, tr: Trace, ev: Event, t: nat)
    requires Curbed(f) && AggregatesSpent(f, tr, t) && ev.now == t
    ensures AggregatesSpent(f, Extend(Some(f), tr, ev), t)
  {
    CountSnoc(tr.actions, Step(tr.edge, ev, Some(f)).action, AggregateSent);
    if f.aggregateAt > HARD_LIMIT_RECENT_ITEMS {
      StepUnreachable(f, tr.edge.value, ev);
    } else {
      StepDeadline(f, tr.edge.value, ev);
    }
  }

  lemma {:induction false} WaitGoesOn(f: FlapConfig, tr: Trace, ev: Event, t: nat, r: nat)
    requires Curbed(f) && f.suppressBelow <= 0 && WindowsSpent(f, tr, t) && AggregateWaits(f, tr, t, r)
    requires ev.now == t && ev.value != tr.edge.value.lastValue
    ensures var tr' := Extend(Some(f), tr, ev);
            AggregatesSpent(f, tr', t) || AggregateWaits(f, tr', t, r + 1)
  {
    var e := tr.edge.value;
    WindowStays(f, tr, t, e);
    FlipInWindow(f, e, ev);
    CountSnoc(tr.actions, Step(Some(e), ev, Some(f)).action, AggregateSent);
    Succ(e.flipCount, f.aggregateAt);
  }

  lemma {:induction false} WindowGoesOn(f: FlapConfig, tr: Trace, ev: Event, t: nat)
    requires Curbed(f) && f.suppressBelow <= 0 && WindowsSpent(f, tr, t)
    requires ev.now == t && ev.value != tr.edge.value.lastValue
    ensures WindowsSpent(f, Extend(Some(f), tr, ev), t)
  {
    var e := tr.edge.value;
    WindowStays(f, tr, t, e);
    FlipInWindow(f, e, ev);
    CountSnoc(tr.actions, Step(Some(e), ev, Some(f)).action, EdgeTriggeredForward);
  }

  lemma {:induction false} SameSecond(f: FlapConfig, tr: Trace, ev: Event, t: nat, r: nat)
    requires Curbed(f) && f.suppressBelow <= 0 && Storming(f, tr, t, r)
    requires ev.now == t && ev.value != tr.edge.value.lastValue
    ensures Storming(f, Extend(Some(f), tr, ev), t, r + 1)
  {
    WindowGoesOn(f, tr, ev, t);
    if AggregatesSpent(f, tr, t) {
      StaysSpent(f, tr, ev, t);
    } else {
      WaitGoesOn(f, tr, ev, t, r);
    }
  }

  /** After twice the threshold number of flips, the second has had its aggregate. */
  lemma {:induction false} SecondSpent(f: FlapConfig, tr: Trace, t: nat)
    requires Curbed(f) && Storming(f, tr, t, 2 * f.aggregateAt - 1)
    ensures AggregatesSpent(f, tr, t)
  {
  }

  /** The first flip of a second opens a window exactly when a whole window has passed. */
  lemma {:induction false} NextWindow(f: FlapConfig, tr: Trace, ev: Event, t: nat)
    requires Curbed(f) && f.suppressBelow <= 0 && WindowsSpent(f, tr, t)
    requires ev.now == t + 1 && ev.value != tr.edge.value.lastValue
    ensures WindowsSpent(f, Extend(Some(f), tr, ev), t + 1)
    ensures OpensWindow(f, tr.edge.value, t + 1) <==>
              f.windowSeconds > 0 && (t + 1) % (f.windowSeconds + 1) == 0
  {
    var e := tr.edge.value;
    CountSnoc(tr.actions, Step(Some(e), ev, Some(f)).action, EdgeTriggeredForward);
    if f.windowSeconds > 0 {
      Succ(t, f.windowSeconds + 1);
    }
    if OpensWindow(f, e, ev.now) {
      FlipOpensWindow(f, e, ev);
    } else {
      FlipInWindow(f, e, ev);
    }
  }

  /** The deadline after second `t` is the next second exactly when a whole cooldown has passed. */
  lemma {:induction false} NextDeadline(f: FlapConfig, t: nat)
    requires Curbed(f) && f.aggregateAt <= HARD_LIMIT_RECENT_ITEMS
    ensures var cd := f.aggregateCooldownSeconds;
            var until := t - t % cd + cd;
            if (t + 1) % cd == 0 then until == t + 1 && AggregateCap(f, t + 1) == AggregateCap(f, t) + 1
            else until > t + 1 && until == t + 1 - (t + 1) % cd + cd && AggregateCap(f, t + 1) == AggregateCap(f, t)
  {
    Succ(t, f.aggregateCooldownSeconds);
  }

  lemma {:induction false} CooldownAfter(f: FlapConfig, tr: Trace, tr': Trace, t: nat, sent: bool)
    requires Curbed(f) && f.aggregateAt <= HARD_LIMIT_RECENT_ITEMS && AggregatesSpent(f, tr, t) && tr'.edge.Some?
    requires Count(tr'.actions, AggregateSent) == Count(tr.actions, AggregateSent) + (if sent then 1 else 0)
    requires sent ==> t + 1 >= tr.edge.value.aggUntilTS
    requires tr'.edge.value.aggUntilTS
          == if sent then t + 1 + f.aggregateCooldownSeconds else tr.edge.value.aggUntilTS
    ensures AggregatesSpent(f, tr', t + 1) || AggregateWaits(f, tr', t + 1, 0)
  {
    NextDeadline(f, t);
  }

  lemma {:induction false} NeverDue(f: FlapConfig, tr: Trace, ev: Event, t: nat)
    requires f.aggregateAt > HARD_LIMIT_RECENT_ITEMS && AggregatesSpent(f, tr, t)
    ensures AggregatesSpent(f, Extend(Some(f), tr, ev), t + 1)
  {
    CountSnoc(tr.actions, Step(tr.edge, ev, Some(f)).action, AggregateSent);
    StepUnreachable(f, tr.edge.value, ev);
  }

  lemma {:induction false} MaybeDue(f: FlapConfig, tr: Trace, ev: Event, t: nat)
    requires Curbed(f) && f.aggregateAt <= HARD_LIMIT_RECENT_ITEMS && AggregatesSpent(f, tr, t) && ev.now == t + 1
    ensures var tr' := Extend(Some(f), tr, ev);
            AggregatesSpent(f, tr', t + 1) || AggregateWaits(f, tr', t + 1, 0)
  {
    var action := Step(tr.edge, ev, Some(f)).action;
    CountSnoc(tr.actions, action, AggregateSent);
    StepDeadline(f, tr.edge.value, ev);
    CooldownAfter(f, tr, Extend(Some(f), tr, ev), t, action == AggregateSent);
  }

  lemma {:induction false} NextCooldown(f: FlapConfig, tr: Trace, ev: Event, t: nat)
    requires Curbed(f) && AggregatesSpent(f, tr, t) && ev.now == t + 1
    ensures var tr' := Extend(Some(f), tr, ev);
            AggregatesSpent(f, tr', t + 1) || AggregateWaits(f, tr', t + 1, 0)
  {
    if f.aggregateAt > HARD_LIMIT_RECENT_ITEMS {
      NeverDue(f, tr, ev, t);
    } else {
      MaybeDue(f, tr, ev, t);
    }
  }

  lemma {:induction false} NextSecond(f: FlapConfig, tr: Trace, ev: Event, t: nat)
    requires Curbed(f) && f.suppressBelow <= 0 && Storming(f, tr, t, 2 * f.aggregateAt - 1)
    requires ev.now == t + 1 && ev.value != tr.edge.value.lastValue
    ensures Storming(f, Extend(Some(f), tr, ev), t + 1, 0)
  {
    SecondSpent(f, tr, t);
    NextWindow(f, tr, ev, t);
    NextCooldown(f, tr, ev, t);
  }

  /** The second of the `i`th event when each second has `p`. */
  function Second(p: nat, i: nat): nat
    requires p > 0
  {
    FactorBound(0, p, i);
    i / p
  }

  /** Twice the threshold number of alternating events in every second from the epoch on. */
  function Storm(f: FlapConfig, n: nat): seq<Event>
    requires f.aggregateAt > 0
  {
    seq(n, i requires 0 <= i => Event(Side(i), Second(2 * f.aggregateAt, i), ""))
  }

  lemma {:induction false} StormSnoc(f: FlapConfig, i: nat)
    requires f.aggregateAt > 0
    ensures Storm(f, i + 1) == Storm(f, i) + [Event(Side(i), Second(2 * f.aggregateAt, i), "")]
    ensures i > 0 ==> Storm(f, i)[|Storm(f, i)| - 1].value == Side(i - 1)
  {
  }

  lemma {:induction false} CapsAtZero(f: FlapConfig)
    requires Curbed(f)
    ensures ForwardCap(f, 0) == 1
    ensures f.windowSeconds > 0 ==> 0 % (f.windowSeconds + 1) == 0
    ensures f.aggregateAt > HARD_LIMIT_RECENT_ITEMS ==> AggregateCap(f, 0) == 0
    ensures f.aggregateAt <= HARD_LIMIT_RECENT_ITEMS ==>
              AggregateCap(f, 0) == 1 && 0 % f.aggregateCooldownSeconds == 0
  {
    if f.windowSeconds > 0 {
      DivModUnique(0, f.windowSeconds + 1, 0, 0);
    }
    if f.aggregateAt <= HARD_LIMIT_RECENT_ITEMS {
      DivModUnique(0, f.aggregateCooldownSeconds, 0, 0);
    }
  }

  lemma {:induction false} FirstStorms(f: FlapConfig, tr: Trace)
    requires Curbed(f) && tr.edge.Some? && tr.edge.value.flipCount == 0
    requires tr.edge.value.windowStart == 0 && tr.edge.value.aggUntilTS == 0
    requires Count(tr.actions, EdgeTriggeredForward) == 1 && Count(tr.actions, AggregateSent) == 0
    ensures Storming(f, tr, 0, 0)
  {
    CapsAtZero(f);
  }

  lemma {:induction false} StormBegins(f: FlapConfig)
    requires Curbed(f)
    ensures Storming(f, Play(Some(f), Storm(f, 1)), 0, 0)
  {
    var ev := Event(Side(0), 0, "");
    StormSnoc(f, 0);
    DivModUnique(0, 2 * f.aggregateAt, 0, 0);
    PlayExtend(Some(f), [], ev);
    CountSnoc([], EdgeTriggeredForward, EdgeTriggeredForward);
    CountSnoc([], EdgeTriggeredForward, AggregateSent);
    FirstStorms(f, Play(Some(f), Storm(f, 1)));
  }

  lemma {:induction false} StormStep(f: FlapConfig, tr: Trace, ev: Event, i: nat, p: nat)
    requires Curbed(f) && f.suppressBelow <= 0 && p == 2 * f.aggregateAt && i > 0
    requires Storming(f, tr, Second(p, i - 1), (i - 1) % p)
    requires ev.now == Second(p, i) && ev.value != tr.edge.value.lastValue
    ensures Storming(f, Extend(Some(f), tr, ev), Second(p, i), i % p)
  {
    Succ(i - 1, p);
    if (i - 1) % p == p - 1 {
      NextSecond(f, tr, ev, Second(p, i - 1));
    } else {
      SameSecond(f, tr, ev, Second(p, i - 1), (i - 1) % p);
    }
  }

  lemma {:induction false} StormGoesOn(f: FlapConfig, i: nat)
    requires Curbed(f) && f.suppressBelow <= 0
    ensures Storming(f, Play(Some(f), Storm(f, i + 1)), Second(2 * f.aggregateAt, i), i % (2 * f.aggregateAt))
  {
    var p := 2 * f.aggregateAt;
    if i == 0 {
      DivModUnique(0, p, 0, 0);
      StormBegins(f);
    } else {
      var evs, ev := Storm(f, i), Event(Side(i), Second(p, i), "");
      StormSnoc(f, i);
      StormGoesOn(f, i - 1);
      PlayExtend(Some(f), evs, ev);
      SidesDiffer(i - 1);
      LastValueTracked(Some(f), evs);
      StormStep(f, Play(Some(f), evs), ev, i, p);
    }
  }

  /**
   * The bound is reached: for all curbing settings that suppress nothing and every span, some run with
   * clock readings from 0 to `span` publishes exactly as often as the bound allows.
   */
  lemma {:induction false} FloodBoundReached(f: FlapConfig, span: nat) returns (evs: seq<Event>)
    requires Curbed(f) && f.suppressBelow <= 0
    ensures Within(evs, 0, span)
    ensures Published(Play(Some(f), evs).actions) == FloodCap(f, span)
  {
    var p := 2 * f.aggregateAt;
    var i := p * span + p - 1;
    DivModUnique(i, p, span, p - 1);
    evs := Storm(f, i + 1);
    StormGoesOn(f, i);
    SecondSpent(f, Play(Some(f), evs), span);
    forall k | 0 <= k < |evs|
      ensures 0 <= evs[k].now <= span
    {
      StormWithin(p, k, span);
    }
  }

  lemma {:induction false} StormWithin(p: nat, k: nat, span: nat)
    requires p > 0 && k < p * span + p
    ensures 0 <= k / p <= span
  {
    FactorBound(0, p, k);
    if k / p > span {
      MulNonNegative(k / p - (span + 1), p);
      assert false;
    }
  }
}
