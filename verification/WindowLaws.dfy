/** What the tumbling window counts and when an aggregate is sent. */
module WindowLaws {
  import opened Types
  import opened EdgeFlap
  import opened EdgeRuns
  import opened EdgeLaws
  import opened Arithmetic

  /** Clock readings do not go backwards along the run. */
  ghost predicate Ordered(evs: seq<Event>) {
    forall i, j :: 0 <= i <= j < |evs| ==> evs[i].now <= evs[j].now
  }

  ghost predicate InOrder(flips: seq<Flip>) {
    forall i, j :: 0 <= i <= j < |flips| ==> flips[i].at <= flips[j].at
  }

  ghost predicate AllFrom(t0: int, flips: seq<Flip>) {
    forall i :: 0 <= i < |flips| ==> t0 <= flips[i].at
  }

  lemma {:induction false} FlipsOrdered(evs: seq<Event>)
    requires evs != [] && Ordered(evs)
    ensures InOrder(Flips(evs)) && AllFrom(evs[0].now, Flips(evs))
    ensures forall i :: 0 <= i < |Flips(evs)| ==> Flips(evs)[i].at <= evs[|evs| - 1].now
  {
    var n := |evs| - 1;
    if n > 0 {
      FlipsOrdered(evs[..n]);
      assert evs[n - 1].now <= evs[n].now;
    }
  }

  // ---------------------------------------------------------------- window accounting

  /** The flips of the log no earlier than `t`. */
  function CountSince(flips: seq<Flip>, t: int): nat {
    if flips == [] then 0
    else CountSince(flips[..|flips| - 1], t) + (if flips[|flips| - 1].at >= t then 1 else 0)
  }

  lemma {:induction false} CountSinceSplit(flips: seq<Flip>, t: int, k: nat)
    requires k <= |flips|
    requires forall i :: 0 <= i < k ==> flips[i].at < t
    requires forall i :: k <= i < |flips| ==> flips[i].at >= t
    ensures CountSince(flips, t) == |flips| - k
  {
    if flips != [] {
      CountSinceSplit(flips[..|flips| - 1], t, if k == |flips| then k - 1 else k);
    }
  }

  lemma {:induction false} WindowHolds(f: FlapConfig, t0: int, flips: seq<Flip>)
    requires f.windowSeconds > 0 && InOrder(flips) && AllFrom(t0, flips)
    ensures var c := Chart(f, t0, flips);
            && (flips == [] ==> c.start == t0)
            && (flips != [] ==> c.first < |flips|)
            && t0 <= c.start
            && (c.start == t0 || (c.first < |flips| && c.start == flips[c.first].at))
            && (forall i :: 0 <= i < c.first && i < |flips| ==> flips[i].at < c.start)
            && (forall i :: c.first <= i < |flips| ==> c.start <= flips[i].at <= c.start + f.windowSeconds)
  {
    if flips != [] {
      var past := flips[..|flips| - 1];
      WindowHolds(f, t0, past);
      CutsDisjoint(f, t0, past);
    }
  }

  /**
   * With a clock that does not go backwards, everything the state holds lies inside the window,
   * and the flip count is the number of flips of the log since the window started.
   */
  lemma {:induction false} WindowAccounting(f: FlapConfig, evs: seq<Event>)
    requires evs != [] && Ordered(evs) && f.windowSeconds > 0
    ensures var e := Play(Some(f), evs).edge;
            && e.Some?
            && (forall i :: 0 <= i < |e.value.recent| ==>
                  e.value.windowStart <= e.value.recent[i].at <= e.value.windowStart + f.windowSeconds)
            && e.value.windowStart <= e.value.lastChangeTS <= e.value.windowStart + f.windowSeconds
            && e.value.flipCount == CountSince(Flips(evs), e.value.windowStart)
            && |e.value.recent| <= Min(e.value.flipCount, HARD_LIMIT_RECENT_ITEMS)
  {
    var flips := Flips(evs);
    var c := Chart(f, evs[0].now, flips);
    FlipsOrdered(evs);
    WindowHolds(f, evs[0].now, flips);
    CutsDisjoint(f, evs[0].now, flips);
    CountSinceSplit(flips, c.start, c.first);
    BufferRefinesLog(f, evs);
    TracksLast(Some(f), evs);
    SuffixInWindow(f, flips, c, Play(Some(f), evs).edge.value.recent);
  }

  lemma {:induction false} SuffixInWindow(f: FlapConfig, flips: seq<Flip>, c: Cursor, recent: seq<Flip>)
    requires c.first <= c.mark <= |flips|
    requires recent == LastN(flips[c.mark..], HARD_LIMIT_RECENT_ITEMS)
    requires forall i :: c.first <= i < |flips| ==> c.start <= flips[i].at <= c.start + f.windowSeconds
    ensures forall i :: 0 <= i < |recent| ==> c.start <= recent[i].at <= c.start + f.windowSeconds
  {
    assert forall i :: 0 <= i < |recent| ==> recent[i] == flips[|flips| - |recent| + i];
  }

  // ---------------------------------------------------------------- when aggregates are sent

  /** The settings under which an aggregate is never held back by the cooldown or by the buffer size. */
  predicate Prompt(f: FlapConfig) {
    1 <= f.aggregateAt <= HARD_LIMIT_RECENT_ITEMS && f.aggregateCooldownSeconds <= 0
  }

  /** The open range holds what the count calls for, and the cooldown was over at time `t`. */
  predicate Ready(f: FlapConfig, c: Cursor, n: nat, t: int)
    requires f.aggregateAt > 0
  {
    c.first <= c.mark <= n && n - c.mark >= (n - c.first) % f.aggregateAt && c.until <= t
  }

  lemma {:induction false} DueByCount(f: FlapConfig, c: Cursor, n: nat, at: int)
    requires Prompt(f) && Ready(f, c, n, at)
    ensures var count := n + 1 - c.first;
            Due(f, c, n + 1, at) <==> count > f.suppressBelow && count % f.aggregateAt == 0
  {
    Succ(n - c.first, f.aggregateAt);
  }

  lemma {:induction false} StaysReady(f: FlapConfig, c: Cursor, n: nat, at: int)
    requires Prompt(f) && Ready(f, c, n, at)
    ensures Ready(f, Advance(f, c, n + 1, at), n + 1, at)
  {
    if Rolls(f, c, at) {
      Succ(0, f.aggregateAt);
    } else {
      Succ(n - c.first, f.aggregateAt);
    }
  }

  /** Under prompt settings the open range always holds enough flips, and the cooldown is over. */
  lemma {:induction false} AlwaysReady(f: FlapConfig, t0: int, flips: seq<Flip>, t: int)
    requires Prompt(f) && InOrder(flips) && AllFrom(0, flips) && t >= 0
    requires forall i :: 0 <= i < |flips| ==> flips[i].at <= t
    ensures Ready(f, Chart(f, t0, flips), |flips|, t)
  {
    if flips == [] {
      DivModUnique(0, f.aggregateAt, 0, 0);
    } else {
      var n := |flips| - 1;
      AlwaysReady(f, t0, flips[..n], flips[n].at);
      StaysReady(f, Chart(f, t0, flips[..n]), n, flips[n].at);
    }
  }

  /**
   * The answer to a flip depends only on its number in the window: the first flip of a new window is
   * forwarded unless it is suppressed, and within a window every multiple of the aggregation threshold
   * that is not suppressed is answered with an aggregate.
   */
  predicate AnswersByCount(f: FlapConfig, e: Edge, ev: Event)
    requires f.aggregateAt > 0
  {
    var r := Step(Some(e), ev, Some(f));
    if OpensWindow(f, e, ev.now) then
      && r.next.flipCount == 1
      && r.action == if f.suppressBelow < 1 then EdgeTriggeredForward else SuppressFlapping
    else
      && r.next.flipCount == e.flipCount + 1
      && r.next.windowStart == e.windowStart
      && r.action ==
           if r.next.flipCount > f.suppressBelow && r.next.flipCount % f.aggregateAt == 0
           then AggregateSent else SuppressFlapping
  }

  lemma {:induction false} ReadyAnswers(f: FlapConfig, e: Edge, past: seq<Flip>, c: Cursor, ev: Event)
    requires Prompt(f) && Reads(e, past, c) && Ready(f, c, |past|, ev.now) && e.lastValue != ev.value
    ensures AnswersByCount(f, e, ev)
  {
    FlipReads(f, e, past, c, ev);
    DueByCount(f, c, |past|, ev.now);
  }

  /**
   * Under prompt settings and a clock that starts at or after the epoch and does not go backwards,
   * the answer to a flip is a function of its number in the window.
   */
  lemma {:induction false} EmissionLaw(f: FlapConfig, evs: seq<Event>, ev: Event)
    requires Prompt(f) && evs != [] && evs[0].now >= 0 && Ordered(evs + [ev])
    requires ev.value != evs[|evs| - 1].value
    ensures var e := Play(Some(f), evs).edge;
            e.Some? && AnswersByCount(f, e.value, ev)
  {
    TracksLast(Some(f), evs);
    BufferRefinesLog(f, evs);
    var past := Flips(evs);
    OrderedPrefix(evs, ev);
    FlipsOrdered(evs);
    AlwaysReady(f, evs[0].now, past, ev.now);
    ReadyAnswers(f, Play(Some(f), evs).edge.value, past, Chart(f, evs[0].now, past), ev);
  }

  lemma {:induction false} OrderedPrefix(evs: seq<Event>, ev: Event)
    requires Ordered(evs + [ev])
    ensures Ordered(evs)
    ensures evs != [] ==> evs[|evs| - 1].now <= ev.now
  {
    var all := evs + [ev];
    assert forall i :: 0 <= i < |evs| ==> all[i] == evs[i];
    assert all[|evs|] == ev;
  }

  lemma {:induction false} FlipsExtend(evs: seq<Event>, ev: Event)
    requires evs != []
    ensures Flips(evs + [ev]) ==
              if ev.value == evs[|evs| - 1].value then Flips(evs)
              else Flips(evs) + [Flip(ev.now, evs[|evs| - 1].value, ev.value, ev.payload)]
  {
    assert (evs + [ev])[..|evs|] == evs;
  }

  lemma {:induction false} PlayExtend(f: Option<FlapConfig>, evs: seq<Event>, ev: Event)
    ensures Play(f, evs + [ev]) == Extend(f, Play(f, evs), ev)
  {
    assert (evs + [ev])[..|evs|] == evs;
  }

  function Published(actions: seq<Action>): nat {
    Count(actions, EdgeTriggeredForward) + Count(actions, AggregateSent)
  }

  lemma {:induction false} PublishedSnoc(actions: seq<Action>, a: Action)
    ensures Published(actions + [a]) == Published(actions) + (if Publishes(a) then 1 else 0)
  {
    assert (actions + [a])[..|actions|] == actions;
  }

  /** One more event adds to the publications of a run what its committed decision publishes. */
  lemma {:induction false} EventPublishes(f: Option<FlapConfig>, log: seq<Event>, ev: Event)
    ensures Published(Play(f, log + [ev]).actions) == Published(Play(f, log).actions)
              + (if Publishes(Answer(Decide(Play(f, log).edge, ev, f), Committed).action) then 1 else 0)
  {
    PlayExtend(f, log, ev);
    PublishedSnoc(Play(f, log).actions, Step(Play(f, log).edge, ev, f).action);
  }

  /** A run that is still in its first window after `n` flips and has published once per full group. */
  predicate InFirstWindow(f: FlapConfig, t: Trace, t0: int, n: nat)
    requires f.aggregateAt > 0
  {
    && t.edge.Some?
    && t.edge.value.windowStart == t0
    && t.edge.value.flipCount == n
    && Published(t.actions) == 1 + n / f.aggregateAt
  }

  lemma {:induction false} FirstWindowStep(f: FlapConfig, evs: seq<Event>, ev: Event)
    requires Prompt(f) && f.suppressBelow <= 0
    requires evs != [] && evs[0].now >= 0 && Ordered(evs + [ev])
    requires f.windowSeconds > 0 ==> ev.now - evs[0].now <= f.windowSeconds
    requires InFirstWindow(f, Play(Some(f), evs), evs[0].now, |Flips(evs)|)
    ensures InFirstWindow(f, Play(Some(f), evs + [ev]), evs[0].now, |Flips(evs + [ev])|)
  {
    var t := Play(Some(f), evs);
    PlayExtend(Some(f), evs, ev);
    FlipsExtend(evs, ev);
    TracksLast(Some(f), evs);
    PublishedSnoc(t.actions, Step(t.edge, ev, Some(f)).action);
    if ev.value != evs[|evs| - 1].value {
      EmissionLaw(f, evs, ev);
      Succ(|Flips(evs)|, f.aggregateAt);
    }
  }

  /**
   * With no suppression, `n` flips inside the first window publish exactly `1 + n / aggregateAt` times:
   * the first observation and one aggregate per full group.
   */
  lemma {:induction false} FirstWindowPublishes(f: FlapConfig, evs: seq<Event>)
    requires Prompt(f) && f.suppressBelow <= 0
    requires evs != [] && evs[0].now >= 0 && Ordered(evs)
    requires f.windowSeconds > 0 ==> evs[|evs| - 1].now - evs[0].now <= f.windowSeconds
    ensures InFirstWindow(f, Play(Some(f), evs), evs[0].now, |Flips(evs)|)
    ensures Published(Play(Some(f), evs).actions) == 1 + |Flips(evs)| / f.aggregateAt
  {
    var n := |evs| - 1;
    if n == 0 {
      assert Play(Some(f), evs[..0]) == Trace(None, [], []);
      PublishedSnoc([], EdgeTriggeredForward);
      DivModUnique(0, f.aggregateAt, 0, 0);
    } else {
      assert evs == evs[..n] + [evs[n]];
      FirstWindowPublishes(f, evs[..n]);
      FirstWindowStep(f, evs[..n], evs[n]);
    }
  }
}
