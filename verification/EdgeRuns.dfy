/**
 * Unraced runs of the state machine on one key, and the reference they are measured against: the
 * unbounded log of flips read off the event sequence, with a cursor of indices into it.
 */
module EdgeRuns {
  import opened Types
  import opened EdgeFlap

  /** A run: the state it ends in, the answers given, and the logs consumed by its aggregates. */
  datatype Trace = Trace(edge: Option<Edge>, actions: seq<Action>, snapshots: seq<seq<Flip>>)

  function Extend(f: Option<FlapConfig>, t: Trace, ev: Event): Trace {
    var r := Step(t.edge, ev, f);
    Trace(
      Some(r.next),
      t.actions + [r.action],
      if r.source.Some? then t.snapshots + [r.source.value.recent] else t.snapshots)
  }

  function Play(f: Option<FlapConfig>, evs: seq<Event>): Trace {
    if evs == [] then Trace(None, [], [])
    else Extend(f, Play(f, evs[..|evs| - 1]), evs[|evs| - 1])
  }

  /** Every change of value between neighbouring events, with no bound and no reset. */
  function Flips(evs: seq<Event>): seq<Flip> {
    if |evs| <= 1 then []
    else
      var n := |evs| - 1;
      if evs[n - 1].value == evs[n].value then Flips(evs[..n])
      else Flips(evs[..n]) + [Flip(evs[n].now, evs[n - 1].value, evs[n].value, evs[n].payload)]
  }

  /** A half-open range of positions in the flip log. */
  datatype Span = Span(lo: nat, hi: nat)

  /**
   * A reading of the flip log: when the current window started, the first flip it counts, the first
   * flip not yet aggregated nor dropped by a window change, the end of the cooldown, and the ranges
   * that aggregates took.
   */
  datatype Cursor = Cursor(start: int, first: nat, mark: nat, until: int, cuts: seq<Span>)

  /** An aggregate falls due with the `hi`th flip. */
  predicate Due(f: FlapConfig, c: Cursor, hi: nat, at: int) {
    && 1 <= f.aggregateAt <= HARD_LIMIT_RECENT_ITEMS
    && hi - c.first > f.suppressBelow
    && (hi - c.first) % f.aggregateAt == 0
    && at >= c.until
    && hi - c.mark >= f.aggregateAt
  }

  predicate Rolls(f: FlapConfig, c: Cursor, at: int) {
    f.windowSeconds > 0 && at - c.start > f.windowSeconds
  }

  /** The reading after one more flip, the `n`th, at time `at`. */
  function Advance(f: FlapConfig, c: Cursor, n: nat, at: int): Cursor
    requires n > 0
  {
    if Rolls(f, c, at) then c.(start := at, first := n - 1, mark := n - 1)
    else if Due(f, c, n, at) then
      c.(mark := n, until := at + f.aggregateCooldownSeconds, cuts := c.cuts + [Span(c.mark, n)])
    else c
  }

  /** The reading of a log whose key was first observed at `t0`. */
  function Chart(f: FlapConfig, t0: int, flips: seq<Flip>): Cursor {
    if flips == [] then Cursor(t0, 0, 0, 0, [])
    else
      var n := |flips|;
      Advance(f, Chart(f, t0, flips[..n - 1]), n, flips[n - 1].at)
  }

  /** Aggregates take disjoint ranges of the log, in commit order, and the open range starts after them. */
  lemma {:induction false} CutsDisjoint(f: FlapConfig, t0: int, flips: seq<Flip>)
    ensures var c := Chart(f, t0, flips);
            && c.first <= c.mark <= |flips|
            && (forall i :: 0 <= i < |c.cuts| ==> c.cuts[i].lo < c.cuts[i].hi <= c.mark)
            && (forall i, j :: 0 <= i < j < |c.cuts| ==> c.cuts[i].hi <= c.cuts[j].lo)
  {
    if flips != [] {
      CutsDisjoint(f, t0, flips[..|flips| - 1]);
    }
  }

  /** The state agrees with a reading of the log: its buffer is the bounded suffix of the open range. */
  ghost predicate Reads(e: Edge, flips: seq<Flip>, c: Cursor) {
    && c.first <= c.mark <= |flips|
    && e.windowStart == c.start
    && e.flipCount == |flips| - c.first
    && e.aggUntilTS == c.until
    && e.recent == LastN(flips[c.mark..], HARD_LIMIT_RECENT_ITEMS)
  }

  /** The newest flip is in the buffer and not yet counted. */
  ghost predicate ReadsBeforeTally(seen: Edge, flips: seq<Flip>, c: Cursor) {
    && c.first <= c.mark < |flips|
    && seen.windowStart == c.start
    && seen.flipCount == |flips| - 1 - c.first
    && seen.aggUntilTS == c.until
    && seen.recent == LastN(flips[c.mark..], HARD_LIMIT_RECENT_ITEMS)
  }

  lemma {:induction false} ObserveReads(e: Edge, past: seq<Flip>, c: Cursor, ev: Event)
    requires Reads(e, past, c)
    ensures ReadsBeforeTally(Observe(e, ev), past + [FlipOf(e, ev)], c)
  {
    LastNSnoc(past[c.mark..], FlipOf(e, ev), HARD_LIMIT_RECENT_ITEMS);
    assert (past + [FlipOf(e, ev)])[c.mark..] == past[c.mark..] + [FlipOf(e, ev)];
  }

  lemma {:induction false} RollReads(f: FlapConfig, seen: Edge, flips: seq<Flip>, c: Cursor, now: int)
    requires ReadsBeforeTally(seen, flips, c) && Rolls(f, c, now)
    ensures var d := DecideFlap(f, seen, now);
            d.source.None? && Reads(d.next, flips, Advance(f, c, |flips|, now))
  {
    assert LastN(seen.recent, 1) == flips[|flips| - 1..];
  }

  lemma {:induction false} CountReads(f: FlapConfig, seen: Edge, flips: seq<Flip>, c: Cursor, now: int)
    requires ReadsBeforeTally(seen, flips, c) && !Rolls(f, c, now)
    ensures var d := DecideFlap(f, seen, now);
            && Reads(d.next, flips, Advance(f, c, |flips|, now))
            && (d.source.Some? <==> Due(f, c, |flips|, now))
            && (d.source.Some? ==> d.source.value.recent == seen.recent)
  {
    assert !OpensWindow(f, seen, now);
    assert Tally(f, seen, now).flipCount == |flips| - c.first;
    if f.aggregateAt > 0 {
      assert AggregateDue(f, Tally(f, seen, now), now) && |flips| - c.first > f.suppressBelow
        <==> Due(f, c, |flips|, now);
    }
  }

  /** A flip moves the state and the reading alike, and it aggregates exactly when the reading says so. */
  lemma {:induction false} FlipReads(f: FlapConfig, e: Edge, past: seq<Flip>, c: Cursor, ev: Event)
    requires Reads(e, past, c) && e.lastValue != ev.value
    ensures var r := Step(Some(e), ev, Some(f));
            var flips := past + [FlipOf(e, ev)];
            && Reads(r.next, flips, Advance(f, c, |flips|, ev.now))
            && (r.source.Some? <==> !Rolls(f, c, ev.now) && Due(f, c, |flips|, ev.now))
            && (r.source.Some? ==> r.source.value.recent == LastN(flips[c.mark..], HARD_LIMIT_RECENT_ITEMS))
  {
    var flips := past + [FlipOf(e, ev)];
    ObserveReads(e, past, c, ev);
    if Rolls(f, c, ev.now) {
      RollReads(f, Observe(e, ev), flips, c, ev.now);
    } else {
      CountReads(f, Observe(e, ev), flips, c, ev.now);
    }
  }

  /** `snaps` are the bounded suffixes of the ranges `cuts` of the log. */
  ghost predicate Consumed(snaps: seq<seq<Flip>>, flips: seq<Flip>, cuts: seq<Span>) {
    && |snaps| == |cuts|
    && forall i :: 0 <= i < |cuts| ==>
         && cuts[i].lo <= cuts[i].hi <= |flips|
         && snaps[i] == LastN(flips[cuts[i].lo..cuts[i].hi], HARD_LIMIT_RECENT_ITEMS)
  }

  lemma {:induction false} ConsumedGrows(snaps: seq<seq<Flip>>, flips: seq<Flip>, cuts: seq<Span>, x: Flip)
    requires Consumed(snaps, flips, cuts)
    ensures Consumed(snaps, flips + [x], cuts)
  {
    forall i | 0 <= i < |cuts|
      ensures (flips + [x])[cuts[i].lo..cuts[i].hi] == flips[cuts[i].lo..cuts[i].hi]
    {
    }
  }

  /** A run agrees with a reading of its log. */
  ghost predicate Agrees(t: Trace, flips: seq<Flip>, c: Cursor) {
    t.edge.Some? && Reads(t.edge.value, flips, c) && Consumed(t.snapshots, flips, c.cuts)
  }

  lemma {:induction false} FlipAgrees(f: FlapConfig, t: Trace, past: seq<Flip>, c: Cursor, ev: Event)
    requires Agrees(t, past, c) && t.edge.value.lastValue != ev.value
    ensures var flips := past + [FlipOf(t.edge.value, ev)];
            Agrees(Extend(Some(f), t, ev), flips, Advance(f, c, |flips|, ev.now))
  {
    var x := FlipOf(t.edge.value, ev);
    FlipReads(f, t.edge.value, past, c, ev);
    ConsumedGrows(t.snapshots, past, c.cuts, x);
    assert (past + [x])[c.mark..|past + [x]|] == (past + [x])[c.mark..];
  }

  /** One step keeps the last value current, and dates it at the last change. */
  lemma {:induction false} StepTracksLast(e: Edge, ev: Event, f: Option<FlapConfig>)
    ensures var next := Step(Some(e), ev, f).next;
            && next.lastValue == ev.value
            && next.lastChangeTS == if e.lastValue == ev.value then e.lastChangeTS else ev.now
  {
  }

  lemma {:induction false} FlipsLast(evs: seq<Event>)
    requires |evs| > 1
    ensures var n := |evs| - 1;
            Flips(evs) == Flips(evs[..n])
              + (if evs[n - 1].value == evs[n].value then []
                 else [Flip(evs[n].now, evs[n - 1].value, evs[n].value, evs[n].payload)])
  {
  }

  /** The last value is that of the last event, and its time is that of the last flip. */
  lemma {:induction false} TracksLast(f: Option<FlapConfig>, evs: seq<Event>)
    requires evs != []
    ensures var t := Play(f, evs);
            && t.edge.Some?
            && t.edge.value.lastValue == evs[|evs| - 1].value
            && t.edge.value.lastChangeTS ==
                 if Flips(evs) == [] then evs[0].now else Flips(evs)[|Flips(evs)| - 1].at
  {
    if |evs| > 1 {
      var n := |evs| - 1;
      var init := evs[..n];
      TracksLast(f, init);
      StepTracksLast(Play(f, init).edge.value, evs[n], f);
      FlipsLast(evs);
    } else {
      assert Play(f, evs[..0]) == Trace(None, [], []);
    }
  }

  lemma {:induction false} ChartSnoc(f: FlapConfig, t0: int, flips: seq<Flip>, x: Flip)
    ensures Chart(f, t0, flips + [x]) == Advance(f, Chart(f, t0, flips), |flips| + 1, x.at)
  {
    assert (flips + [x])[..|flips|] == flips;
  }

  /**
   * The machine with its bounded buffer agrees with the reading of the unbounded log, on every run,
   * and each aggregate consumed the bounded suffix of a contiguous range of the log.
   */
  lemma {:induction false} BufferRefinesLog(f: FlapConfig, evs: seq<Event>)
    requires evs != []
    ensures Agrees(Play(Some(f), evs), Flips(evs), Chart(f, evs[0].now, Flips(evs)))
  {
    var n := |evs| - 1;
    if n > 0 {
      var init, ev := evs[..n], evs[n];
      BufferRefinesLog(f, init);
      TracksLast(Some(f), init);
      FlipsLast(evs);
      if evs[n - 1].value != ev.value {
        FlipAgrees(f, Play(Some(f), init), Flips(init), Chart(f, evs[0].now, Flips(init)), ev);
        ChartSnoc(f, evs[0].now, Flips(init), Flip(ev.now, evs[n - 1].value, ev.value, ev.payload));
      } else {
        assert Flips(init) + [] == Flips(init);
      }
    }
  }
}
