/** When aggregates can be sent at all, and when they report every flip. */
module AggregateLaws {
  import opened Types
  import opened EdgeFlap
  import opened EdgeRuns
  import opened EdgeLaws
  import opened WindowLaws
  import opened Arithmetic

  // ---------------------------------------------------------------- an alternating run

  function Side(i: nat): string {
    if i % 2 == 0 then "a" else "b"
  }

  /** A key first seen at the epoch whose value then changes `n` times within the same second. */
  function Toggle(n: nat): seq<Event> {
    seq(n + 1, i requires 0 <= i => Event(Side(i), 0, ""))
  }

  /** The flips of that run. */
  function ToggleLog(n: nat): seq<Flip> {
    seq(n, i requires 0 <= i => Flip(0, Side(i), Side(i + 1), ""))
  }

  lemma {:induction false} SidesDiffer(i: nat)
    ensures Side(i) != Side(i + 1)
  {
    assert "a"[0] != "b"[0];
  }

  lemma {:induction false} ToggleSnoc(n: nat)
    requires n > 0
    ensures Toggle(n) == Toggle(n - 1) + [Event(Side(n), 0, "")]
    ensures Toggle(n - 1)[n - 1].value == Side(n - 1)
    ensures ToggleLog(n) == ToggleLog(n - 1) + [Flip(0, Side(n - 1), Side(n), "")]
    ensures ToggleLog(n)[..n - 1] == ToggleLog(n - 1)
  {
  }

  lemma {:induction false} ChangeAppends(evs: seq<Event>, ev: Event, last: string, log: seq<Flip>)
    requires evs != [] && evs[|evs| - 1].value == last != ev.value && Flips(evs) == log
    ensures Flips(evs + [ev]) == log + [Flip(ev.now, last, ev.value, ev.payload)]
  {
    FlipsExtend(evs, ev);
  }

  lemma {:induction false} ToggleFlips(n: nat)
    ensures Flips(Toggle(n)) == ToggleLog(n)
  {
    if n > 0 {
      ToggleFlips(n - 1);
      ToggleSnoc(n);
      SidesDiffer(n - 1);
      ChangeAppends(Toggle(n - 1), Event(Side(n), 0, ""), Side(n - 1), ToggleLog(n - 1));
    }
  }

  /** The first multiple of the aggregation threshold that suppression lets through. */
  function Quorum(f: FlapConfig): int
    requires f.aggregateAt > 0
  {
    f.aggregateAt * ((if f.suppressBelow > 0 then f.suppressBelow else 0) / f.aggregateAt + 1)
  }

  lemma {:induction false} QuorumIsFirst(f: FlapConfig, k: nat)
    requires f.aggregateAt > 0
    ensures Quorum(f) >= f.aggregateAt && Quorum(f) > f.suppressBelow && Quorum(f) % f.aggregateAt == 0
    ensures k % f.aggregateAt == 0 && k > 0 && k > f.suppressBelow ==> k >= Quorum(f)
  {
    FirstMultipleAbove(f.aggregateAt, if f.suppressBelow > 0 then f.suppressBelow else 0, k);
  }

  /** The reading of an alternating run that has not sent an aggregate. */
  const ORIGIN := Cursor(0, 0, 0, 0, [])

  lemma {:induction false} IdleBelowQuorum(f: FlapConfig, n: nat)
    requires n > 0 && (1 <= f.aggregateAt <= HARD_LIMIT_RECENT_ITEMS ==> n < Quorum(f))
    ensures Advance(f, ORIGIN, n, 0) == ORIGIN
  {
    if 1 <= f.aggregateAt <= HARD_LIMIT_RECENT_ITEMS {
      QuorumIsFirst(f, n);
    }
  }

  /** A reading that no later flip moves is the reading of the whole log. */
  lemma {:induction false} StaysPut(f: FlapConfig, c: Cursor, flips: seq<Flip>, m: nat)
    requires m <= |flips| && Chart(f, 0, flips[..m]) == c
    requires forall k: nat :: m < k <= |flips| ==> Advance(f, c, k, 0) == c
    requires forall i :: 0 <= i < |flips| ==> flips[i].at == 0
    ensures Chart(f, 0, flips) == c
  {
    if m == |flips| {
      assert flips[..m] == flips;
    } else {
      var init := flips[..|flips| - 1];
      assert init[..m] == flips[..m];
      StaysPut(f, c, init, m);
    }
  }

  /** One more flip of the alternating run advances its reading by one flip at the epoch. */
  lemma {:induction false} ToggleAdvances(f: FlapConfig, n: nat)
    requires n > 0
    ensures Chart(f, 0, Flips(Toggle(n))) == Advance(f, Chart(f, 0, Flips(Toggle(n - 1))), n, 0)
  {
    ToggleFlips(n);
    ToggleFlips(n - 1);
    ToggleSnoc(n);
  }

  /** Until the quorum is reached the reading of an alternating run does not move. */
  lemma {:induction false} ToggleBelowQuorum(f: FlapConfig, n: nat)
    requires 1 <= f.aggregateAt <= HARD_LIMIT_RECENT_ITEMS ==> n < Quorum(f)
    ensures Chart(f, 0, Flips(Toggle(n))) == ORIGIN
  {
    forall k: nat | 0 < k <= n
      ensures Advance(f, ORIGIN, k, 0) == ORIGIN
    {
      IdleBelowQuorum(f, k);
    }
    ToggleFlips(n);
    StaysPut(f, ORIGIN, Flips(Toggle(n)), 0);
  }

  /** The reading once the first aggregate has been sent and its cooldown runs. */
  function Held(f: FlapConfig): Cursor
    requires f.aggregateAt > 0 && Quorum(f) >= 0
  {
    Cursor(0, 0, Quorum(f), f.aggregateCooldownSeconds, [Span(0, Quorum(f))])
  }

  lemma {:induction false} DueAtQuorum(f: FlapConfig)
    requires 1 <= f.aggregateAt <= HARD_LIMIT_RECENT_ITEMS
    ensures Quorum(f) > 0 && Advance(f, ORIGIN, Quorum(f), 0) == Held(f)
  {
    QuorumIsFirst(f, 0);
    assert Due(f, ORIGIN, Quorum(f), 0);
  }

  /** The alternating run sends its first aggregate with the flip that reaches the quorum. */
  lemma {:induction false} ToggleAtQuorum(f: FlapConfig)
    requires 1 <= f.aggregateAt <= HARD_LIMIT_RECENT_ITEMS
    ensures Quorum(f) > 0
    ensures Chart(f, 0, Flips(Toggle(Quorum(f)))) == Held(f)
  {
    DueAtQuorum(f);
    ToggleBelowQuorum(f, Quorum(f) - 1);
    ToggleAdvances(f, Quorum(f));
  }

  // ---------------------------------------------------------------- when aggregation is possible

  lemma {:induction false} NoCuts(f: FlapConfig, t0: int, flips: seq<Flip>)
    requires !(1 <= f.aggregateAt <= HARD_LIMIT_RECENT_ITEMS)
    ensures Chart(f, t0, flips).cuts == []
  {
    if flips != [] {
      NoCuts(f, t0, flips[..|flips| - 1]);
    }
  }

  /** Some run sends an aggregate if and only if the threshold is positive and fits in the buffer. */
  lemma {:induction false} AggregationPossible(f: FlapConfig)
    ensures (exists evs: seq<Event> :: AggregateSent in Play(Some(f), evs).actions)
            <==> 1 <= f.aggregateAt <= 128
  {
    if 1 <= f.aggregateAt <= HARD_LIMIT_RECENT_ITEMS {
      ToggleAtQuorum(f);
      var evs := Toggle(Quorum(f));
      ToggleFlips(Quorum(f));
      AggregatesMatchCuts(f, evs);
      assert AggregateSent in Play(Some(f), evs).actions;
    } else {
      forall evs: seq<Event>
        ensures AggregateSent !in Play(Some(f), evs).actions
      {
        if evs != [] {
          AggregatesMatchCuts(f, evs);
          NoCuts(f, evs[0].now, Flips(evs));
        }
      }
    }
  }

  lemma {:induction false} AggregatesMatchCuts(f: FlapConfig, evs: seq<Event>)
    requires evs != []
    ensures AggregateSent in Play(Some(f), evs).actions <==> Chart(f, evs[0].now, Flips(evs)).cuts != []
  {
    BufferRefinesLog(f, evs);
    AggregatesCounted(Some(f), evs);
    CountMembership(Play(Some(f), evs).actions, AggregateSent);
  }

  // ---------------------------------------------------------------- when no flip is lost

  /**
   * Under prompt settings the open range never outgrows the quorum: nothing was aggregated yet in
   * this window, or the last aggregate was less than one group ago.
   */
  predicate Tight(f: FlapConfig, c: Cursor, n: nat)
    requires f.aggregateAt > 0
  {
    && c.first <= c.mark <= n
    && (c.mark == c.first ==> n - c.first < Quorum(f) || n - c.first == 1)
    && (c.mark > c.first ==>
          && (c.mark - c.first) % f.aggregateAt == 0
          && c.mark - c.first > f.suppressBelow
          && n - c.mark < f.aggregateAt)
  }

  lemma {:induction false} StaysTight(f: FlapConfig, c: Cursor, n: nat, at: int)
    requires Prompt(f) && Ready(f, c, n, at) && Tight(f, c, n)
    ensures Tight(f, Advance(f, c, n + 1, at), n + 1)
    ensures !Rolls(f, c, at) && Due(f, c, n + 1, at) ==>
              n + 1 - c.mark <= Quorum(f) || n + 1 - c.mark <= f.aggregateAt || n + 1 - c.mark <= 2
  {
    var k := n + 1 - c.first;
    DueByCount(f, c, n, at);
    QuorumIsFirst(f, k);
    if !Rolls(f, c, at) && !Due(f, c, n + 1, at) && c.mark > c.first && n + 1 - c.mark == f.aggregateAt {
      DivModUnique(k, f.aggregateAt, (c.mark - c.first) / f.aggregateAt + 1, 0);
    }
    if f.aggregateAt == 1 {
      DivModUnique(k, 1, k, 0);
    }
  }

  /** The ranges follow each other without gaps from `lo` to `hi`, none longer than the buffer. */
  ghost predicate Tiles(cuts: seq<Span>, lo: nat, hi: nat) {
    if cuts == [] then lo == hi
    else
      var s := cuts[|cuts| - 1];
      && s.hi == hi && s.lo <= s.hi <= s.lo + HARD_LIMIT_RECENT_ITEMS
      && Tiles(cuts[..|cuts| - 1], lo, s.lo)
  }

  lemma {:induction false} TilesSnoc(cuts: seq<Span>, lo: nat, mid: nat, hi: nat)
    requires Tiles(cuts, lo, mid) && mid <= hi <= mid + HARD_LIMIT_RECENT_ITEMS
    ensures Tiles(cuts + [Span(mid, hi)], lo, hi)
  {
    assert (cuts + [Span(mid, hi)])[..|cuts|] == cuts;
  }

  lemma {:induction false} TilesAdvance(f: FlapConfig, c: Cursor, n: nat, at: int, j: nat) returns (j': nat)
    requires c.mark <= n && j <= |c.cuts| && Tiles(c.cuts[j..], c.first, c.mark)
    requires !Rolls(f, c, at) && Due(f, c, n + 1, at) ==> n + 1 - c.mark <= HARD_LIMIT_RECENT_ITEMS
    ensures var c' := Advance(f, c, n + 1, at);
            j' <= |c'.cuts| && Tiles(c'.cuts[j'..], c'.first, c'.mark)
  {
    j' := j;
    if Rolls(f, c, at) {
      j' := |c.cuts|;
    } else if Due(f, c, n + 1, at) {
      TilesSnoc(c.cuts[j..], c.first, c.mark, n + 1);
      assert (c.cuts + [Span(c.mark, n + 1)])[j..] == c.cuts[j..] + [Span(c.mark, n + 1)];
    }
  }

  /** The aggregates of the current window, from the `j`th on, tile it up to the open range. */
  lemma {:induction false} WindowTiles(f: FlapConfig, t0: int, flips: seq<Flip>, t: int) returns (j: nat)
    requires Prompt(f) && Quorum(f) <= HARD_LIMIT_RECENT_ITEMS
    requires InOrder(flips) && AllFrom(0, flips) && t >= 0
    requires forall i :: 0 <= i < |flips| ==> flips[i].at <= t
    ensures var c := Chart(f, t0, flips);
            && Ready(f, c, |flips|, t)
            && Tight(f, c, |flips|)
            && j <= |c.cuts|
            && Tiles(c.cuts[j..], c.first, c.mark)
  {
    QuorumIsFirst(f, 0);
    AlwaysReady(f, t0, flips, t);
    j := 0;
    if flips != [] {
      var n := |flips| - 1;
      var c := Chart(f, t0, flips[..n]);
      j := WindowTiles(f, t0, flips[..n], flips[n].at);
      StaysTight(f, c, n, flips[n].at);
      j := TilesAdvance(f, c, n, flips[n].at, j);
    }
  }

  function Concat(ss: seq<seq<Flip>>): seq<Flip> {
    if ss == [] then [] else Concat(ss[..|ss| - 1]) + ss[|ss| - 1]
  }

  lemma {:induction false} TiledConcat(snaps: seq<seq<Flip>>, flips: seq<Flip>, cuts: seq<Span>, lo: nat, hi: nat)
    requires Consumed(snaps, flips, cuts) && Tiles(cuts, lo, hi) && lo <= hi <= |flips|
    ensures Concat(snaps) == flips[lo..hi]
  {
    if cuts != [] {
      var n := |cuts| - 1;
      TilesOrdered(cuts[..n], lo, cuts[n].lo);
      TiledConcat(snaps[..n], flips, cuts[..n], lo, cuts[n].lo);
      assert flips[lo..cuts[n].lo] + flips[cuts[n].lo..hi] == flips[lo..hi];
    }
  }

  lemma {:induction false} TilesOrdered(cuts: seq<Span>, lo: nat, hi: nat)
    requires Tiles(cuts, lo, hi)
    ensures lo <= hi
  {
    if cuts != [] {
      TilesOrdered(cuts[..|cuts| - 1], lo, cuts[|cuts| - 1].lo);
    }
  }

  lemma {:induction false} ReassembleWindow(
      snaps: seq<seq<Flip>>, flips: seq<Flip>, c: Cursor, j: nat, recent: seq<Flip>)
    requires c.first <= c.mark <= |flips| <= c.mark + HARD_LIMIT_RECENT_ITEMS
    requires Consumed(snaps, flips, c.cuts) && j <= |c.cuts| && Tiles(c.cuts[j..], c.first, c.mark)
    requires recent == LastN(flips[c.mark..], HARD_LIMIT_RECENT_ITEMS)
    ensures Concat(snaps[j..]) + recent == flips[c.first..]
  {
    assert Consumed(snaps[j..], flips, c.cuts[j..]);
    TiledConcat(snaps[j..], flips, c.cuts[j..], c.first, c.mark);
    assert flips[c.first..c.mark] + flips[c.mark..] == flips[c.first..];
  }

  /**
   * Under prompt settings whose quorum fits in the buffer, the aggregates of the current window
   * followed by the buffer are exactly the flips the window counts, in order.
   */
  lemma {:induction false} NoFlipLost(f: FlapConfig, evs: seq<Event>) returns (j: nat)
    requires Prompt(f) && Quorum(f) <= HARD_LIMIT_RECENT_ITEMS
    requires evs != [] && evs[0].now >= 0 && Ordered(evs)
    ensures var t := Play(Some(f), evs);
            && j <= |t.snapshots|
            && t.edge.Some?
            && 0 <= t.edge.value.flipCount <= |Flips(evs)|
            && Concat(t.snapshots[j..]) + t.edge.value.recent == Flips(evs)[|Flips(evs)| - t.edge.value.flipCount..]
  {
    var flips := Flips(evs);
    var t := Play(Some(f), evs);
    var c := Chart(f, evs[0].now, flips);
    FlipsOrdered(evs);
    j := WindowTiles(f, evs[0].now, flips, evs[|evs| - 1].now);
    BufferRefinesLog(f, evs);
    ReassembleWindow(t.snapshots, flips, c, j, t.edge.value.recent);
  }

  /** Some suffix of the aggregates, followed by the buffer, is exactly what the current window counts. */
  ghost predicate Lossless(f: FlapConfig, evs: seq<Event>)
    requires evs != []
  {
    var t := Play(Some(f), evs);
    && t.edge.Some?
    && 0 <= t.edge.value.flipCount <= |Flips(evs)|
    && exists j :: 0 <= j <= |t.snapshots| &&
         Concat(t.snapshots[j..]) + t.edge.value.recent == Flips(evs)[|Flips(evs)| - t.edge.value.flipCount..]
  }

  /** The flips a run has reported or still holds are all but the `k`th, though it counts every one. */
  ghost predicate MissesOne(f: FlapConfig, evs: seq<Event>, k: nat) {
    var t, log := Play(Some(f), evs), Flips(evs);
    && k < |log|
    && t.edge.Some? && t.edge.value.flipCount == |log|
    && Concat(t.snapshots) + t.edge.value.recent == log[..k] + log[k + 1..]
  }

  /**
   * When aggregation is off, or its quorum does not fit in the buffer, the oldest of 129 flips at once
   * is lost: it is in no aggregate and not in the buffer.
   */
  lemma {:induction false} LossAboveBuffer(f: FlapConfig)
    requires 1 <= f.aggregateAt <= HARD_LIMIT_RECENT_ITEMS ==> Quorum(f) > HARD_LIMIT_RECENT_ITEMS
    ensures MissesOne(f, Toggle(HARD_LIMIT_RECENT_ITEMS + 1), 0)
  {
    var n := HARD_LIMIT_RECENT_ITEMS + 1;
    var evs, log := Toggle(n), Flips(Toggle(n));
    ToggleFlips(n);
    ToggleBelowQuorum(f, n - 1);
    ToggleAdvances(f, n);
    BufferRefinesLog(f, evs);
    var t, c := Play(Some(f), evs), Chart(f, 0, log);
    assert c == Advance(f, ORIGIN, n, 0);
    assert log[0..n] == log;
    if c.cuts != [] {
      assert t.snapshots == [LastN(log[0..n], HARD_LIMIT_RECENT_ITEMS)];
      assert Concat(t.snapshots[..0]) == [];
    } else {
      assert Concat(t.snapshots) == [];
    }
  }

  /** While the cooldown of the first aggregate runs, the reading does not move. */
  lemma {:induction false} ToggleHeld(f: FlapConfig, n: nat)
    requires 1 <= f.aggregateAt <= HARD_LIMIT_RECENT_ITEMS && f.aggregateCooldownSeconds > 0
    requires n >= Quorum(f)
    ensures Quorum(f) > 0 && Chart(f, 0, Flips(Toggle(n))) == Held(f)
  {
    ToggleAtQuorum(f);
    ToggleFlips(n);
    ToggleFlips(Quorum(f));
    assert ToggleLog(n)[..Quorum(f)] == ToggleLog(Quorum(f));
    StaysPut(f, Held(f), Flips(Toggle(n)), Quorum(f));
  }

  lemma {:induction false} HeldMissesOne(t: Trace, log: seq<Flip>, c: Cursor)
    requires Agrees(t, log, c) && c.first == 0 && c.cuts == [Span(0, c.mark)]
    requires c.mark <= HARD_LIMIT_RECENT_ITEMS && |log| == c.mark + HARD_LIMIT_RECENT_ITEMS + 1
    ensures t.edge.value.flipCount == |log|
    ensures Concat(t.snapshots) + t.edge.value.recent == log[..c.mark] + log[c.mark + 1..]
  {
    assert t.snapshots == [log[..c.mark]];
    assert Concat(t.snapshots[..0]) == [];
    assert t.edge.value.recent == log[c.mark + 1..];
  }

  /** With a cooldown, the oldest of 129 flips that follow an aggregate at once is lost. */
  lemma {:induction false} LossUnderCooldown(f: FlapConfig)
    requires 1 <= f.aggregateAt <= HARD_LIMIT_RECENT_ITEMS && f.aggregateCooldownSeconds > 0
    requires Quorum(f) <= HARD_LIMIT_RECENT_ITEMS
    ensures Quorum(f) > 0
    ensures MissesOne(f, Toggle(Quorum(f) + HARD_LIMIT_RECENT_ITEMS + 1), Quorum(f))
  {
    var n := Quorum(f) + HARD_LIMIT_RECENT_ITEMS + 1;
    QuorumIsFirst(f, 0);
    ToggleFlips(n);
    ToggleHeld(f, n);
    BufferRefinesLog(f, Toggle(n));
    HeldMissesOne(Play(Some(f), Toggle(n)), ToggleLog(n), Held(f));
  }

  lemma {:induction false} MissingIsLoss(f: FlapConfig, evs: seq<Event>, k: nat)
    requires evs != [] && MissesOne(f, evs, k)
    ensures !Lossless(f, evs)
  {
    var t, log := Play(Some(f), evs), Flips(evs);
    assert log[|log| - t.edge.value.flipCount..] == log;
    forall j | 0 <= j <= |t.snapshots|
      ensures |Concat(t.snapshots[j..]) + t.edge.value.recent| < |log|
    {
      ConcatSuffix(t.snapshots, j);
      assert |Concat(t.snapshots) + t.edge.value.recent| == |log| - 1;
    }
  }

  /** Under all other settings some alternating run loses exactly one flip. */
  lemma {:induction false} LossyRun(f: FlapConfig) returns (n: nat, k: nat)
    requires !(Prompt(f) && Quorum(f) <= HARD_LIMIT_RECENT_ITEMS)
    ensures Ordered(Toggle(n)) && |Toggle(n)| == n + 1 && Toggle(n)[0].now == 0
    ensures MissesOne(f, Toggle(n), k)
  {
    if 1 <= f.aggregateAt <= HARD_LIMIT_RECENT_ITEMS && Quorum(f) <= HARD_LIMIT_RECENT_ITEMS {
      LossUnderCooldown(f);
      n, k := Quorum(f) + HARD_LIMIT_RECENT_ITEMS + 1, Quorum(f);
    } else {
      LossAboveBuffer(f);
      n, k := HARD_LIMIT_RECENT_ITEMS + 1, 0;
    }
    ToggleFlips(n);
  }

  /**
   * For every configuration: no run with an ordered clock loses a flip if and only if there is no
   * cooldown and the first unsuppressed multiple of the threshold fits in the buffer.
   */
  lemma {:induction false} LosslessExactly(f: FlapConfig)
    ensures (forall evs: seq<Event> :: evs != [] && evs[0].now >= 0 && Ordered(evs) ==> Lossless(f, evs))
            <==> Prompt(f) && Quorum(f) <= HARD_LIMIT_RECENT_ITEMS
  {
    if Prompt(f) && Quorum(f) <= HARD_LIMIT_RECENT_ITEMS {
      forall evs: seq<Event> | evs != [] && evs[0].now >= 0 && Ordered(evs)
        ensures Lossless(f, evs)
      {
        var j := NoFlipLost(f, evs);
      }
    } else {
      var n, k := LossyRun(f);
      MissingIsLoss(f, Toggle(n), k);
    }
  }

  lemma {:induction false} ConcatSuffix(ss: seq<seq<Flip>>, j: nat)
    requires j <= |ss|
    ensures |Concat(ss[j..])| <= |Concat(ss)|
  {
    if j < |ss| {
      var n := |ss| - 1;
      ConcatSuffix(ss[..n], j);
      assert ss[j..][..n - j] == ss[..n][j..];
    }
  }
}
