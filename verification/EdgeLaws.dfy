/** Laws of unraced runs on one key, read off the agreement between the machine and its flip log. */
module EdgeLaws {
  import opened Types
  import opened EdgeFlap
  import opened EdgeRuns

  // ---------------------------------------------------------------- the chain of flips

  /** Each flip changes the value and starts where the previous one ended. */
  ghost predicate Chained(flips: seq<Flip>) {
    && (forall i :: 0 <= i < |flips| ==> flips[i].from != flips[i].to)
    && (forall i :: 0 < i < |flips| ==> flips[i].from == flips[i - 1].to)
  }

  lemma {:induction false} FlipsChained(evs: seq<Event>)
    ensures Chained(Flips(evs))
    ensures Flips(evs) != [] ==> Flips(evs)[|Flips(evs)| - 1].to == evs[|evs| - 1].value
  {
    if |evs| > 1 {
      FlipsChained(evs[..|evs| - 1]);
      if Flips(evs[..|evs| - 1]) == [] {
        NoFlipsNoChange(evs[..|evs| - 1]);
      }
    }
  }

  lemma {:induction false} NoFlipsNoChange(evs: seq<Event>)
    requires Flips(evs) == []
    ensures forall i :: 0 <= i < |evs| ==> evs[i].value == evs[0].value
  {
    if |evs| > 1 {
      NoFlipsNoChange(evs[..|evs| - 1]);
    }
  }

  /** Without flapping control the buffer is the bounded suffix of the whole log and nothing is counted. */
  lemma {:induction false} PlainBufferRefinesLog(evs: seq<Event>)
    requires evs != []
    ensures var t := Play(None, evs);
            && t.edge.Some?
            && t.edge.value.recent == LastN(Flips(evs), HARD_LIMIT_RECENT_ITEMS)
            && t.edge.value.flipCount == 0
            && t.edge.value.windowStart == evs[0].now
            && t.edge.value.aggUntilTS == 0
            && t.snapshots == []
  {
    var n := |evs| - 1;
    if n > 0 {
      PlainBufferRefinesLog(evs[..n]);
      TracksLast(None, evs[..n]);
      if evs[n - 1].value != evs[n].value {
        var e := Play(None, evs[..n]).edge.value;
        LastNSnoc(Flips(evs[..n]), FlipOf(e, evs[n]), HARD_LIMIT_RECENT_ITEMS);
      }
    }
  }

  /** The buffer is a suffix of the flip log, whatever the configuration. */
  lemma {:induction false} BufferIsSuffix(f: Option<FlapConfig>, evs: seq<Event>)
    requires evs != []
    ensures var e := Play(f, evs).edge;
            && e.Some?
            && |e.value.recent| <= |Flips(evs)|
            && |e.value.recent| <= HARD_LIMIT_RECENT_ITEMS
            && e.value.recent == Flips(evs)[|Flips(evs)| - |e.value.recent|..]
  {
    if f.Some? {
      BufferRefinesLog(f.value, evs);
    } else {
      PlainBufferRefinesLog(evs);
    }
  }

  /** In every state a run can reach, the buffer is a chain of real changes that ends at the last value. */
  lemma {:induction false} ReachableChain(f: Option<FlapConfig>, evs: seq<Event>)
    requires evs != []
    ensures var e := Play(f, evs).edge;
            && e.Some?
            && Chained(e.value.recent)
            && (e.value.recent != [] ==> e.value.recent[|e.value.recent| - 1].to == e.value.lastValue)
  {
    BufferIsSuffix(f, evs);
    FlipsChained(evs);
    TracksLast(f, evs);
  }

  /** What an aggregate is built from: the buffer with the new flip, capped, and the new value. */
  lemma {:induction false} SourceIsObserved(f: FlapConfig, e: Edge, ev: Event)
    requires Step(Some(e), ev, Some(f)).source.Some?
    ensures var source := Step(Some(e), ev, Some(f)).source.value;
            && e.lastValue != ev.value && source.lastValue == ev.value
            && source.recent == LastN(e.recent + [FlipOf(e, ev)], HARD_LIMIT_RECENT_ITEMS)
            && |source.recent| >= f.aggregateAt > 0
  {
  }

  /** The state an aggregate is built from carries the same chain. */
  lemma {:induction false} AggregateSourceChain(f: FlapConfig, evs: seq<Event>, ev: Event)
    requires evs != []
    requires Step(Play(Some(f), evs).edge, ev, Some(f)).source.Some?
    ensures var e := Step(Play(Some(f), evs).edge, ev, Some(f)).source.value;
            && Chained(e.recent)
            && |e.recent| >= f.aggregateAt > 0
            && e.recent[|e.recent| - 1].to == e.lastValue == ev.value
            && e.recent[|e.recent| - 1].at == ev.now
  {
    ReachableChain(Some(f), evs);
    var e := Play(Some(f), evs).edge.value;
    SourceIsObserved(f, e, ev);
    assert Chained(e.recent + [FlipOf(e, ev)]);
  }

  lemma {:induction false} ItemsLinkBackwards(decode: string -> Option<string>, recent: seq<Flip>, n: nat)
    requires Chained(recent) && n <= |recent|
    ensures var items := Newest(decode, recent, n);
            && (n > 0 ==> items[0] == ItemOf(decode, recent[|recent| - 1]))
            && (forall j :: 0 <= j < n ==> items[j].from != items[j].to)
            && (forall j :: 0 < j < n ==> items[j].to == items[j - 1].from)
  {
    var items := Newest(decode, recent, n);
    assert forall j :: 0 <= j < n ==> items[j] == ItemOf(decode, recent[|recent| - 1 - j]);
    forall j | 0 < j < n
      ensures items[j].to == items[j - 1].from
    {
      assert items[j - 1] == ItemOf(decode, recent[|recent| - j]);
    }
  }

  /**
   * An aggregate lists its newest flips first, each linked to the one after it, the first of them
   * ending at the value the message reports.
   */
  lemma {:induction false} AggregateLinksBackwards(
      f: FlapConfig, evs: seq<Event>, ev: Event, decode: string -> Option<string>, scope: string)
    requires evs != [] && f.aggregateMaxItems > 0
    requires Step(Play(Some(f), evs).edge, ev, Some(f)).source.Some?
    ensures var e := Step(Play(Some(f), evs).edge, ev, Some(f)).source.value;
            var agg := AggregateOf(decode, scope, e, f.aggregateMaxItems);
            && |agg.recent| == Min(f.aggregateMaxItems, |e.recent|) > 0
            && agg.recent[0].to == agg.lastValue == ev.value
            && agg.recent[0].at == ev.now
            && (forall j :: 0 <= j < |agg.recent| ==> agg.recent[j].from != agg.recent[j].to)
            && (forall j :: 0 < j < |agg.recent| ==> agg.recent[j].to == agg.recent[j - 1].from)
  {
    AggregateSourceChain(f, evs, ev);
    var e := Step(Play(Some(f), evs).edge, ev, Some(f)).source.value;
    ItemsLinkBackwards(decode, e.recent, ItemCount(f.aggregateMaxItems, |e.recent|));
  }

  // ---------------------------------------------------------------- aggregates partition the log

  /** The flips of the log that an aggregate over `s` actually took. */
  function Taken(s: Span): Span
  {
    if s.lo + HARD_LIMIT_RECENT_ITEMS >= s.hi then s else Span(s.hi - HARD_LIMIT_RECENT_ITEMS, s.hi)
  }

  lemma {:induction false} TakenSpans(snaps: seq<seq<Flip>>, log: seq<Flip>, cuts: seq<Span>) returns (spans: seq<Span>)
    requires Consumed(snaps, log, cuts)
    requires forall i :: 0 <= i < |cuts| ==> cuts[i].lo < cuts[i].hi
    requires forall i, j :: 0 <= i < j < |cuts| ==> cuts[i].hi <= cuts[j].lo
    ensures |spans| == |snaps|
    ensures forall i :: 0 <= i < |spans| ==>
              spans[i].lo < spans[i].hi == cuts[i].hi && snaps[i] == log[spans[i].lo..spans[i].hi]
    ensures forall i, j :: 0 <= i < j < |spans| ==> spans[i].hi <= spans[j].lo
  {
    spans := seq(|cuts|, i requires 0 <= i < |cuts| => Taken(cuts[i]));
  }

  /**
   * The logs consumed by successive aggregates are nonempty, disjoint, contiguous ranges of the
   * flip log, in commit order, and the buffer lies after all of them: no flip is reported twice.
   */
  lemma {:induction false} AggregatesPartitionLog(f: FlapConfig, evs: seq<Event>) returns (spans: seq<Span>, rest: nat)
    requires evs != []
    ensures var t := Play(Some(f), evs);
            var log := Flips(evs);
            && rest <= |log| && t.edge.Some? && t.edge.value.recent == log[rest..]
            && |spans| == |t.snapshots|
            && (forall i :: 0 <= i < |spans| ==>
                  spans[i].lo < spans[i].hi <= rest && t.snapshots[i] == log[spans[i].lo..spans[i].hi])
            && (forall i, j :: 0 <= i < j < |spans| ==> spans[i].hi <= spans[j].lo)
  {
    var log := Flips(evs);
    var c := Chart(f, evs[0].now, log);
    BufferRefinesLog(f, evs);
    CutsDisjoint(f, evs[0].now, log);
    rest := |log| - |Play(Some(f), evs).edge.value.recent|;
    assert rest >= c.mark && Play(Some(f), evs).edge.value.recent == log[rest..];
    spans := TakenSpans(Play(Some(f), evs).snapshots, log, c.cuts);
  }

  lemma {:induction false} CountSnoc(actions: seq<Action>, a: Action, b: Action)
    ensures Count(actions + [a], b) == Count(actions, b) + (if a == b then 1 else 0)
  {
    assert (actions + [a])[..|actions|] == actions;
  }

  lemma {:induction false} AggregateHasSource(e: Option<Edge>, ev: Event, f: Option<FlapConfig>)
    ensures Step(e, ev, f).action == AggregateSent <==> Step(e, ev, f).source.Some?
  {
  }

  /** The run answers AggregateSent once for every log it consumed. */
  lemma {:induction false} AggregatesCounted(f: Option<FlapConfig>, evs: seq<Event>)
    ensures Count(Play(f, evs).actions, AggregateSent) == |Play(f, evs).snapshots|
  {
    if evs != [] {
      var init, ev := evs[..|evs| - 1], evs[|evs| - 1];
      var t := Play(f, init);
      AggregatesCounted(f, init);
      AggregateHasSource(t.edge, ev, f);
      CountSnoc(t.actions, Step(t.edge, ev, f).action, AggregateSent);
    }
  }

  function Count(actions: seq<Action>, a: Action): nat {
    if actions == [] then 0
    else Count(actions[..|actions| - 1], a) + (if actions[|actions| - 1] == a then 1 else 0)
  }

  lemma {:induction false} CountMembership(actions: seq<Action>, a: Action)
    ensures a in actions <==> Count(actions, a) > 0
  {
    if actions != [] {
      var n := |actions| - 1;
      CountMembership(actions[..n], a);
      assert actions == actions[..n] + [actions[n]];
    }
  }

}
