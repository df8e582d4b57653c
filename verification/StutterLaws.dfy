/** Repeated values do not matter, and when nothing else is filtered either. */
module StutterLaws {
  import opened Types
  import opened EdgeFlap
  import opened EdgeRuns
  import opened EdgeLaws

  /** Keeps the first event of every stretch of equal values. */
  function Destutter(evs: seq<Event>): seq<Event> {
    if |evs| <= 1 then evs
    else
      var n := |evs| - 1;
      if evs[n - 1].value == evs[n].value then Destutter(evs[..n]) else Destutter(evs[..n]) + [evs[n]]
  }

  /** The answers other than NoOp, in order. */
  function Loud(actions: seq<Action>): seq<Action> {
    if actions == [] then []
    else
      var n := |actions| - 1;
      if actions[n] == NoOp then Loud(actions[..n]) else Loud(actions[..n]) + [actions[n]]
  }

  lemma {:induction false} LoudSnoc(actions: seq<Action>, a: Action)
    ensures Loud(actions + [a]) == if a == NoOp then Loud(actions) else Loud(actions) + [a]
  {
    assert (actions + [a])[..|actions|] == actions;
  }

  /** A committed flip is never answered with NoOp. */
  lemma {:induction false} FlipIsLoud(e: Edge, ev: Event, f: Option<FlapConfig>)
    ensures Step(Some(e), ev, f).action == NoOp <==> e.lastValue == ev.value
    ensures e.lastValue == ev.value ==> Step(Some(e), ev, f).next == e && Step(Some(e), ev, f).source == None
  {
  }

  /** Two runs that leave the same state, the same consumed logs and the same loud answers. */
  predicate Alike(t: Trace, u: Trace) {
    t.edge == u.edge && t.snapshots == u.snapshots && Loud(t.actions) == Loud(u.actions)
  }

  /** The run over `ds` is the run over `evs` with its NoOps left out. */
  predicate Preserved(f: Option<FlapConfig>, ds: seq<Event>, evs: seq<Event>) {
    Alike(Play(f, ds), Play(f, evs)) && Loud(Play(f, ds).actions) == Play(f, ds).actions
  }

  lemma {:induction false} DestutterSnoc(evs: seq<Event>, ev: Event)
    requires evs != []
    ensures Destutter(evs + [ev]) ==
              if evs[|evs| - 1].value == ev.value then Destutter(evs) else Destutter(evs) + [ev]
  {
    assert (evs + [ev])[..|evs|] == evs;
  }

  /** Dropping consecutive repeats changes neither the state nor the loud answers, and leaves no NoOp. */
  lemma {:induction false} DestutterPreserves(f: Option<FlapConfig>, evs: seq<Event>)
    ensures Preserved(f, Destutter(evs), evs)
  {
    var n := |evs| - 1;
    if n == 0 {
      assert evs == [evs[0]];
      FirstIsLoud(f, evs[0]);
    } else if n > 0 {
      var init, ev := evs[..n], evs[n];
      assert evs == init + [ev];
      LastValueTracked(f, init);
      DestutterPreserves(f, init);
      DestutterStep(f, Destutter(init), init, ev);
      DestutterSnoc(init, ev);
    }
  }

  lemma {:induction false} LastValueTracked(f: Option<FlapConfig>, evs: seq<Event>)
    requires evs != []
    ensures Play(f, evs).edge.Some? && Play(f, evs).edge.value.lastValue == evs[|evs| - 1].value
  {
    TracksLast(f, evs);
  }

  lemma {:induction false} FirstIsLoud(f: Option<FlapConfig>, ev: Event)
    ensures Preserved(f, [ev], [ev])
  {
    assert [ev][..0] == [];
    assert Play(f, [ev]).actions == [] + [EdgeTriggeredForward];
    LoudSnoc([], EdgeTriggeredForward);
  }

  lemma {:induction false} DestutterStep(f: Option<FlapConfig>, ds: seq<Event>, evs: seq<Event>, ev: Event)
    requires Preserved(f, ds, evs) && Play(f, evs).edge.Some?
    ensures Preserved(f, if Play(f, evs).edge.value.lastValue == ev.value then ds else ds + [ev], evs + [ev])
  {
    var t, u := Play(f, evs), Play(f, ds);
    var r := Step(t.edge, ev, f);
    assert (evs + [ev])[..|evs|] == evs;
    assert (ds + [ev])[..|ds|] == ds;
    assert Play(f, evs + [ev]) == Extend(f, t, ev);
    assert Play(f, ds + [ev]) == Extend(f, u, ev);
    FlipIsLoud(t.edge.value, ev, f);
    LoudSnoc(t.actions, r.action);
    LoudSnoc(u.actions, r.action);
  }

  // ---------------------------------------------------------------- transparent settings

  /** No flapping control, or one that neither suppresses nor aggregates. */
  predicate Transparent(f: Option<FlapConfig>) {
    f.Some? ==> f.value.aggregateAt <= 0 && f.value.suppressBelow <= 0
  }

  function Values(evs: seq<Event>): seq<string> {
    seq(|evs|, i requires 0 <= i < |evs| => evs[i].value)
  }

  /** The values of the events that were forwarded. */
  function Forwarded(f: Option<FlapConfig>, evs: seq<Event>): seq<string> {
    if evs == [] then []
    else
      var n := |evs| - 1;
      var rest := Forwarded(f, evs[..n]);
      if Step(Play(f, evs[..n]).edge, evs[n], f).action == EdgeTriggeredForward then rest + [evs[n].value] else rest
  }

  lemma {:induction false} TransparentFlipForwards(f: Option<FlapConfig>, e: Edge, ev: Event)
    requires Transparent(f) && e.flipCount >= 0 && e.lastValue != ev.value
    ensures Step(Some(e), ev, f).action == EdgeTriggeredForward
  {
  }

  lemma {:induction false} ForwardedSnoc(f: Option<FlapConfig>, evs: seq<Event>, ev: Event)
    ensures Forwarded(f, evs + [ev]) ==
              Forwarded(f, evs)
              + (if Step(Play(f, evs).edge, ev, f).action == EdgeTriggeredForward then [ev.value] else [])
  {
    assert (evs + [ev])[..|evs|] == evs;
  }

  lemma {:induction false} TransparentForwards(f: Option<FlapConfig>, evs: seq<Event>)
    requires Transparent(f)
    ensures Forwarded(f, evs) == Values(Destutter(evs))
  {
    var n := |evs| - 1;
    if n == 0 {
      assert evs == [] + [evs[0]];
      ForwardedSnoc(f, [], evs[0]);
    } else if n > 0 {
      var init, ev := evs[..n], evs[n];
      assert evs == init + [ev];
      TransparentForwards(f, init);
      LastValueTracked(f, init);
      CountNonNegative(f, init);
      var e := Play(f, init).edge.value;
      FlipIsLoud(e, ev, f);
      ForwardedSnoc(f, init, ev);
      DestutterSnoc(init, ev);
      if e.lastValue != ev.value {
        TransparentFlipForwards(f, e, ev);
        assert Values(Destutter(init) + [ev]) == Values(Destutter(init)) + [ev.value];
      }
    }
  }

  lemma {:induction false} CountNonNegative(f: Option<FlapConfig>, evs: seq<Event>)
    requires evs != []
    ensures Play(f, evs).edge.Some? && Play(f, evs).edge.value.flipCount >= 0
  {
    if f.Some? {
      BufferRefinesLog(f.value, evs);
    } else {
      PlainBufferRefinesLog(evs);
    }
  }

  /** Every run forwards exactly its destuttered values if and only if the settings are transparent. */
  lemma {:induction false} TransparentExactly(f: Option<FlapConfig>)
    ensures (forall evs: seq<Event> :: Forwarded(f, evs) == Values(Destutter(evs))) <==> Transparent(f)
  {
    if Transparent(f) {
      forall evs: seq<Event>
        ensures Forwarded(f, evs) == Values(Destutter(evs))
      {
        TransparentForwards(f, evs);
      }
    } else {
      FilteredPair(f);
    }
  }

  lemma {:induction false} FirstFlipFiltered(f: Option<FlapConfig>, a: Event, b: Event)
    requires !Transparent(f) && a.now == b.now
    ensures Step(Some(FirstEdge(a)), b, f).action != EdgeTriggeredForward
  {
  }

  /** The second of two different values seen at once is not forwarded. */
  lemma {:induction false} FilteredPair(f: Option<FlapConfig>)
    requires !Transparent(f)
    ensures var evs := [Event("a", 0, ""), Event("b", 0, "")];
            Forwarded(f, evs) != Values(Destutter(evs))
  {
    var a, b := Event("a", 0, ""), Event("b", 0, "");
    var evs := [a, b];
    assert evs[..1] == [a] && [a][..0] == [];
    assert Play(f, [a]).edge == Some(FirstEdge(a));
    FirstFlipFiltered(f, a, b);
    assert |Forwarded(f, [])| == 0 && |Forwarded(f, [a])| <= 1;
    assert Destutter(evs) == [a, b];
  }
}
