/** What every evaluation tells its caller, and what every aggregate message says, read off the flip log. */
module AnswerLaws {
  import opened Types
  import opened EdgeFlap
  import opened EdgeRuns
  import opened EdgeLaws
  import opened WindowLaws

  // ---------------------------------------------------------------- answers

  /** What the caller is told. */
  datatype Told = Told(action: Action, err: bool)

  /**
   * The `n`th flip of a log, read at `c`: a suppressed flip is told the same whatever becomes of its
   * write; the first flip of a new window, and every flip without aggregation, asks for a forward; the others
   * ask for an aggregate when one is due and for nothing when not.
   */
  function FlipTold(f: FlapConfig, c: Cursor, n: int, at: int, fate: CasOutcome): Told {
    var count := if Rolls(f, c, at) then 1 else n - c.first;
    if count <= f.suppressBelow then Told(SuppressFlapping, false)
    else if Rolls(f, c, at) || f.aggregateAt <= 0 then
      match fate
      case Committed => Told(EdgeTriggeredForward, false)
      case Refused => Told(NoOp, false)
      case Failed => Told(NoOp, true)
    else
      match fate
      case Committed => Told(if n >= 0 && Due(f, c, n, at) then AggregateSent else SuppressFlapping, false)
      case Refused => Told(NoOp, false)
      case Failed => Told(SuppressFlapping, true)
  }

  /** The answer to an event after the committed events `past`, given the fate of its write. */
  function EventTold(f: Option<FlapConfig>, past: seq<Event>, ev: Event, fate: CasOutcome): Told {
    if past == [] then
      match fate
      case Committed => Told(EdgeTriggeredForward, false)
      case Refused => Told(SuppressFlapping, false)
      case Failed => Told(NoOp, true)
    else if past[|past| - 1].value == ev.value then Told(NoOp, false)
    else if f.None? then
      match fate
      case Committed => Told(EdgeTriggeredForward, false)
      case Refused => Told(NoOp, false)
      case Failed => Told(NoOp, true)
    else
      FlipTold(f.value, Chart(f.value, past[0].now, Flips(past)), |Flips(past)| + 1, ev.now, fate)
  }

  lemma {:induction false} FlipAnswerReads(
      f: FlapConfig, e: Edge, flips: seq<Flip>, c: Cursor, ev: Event, fate: CasOutcome)
    requires Reads(e, flips, c) && e.lastValue != ev.value
    ensures var r := Answer(Decide(Some(e), ev, Some(f)), fate);
            && Told(r.action, r.err) == FlipTold(f, c, |flips| + 1, ev.now, fate)
            && (r.source.Some? <==> r.action == AggregateSent)
  {
    FlipReads(f, e, flips, c, ev);
  }

  lemma {:induction false} RunFlipReads(f: FlapConfig, past: seq<Event>, ev: Event, fate: CasOutcome)
    requires past != [] && past[|past| - 1].value != ev.value
    ensures var r := Answer(Decide(Play(Some(f), past).edge, ev, Some(f)), fate);
            && Told(r.action, r.err) == EventTold(Some(f), past, ev, fate)
            && (r.source.Some? <==> r.action == AggregateSent)
  {
    TracksLast(Some(f), past);
    BufferRefinesLog(f, past);
    FlipAnswerReads(
      f, Play(Some(f), past).edge.value, Flips(past), Chart(f, past[0].now, Flips(past)), ev, fate);
  }

  /**
   * For every configuration, every run and every fate of the write, the answer is the one read off the
   * unbounded flip log of the committed events.
   */
  lemma {:induction false} AnswerReadsLog(f: Option<FlapConfig>, past: seq<Event>, ev: Event, fate: CasOutcome)
    ensures var r := Answer(Decide(Play(f, past).edge, ev, f), fate);
            && Told(r.action, r.err) == EventTold(f, past, ev, fate)
            && (r.source.Some? <==> r.action == AggregateSent)
  {
    if past != [] {
      TracksLast(f, past);
      if f.Some? && past[|past| - 1].value != ev.value {
        RunFlipReads(f.value, past, ev, fate);
      }
    }
  }

  /** The answers of an unraced run, read off its events alone. */
  function AnswersTo(f: Option<FlapConfig>, evs: seq<Event>): seq<Action> {
    if evs == [] then []
    else
      var n := |evs| - 1;
      AnswersTo(f, evs[..n]) + [EventTold(f, evs[..n], evs[n], Committed).action]
  }

  /** Every answer of every run of every configuration. */
  lemma {:induction false} ActionsExact(f: Option<FlapConfig>, evs: seq<Event>)
    ensures Play(f, evs).actions == AnswersTo(f, evs)
  {
    if evs != [] {
      var n := |evs| - 1;
      ActionsExact(f, evs[..n]);
      AnswerReadsLog(f, evs[..n], evs[n], Committed);
      assert Play(f, evs) == Extend(f, Play(f, evs[..n]), evs[n]);
    }
  }

  // ---------------------------------------------------------------- aggregate messages

  /** The item of an aggregate for a flip: its payload decoded, or null when it is empty or does not decode. */
  predicate ItemSays(it: Item, x: Flip, decode: string -> Option<string>) {
    && it.at == x.at && it.from == x.from && it.to == x.to
    && it.payload == (if x.payload == "" then None else decode(x.payload))
  }

  /**
   * What the message says of a log whose last flip caused it, read at `c` before that flip: the window's
   * start, the number of its flips, and the newest flips that were not reported yet, at most `k` of them and at
   * most 128, newest first, none for a `k` of 0 or less.
   */
  ghost predicate MessageSays(
      agg: Aggregate, scope: string, log: seq<Flip>, c: Cursor, k: int, decode: string -> Option<string>)
  {
    && log != [] && c.mark <= |log|
    && agg.scope == scope
    && agg.lastValue == log[|log| - 1].to
    && agg.windowStart == c.start
    && agg.flipCount == |log| - c.first
    && |agg.recent| == (if k <= 0 then 0 else Min(k, Min(|log| - c.mark, 128)))
    && forall j :: 0 <= j < |agg.recent| ==> ItemSays(agg.recent[j], log[|log| - 1 - j], decode)
  }

  /** The newest entries of a capped suffix are the newest entries of the log. */
  lemma {:induction false} ItemsRead(
      decode: string -> Option<string>, log: seq<Flip>, mark: nat, recent: seq<Flip>, k: int)
    requires mark <= |log| && recent == LastN(log[mark..], 128)
    ensures var items := Newest(decode, recent, ItemCount(k, |recent|));
            && |items| == (if k <= 0 then 0 else Min(k, Min(|log| - mark, 128)))
            && forall j :: 0 <= j < |items| ==> ItemSays(items[j], log[|log| - 1 - j], decode)
  {
    var items := Newest(decode, recent, ItemCount(k, |recent|));
    forall j | 0 <= j < |items|
      ensures ItemSays(items[j], log[|log| - 1 - j], decode)
    {
      assert recent[|recent| - 1 - j] == log[|log| - 1 - j];
      assert items[j] == ItemOf(decode, recent[|recent| - 1 - j]);
    }
  }

  lemma {:induction false} SourceReads(f: FlapConfig, e: Edge, past: seq<Flip>, c: Cursor, ev: Event)
    requires Reads(e, past, c) && Step(Some(e), ev, Some(f)).source.Some?
    ensures Step(Some(e), ev, Some(f)).source.value.recent == LastN((past + [FlipOf(e, ev)])[c.mark..], 128)
  {
    SourceIsObserved(f, e, ev);
    FlipReads(f, e, past, c, ev);
  }

  lemma {:induction false} SourceSays(
      f: FlapConfig, e: Edge, past: seq<Flip>, c: Cursor, ev: Event,
      decode: string -> Option<string>, scope: string, k: int)
    requires Reads(e, past, c) && Step(Some(e), ev, Some(f)).source.Some?
    ensures var source := Step(Some(e), ev, Some(f)).source.value;
            MessageSays(AggregateOf(decode, scope, source, k), scope, past + [FlipOf(e, ev)], c, k, decode)
  {
    SourceIsObserved(f, e, ev);
    SourceCounts(f, e, ev);
    var source := Step(Some(e), ev, Some(f)).source.value;
    SourceReads(f, e, past, c, ev);
    ItemsRead(decode, past + [FlipOf(e, ev)], c.mark, source.recent, k);
  }

  lemma {:induction false} SourceCounts(f: FlapConfig, e: Edge, ev: Event)
    requires Step(Some(e), ev, Some(f)).source.Some?
    ensures var source := Step(Some(e), ev, Some(f)).source.value;
            source.windowStart == e.windowStart && source.flipCount == e.flipCount + 1
  {
  }

  /** Every aggregate of every run says what the flip log says. */
  lemma {:induction false} AggregateReadsLog(
      f: FlapConfig, evs: seq<Event>, ev: Event, decode: string -> Option<string>, scope: string, k: int)
    requires evs != [] && Step(Play(Some(f), evs).edge, ev, Some(f)).source.Some?
    ensures var source := Step(Play(Some(f), evs).edge, ev, Some(f)).source.value;
            MessageSays(AggregateOf(decode, scope, source, k), scope, Flips(evs + [ev]),
                        Chart(f, evs[0].now, Flips(evs)), k, decode)
  {
    TracksLast(Some(f), evs);
    BufferRefinesLog(f, evs);
    var e := Play(Some(f), evs).edge.value;
    SourceIsObserved(f, e, ev);
    FlipsExtend(evs, ev);
    SourceSays(f, e, Flips(evs), Chart(f, evs[0].now, Flips(evs)), ev, decode, scope, k);
  }
}
