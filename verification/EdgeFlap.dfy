/** The edge/flap state machine: what one notification does to the state of its key. */
module EdgeFlap {
  import opened Types

  datatype Action =
    | NoOp
    | SuppressFlapping
    | SuppressDedup
    | EdgeTriggeredForward
    | ForwardedAsIs
    | AggregateSent

  /** True of the actions that edge evaluation uses to ask for a publish. */
  predicate Publishes(a: Action) {
    a == EdgeTriggeredForward || a == AggregateSent
  }

  /** A notification as evaluation sees it: selected value, clock reading, encoded payload. */
  datatype Event = Event(value: string, now: int, payload: string)

  /** Which of the four writing paths a decision took; they differ in how a refused or failed write is answered. */
  datatype Path = First | Suppressed | Counted | Plain

  /**
   * What evaluation wants after a load: nothing, or a write of `next`. `source` is the state an
   * aggregate is built from, before its log is trimmed; it is present exactly on aggregation.
   */
  datatype Decision = Stable | Write(path: Path, next: Edge, source: Option<Edge>)

  /** How the store answered a write. */
  datatype CasOutcome = Committed | Refused | Failed

  /** What the caller of one evaluation sees; `err` is the error return. */
  datatype Reply = Reply(action: Action, source: Option<Edge>, err: bool)

  function FlipOf(e: Edge, ev: Event): Flip {
    Flip(ev.now, e.lastValue, ev.value, ev.payload)
  }

  /** The state after the flip is recorded and before flapping control looks at it. */
  function Observe(e: Edge, ev: Event): Edge {
    e.(recent := LastN(e.recent + [FlipOf(e, ev)], HARD_LIMIT_RECENT_ITEMS),
       lastValue := ev.value,
       lastChangeTS := ev.now)
  }

  predicate OpensWindow(f: FlapConfig, e: Edge, now: int) {
    f.windowSeconds > 0 && now - e.windowStart > f.windowSeconds
  }

  /** Window accounting for an observed flip: a tumbling window restarted by the first flip after it. */
  function Tally(f: FlapConfig, e: Edge, now: int): Edge {
    if OpensWindow(f, e, now) then
      e.(windowStart := now, flipCount := 1, recent := LastN(e.recent, 1))
    else
      e.(flipCount := e.flipCount + 1)
  }

  predicate AggregateDue(f: FlapConfig, e: Edge, now: int)
    requires f.aggregateAt > 0
  {
    e.flipCount % f.aggregateAt == 0 && now >= e.aggUntilTS && |e.recent| >= f.aggregateAt
  }

  function FirstEdge(ev: Event): Edge {
    Edge(ev.value, ev.now, ev.now, 0, [], 0)
  }

  function DecideFlap(f: FlapConfig, seen: Edge, now: int): Decision {
    var e := Tally(f, seen, now);
    if e.flipCount <= f.suppressBelow then
      Write(Suppressed, e, None)
    else if f.aggregateAt > 0 && !OpensWindow(f, seen, now) then
      if AggregateDue(f, e, now) then
        Write(Counted, e.(aggUntilTS := now + f.aggregateCooldownSeconds, recent := []), Some(e))
      else
        Write(Counted, e, None)
    else
      Write(Plain, e, None)
  }

  function Decide(e: Option<Edge>, ev: Event, f: Option<FlapConfig>): Decision {
    match e
    case None => Write(First, FirstEdge(ev), None)
    case Some(e) =>
      if e.lastValue == ev.value then Stable
      else if f.Some? then DecideFlap(f.value, Observe(e, ev), ev.now)
      else Write(Plain, Observe(e, ev), None)
  }

  /** The answer to the caller once the write of a decision has succeeded, lost its race or failed. */
  function Answer(d: Decision, c: CasOutcome): Reply {
    match d
    case Stable => Reply(NoOp, None, false)
    case Write(Suppressed, _, _) => Reply(SuppressFlapping, None, false)
    case Write(First, _, _) =>
      (match c
       case Committed => Reply(EdgeTriggeredForward, None, false)
       case Refused => Reply(SuppressFlapping, None, false)
       case Failed => Reply(NoOp, None, true))
    case Write(Counted, _, source) =>
      (match c
       case Committed => Reply(if source.Some? then AggregateSent else SuppressFlapping, source, false)
       case Refused => Reply(NoOp, None, false)
       case Failed => Reply(SuppressFlapping, None, true))
    case Write(Plain, _, _) =>
      (match c
       case Committed => Reply(EdgeTriggeredForward, None, false)
       case Refused => Reply(NoOp, None, false)
       case Failed => Reply(NoOp, None, true))
  }

  /** One unraced call: the state it leaves, the action it answers, the state its aggregate was built from. */
  datatype StepResult = StepResult(next: Edge, action: Action, source: Option<Edge>)

  function Step(e: Option<Edge>, ev: Event, f: Option<FlapConfig>): StepResult {
    var d := Decide(e, ev, f);
    var a := Answer(d, Committed);
    StepResult(if d.Stable? then e.value else d.next, a.action, a.source)
  }

  /** One entry of an aggregate message. */
  datatype Item = Item(at: int, from: string, to: string, payload: Option<string>)

  datatype Aggregate = Aggregate(
    scope: string,
    lastValue: string,
    windowStart: int,
    flipCount: int,
    recent: seq<Item>)

  /** `decode` stands for payload decoding; None is a decoding error, which leaves the payload null. */
  function ItemOf(decode: string -> Option<string>, f: Flip): Item {
    Item(f.at, f.from, f.to, if f.payload != "" then decode(f.payload) else None)
  }

  /** The newest `n` flips as items, newest first. */
  function Newest(decode: string -> Option<string>, recent: seq<Flip>, n: nat): seq<Item>
    requires n <= |recent|
  {
    seq(n, j requires 0 <= j < n => ItemOf(decode, recent[|recent| - 1 - j]))
  }

  /** The number of items an aggregate carries: a configured maximum of 0 or less yields none. */
  function ItemCount(k: int, recorded: nat): nat {
    if k <= 0 then 0 else Min(k, recorded)
  }

  function AggregateOf(decode: string -> Option<string>, scope: string, e: Edge, k: int): Aggregate {
    Aggregate(scope, e.lastValue, e.windowStart, e.flipCount, Newest(decode, e.recent, ItemCount(k, |e.recent|)))
  }

  /** Walks the log from its newest entry downwards. */
  method BuildAggregate(decode: string -> Option<string>, scope: string, e: Edge, k: int)
    returns (agg: Aggregate)
    ensures agg == AggregateOf(decode, scope, e, k)
    ensures agg.scope == scope && agg.lastValue == e.lastValue
    ensures agg.windowStart == e.windowStart && agg.flipCount == e.flipCount
    ensures |agg.recent| == if k <= 0 then 0 else Min(k, |e.recent|)
    ensures forall j :: 0 <= j < |agg.recent| ==>
              var x := e.recent[|e.recent| - 1 - j];
              agg.recent[j] == Item(x.at, x.from, x.to, if x.payload == "" then None else decode(x.payload))
  {
    var items := [];
    var num := |e.recent|;
    if k > 0 && num > 0 {
      var limit := k;
      if limit > num {
        limit := num;
      }
      var i := num - 1;
      while i > num - limit - 1
        invariant num - limit - 1 <= i < num
        invariant |items| == num - 1 - i
        invariant forall j :: 0 <= j < |items| ==> items[j] == ItemOf(decode, e.recent[num - 1 - j])
      {
        var it := e.recent[i];
        var pl: Option<string> := None;
        if it.payload != "" {
          pl := decode(it.payload);
        }
        items := items + [Item(it.at, it.from, it.to, pl)];
        i := i - 1;
      }
    }
    agg := Aggregate(scope, e.lastValue, e.windowStart, e.flipCount, items);
  }
}
