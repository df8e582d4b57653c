/** Evaluation of one notification and the request pipeline around it, over either backend. */
module Flow {
  import opened Types
  import opened EdgeFlap
  import opened Rows
  import opened Keys
  import opened Limiter
  import opened Store

  /** Which store operations of a request fail; the write can fail before or after taking effect. */
  datatype Faults = Faults(ip: bool, client: bool, load: bool, write: Io, target: bool)

  // ---------------------------------------------------------------- evaluation

  datatype Evaluated = Evaluated(backend: Backend, reply: Reply)

  /** A notification before its payload is encoded; None is an encoding error. */
  datatype Notice = Notice(value: string, now: int, encoded: Option<string>)

  function EventOf(n: Notice): Event {
    Event(n.value, n.now, if n.encoded.Some? then n.encoded.value else "")
  }

  /** Evaluation as a function of what the store holds. The payload is encoded only for a flip. */
  function EvaluateOn(
      b: Backend, client: string, scope: string, n: Notice, f: Option<FlapConfig>, faults: Faults): Evaluated
  {
    var row := RowAt(b, client, scope);
    if faults.load then Evaluated(b, Reply(NoOp, None, true))
    else if row.Some? && row.value.edge.lastValue != n.value && n.encoded.None? then
      Evaluated(b, Reply(NoOp, None, true))
    else
      var d := Decide(EdgeOf(row), EventOf(n), f);
      if d.Stable? then Evaluated(b, Answer(d, Committed))
      else if faults.write.RequestLost? then Evaluated(b, Answer(d, Failed))
      else
        var w := Upserted(b, client, scope, Version(row), d.next);
        Evaluated(w.backend, Answer(d, if faults.write.ReplyLost? then Failed else if w.ok then Committed else Refused))
  }

  /** The aggregate that goes with a reply, if any. */
  function AggregateFor(
      decode: string -> Option<string>, scope: string, source: Option<Edge>, f: Option<FlapConfig>): Option<Aggregate>
  {
    if source.Some? && f.Some? then Some(AggregateOf(decode, scope, source.value, f.value.aggregateMaxItems))
    else None
  }

  /** A conditional write as its caller sees it: whether it was committed, or that it failed. */
  method Write(store: DataStore, client: string, scope: string, ver: int, next: Edge, io: Io)
    returns (ok: bool, err: bool)
    requires Sound(store.View())
    modifies store.Objects()
    ensures Sound(store.View())
    ensures var w := Upserted(old(store.View()), client, scope, ver, next);
            && store.View() == (if io.RequestLost? then old(store.View()) else w.backend)
            && err == !io.Clean? && ok == (io.Clean? && w.ok)
  {
    if io.RequestLost? {
      return false, true;
    }
    ok := store.UpsertCAS(client, scope, ver, next);
    if io.ReplyLost? {
      return false, true;
    }
    return ok, false;
  }

  /** Flapping control over an observed flip: rewrites the state in place and settles the answer. */
  method ControlFlapping(
      store: DataStore, client: string, scope: string, ver: int, seen: Edge, now: int,
      f: FlapConfig, io: Io, decode: string -> Option<string>, rowScope: string)
    returns (action: Action, agg: Option<Aggregate>, err: bool)
    requires Sound(store.View())
    modifies store.Objects()
    ensures Sound(store.View())
    ensures var d := DecideFlap(f, seen, now);
            var w := Upserted(old(store.View()), client, scope, ver, d.next);
            var outcome := if !io.Clean? then Failed else if w.ok then Committed else Refused;
            var reply := Answer(d, outcome);
            && store.View() == (if io.RequestLost? then old(store.View()) else w.backend)
            && action == reply.action && err == reply.err
            && agg == AggregateFor(decode, rowScope, reply.source, Some(f))
  {
    var edgeInfo := seen;
    agg := None;
    var newWindow := false;
    if f.windowSeconds > 0 && now - edgeInfo.windowStart > f.windowSeconds {
      edgeInfo := edgeInfo.(windowStart := now);
      edgeInfo := edgeInfo.(flipCount := 1);
      if |edgeInfo.recent| > 0 {
        edgeInfo := edgeInfo.(recent := edgeInfo.recent[|edgeInfo.recent| - 1..]);
      }
      newWindow := true;
    } else {
      edgeInfo := edgeInfo.(flipCount := edgeInfo.flipCount + 1);
    }
    assert edgeInfo == Tally(f, seen, now) && newWindow == OpensWindow(f, seen, now);

    if edgeInfo.flipCount <= f.suppressBelow {
      var _, _ := Write(store, client, scope, ver, edgeInfo, io);
      return SuppressFlapping, None, false;
    }

    if f.aggregateAt > 0 && !newWindow {
      var built: Option<Aggregate> := None;
      action := SuppressFlapping;
      if edgeInfo.flipCount % f.aggregateAt == 0 && now >= edgeInfo.aggUntilTS && |edgeInfo.recent| >= f.aggregateAt {
        edgeInfo := edgeInfo.(aggUntilTS := now + f.aggregateCooldownSeconds);
        var a := BuildAggregate(decode, rowScope, edgeInfo, f.aggregateMaxItems);
        built := Some(a);
        edgeInfo := edgeInfo.(recent := []);
        action := AggregateSent;
      }
      var ok, failed := Write(store, client, scope, ver, edgeInfo, io);
      if failed {
        return SuppressFlapping, None, true;
      }
      if ok {
        return action, built, false;
      }
      return NoOp, None, false;
    }

    var ok, failed := Write(store, client, scope, ver, edgeInfo, io);
    if failed {
      return NoOp, None, true;
    }
    return if ok then EdgeTriggeredForward else NoOp, None, false;
  }

  /** Edge detection and flapping control for one notification: load, compute, write once, no retry. */
  method Evaluate(
      store: DataStore, client: string, scope: string, n: Notice, f: Option<FlapConfig>,
      faults: Faults, decode: string -> Option<string>)
    returns (action: Action, agg: Option<Aggregate>, err: bool)
    requires Sound(store.View())
    modifies store.Objects()
    ensures Sound(store.View())
    ensures var b := old(store.View());
            var r := EvaluateOn(b, client, scope, n, f, faults);
            && store.View() == r.backend
            && action == r.reply.action && err == r.reply.err
            && agg == AggregateFor(
                 decode, if RowAt(b, client, scope).Some? then RowAt(b, client, scope).value.scopeKey else scope,
                 r.reply.source, f)
  {
    if faults.load {
      return NoOp, None, true;
    }
    var row := store.Load(client, scope);
    if row.None? {
      var ns := Edge(n.value, n.now, n.now, 0, [], 0);
      var ok, failed := Write(store, client, scope, 0, ns, faults.write);
      if failed {
        return NoOp, None, true;
      }
      return if ok then EdgeTriggeredForward else SuppressFlapping, None, false;
    }
    var edgeInfo, ver := row.value.edge, row.value.version;
    if edgeInfo.lastValue == n.value {
      return NoOp, None, false;
    }
    if n.encoded.None? {
      return NoOp, None, true;
    }
    var recent := AppendRecent(
      edgeInfo.recent, Flip(n.now, edgeInfo.lastValue, n.value, n.encoded.value), HARD_LIMIT_RECENT_ITEMS);
    edgeInfo := edgeInfo.(recent := recent);
    edgeInfo := edgeInfo.(lastValue := n.value);
    edgeInfo := edgeInfo.(lastChangeTS := n.now);
    assert edgeInfo == Observe(row.value.edge, EventOf(n));
    if f.Some? {
      action, agg, err := ControlFlapping(
        store, client, scope, ver, edgeInfo, n.now, f.value, faults.write, decode, row.value.scopeKey);
      return;
    }
    var ok, failed := Write(store, client, scope, ver, edgeInfo, faults.write);
    if failed {
      return NoOp, None, true;
    }
    return if ok then EdgeTriggeredForward else NoOp, None, false;
  }

  // ---------------------------------------------------------------- the pipeline

  /** The value that the trigger field selects, string-coerced. */
  datatype Selected = FieldFails | Missing | Value(value: string)

  /** The clock readings of a request, in the order it takes them. */
  datatype Clock = Clock(ip: int, client: int, eval: int, target: int)

  /** A request with everything that is computed outside the store. `hash` is that of the trigger field. */
  datatype Query = Query(
    client: string, ip: string, cc: ClientConfig, hash: nat,
    passthrough: bool, selected: Selected, encoded: Option<string>, clock: Clock, faults: Faults)

  datatype RunError = Fine | RateCheckFailed | IpLimited | ClientLimited | TriggerFieldError | EvaluationError

  /** What the publisher is given: the notification, an aggregate, or nothing. */
  datatype Body = Original | Absent | Digest(aggregate: Aggregate)

  datatype Outcome = Outcome(action: Action, status: int, body: Body, err: RunError)

  datatype Ran = Ran(backend: Backend, outcome: Outcome)

  const ACCEPTED := 202
  const BAD_REQUEST := 400
  const TOO_MANY_REQUESTS := 429
  const INTERNAL_ERROR := 500

  datatype Verdict = Pass | Limited | Broken

  datatype Gated = Gated(backend: Backend, verdict: Verdict)

  /** One limiter of the pipeline; a rate of 0 or less switches it off. */
  function Gate(b: Backend, a: Attempt, fails: bool): Gated {
    if a.cap <= 0 then Gated(b, Pass)
    else if fails then Gated(b, Broken)
    else
      var r := Acquired(b, a);
      Gated(r.backend, if r.ok then Pass else Limited)
  }

  method PassGate(store: DataStore, a: Attempt, fails: bool) returns (v: Verdict)
    requires Sound(store.View())
    modifies store.Objects()
    ensures Sound(store.View())
    ensures Gated(store.View(), v) == Gate(old(store.View()), a, fails)
  {
    if a.cap <= 0 {
      return Pass;
    }
    if fails {
      return Broken;
    }
    var ok := store.Acquire(a);
    return if ok then Pass else Limited;
  }

  function IpAttempt(q: Query): Attempt { Attempt(IpScope(q.ip), q.cc.ipRPM, q.clock.ip) }

  function ClientAttempt(q: Query): Attempt { Attempt(ClientScope(q.client), q.cc.clientRPM, q.clock.client) }

  function TargetAttempt(q: Query): Attempt {
    Attempt(TargetScope(q.client, q.cc.snsArn), q.cc.snsRPM, q.clock.target)
  }

  function NoticeOf(q: Query): Notice
    requires q.selected.Value?
  {
    Notice(q.selected.value, q.clock.eval, q.encoded)
  }

  function BodyOf(agg: Option<Aggregate>): Body {
    if agg.Some? then Digest(agg.value) else Absent
  }

  function DigestFor(b: Backend, q: Query, source: Option<Edge>, decode: string -> Option<string>): Body {
    var scope := ScopeKey(q.hash);
    var row := RowAt(b, q.client, scope);
    BodyOf(AggregateFor(decode, if row.Some? then row.value.scopeKey else scope, source, q.cc.flapping))
  }

  /** The last limiter, for requests that evaluation wants published. */
  function TargetStage(b: Backend, q: Query, action: Action, body: Body): Ran {
    if !Publishes(action) then Ran(b, Outcome(action, ACCEPTED, body, Fine))
    else
      var g := Gate(b, TargetAttempt(q), q.faults.target);
      match g.verdict
      case Pass => Ran(g.backend, Outcome(action, ACCEPTED, body, Fine))
      case Limited => Ran(g.backend, Outcome(NoOp, TOO_MANY_REQUESTS, body, Fine))
      case Broken => Ran(g.backend, Outcome(action, INTERNAL_ERROR, body, RateCheckFailed))
  }

  function EdgeStage(b: Backend, q: Query, decode: string -> Option<string>): Ran {
    if q.passthrough || q.cc.fieldExpr == "" then Ran(b, Outcome(ForwardedAsIs, ACCEPTED, Original, Fine))
    else
      match q.selected
      case FieldFails => Ran(b, Outcome(NoOp, BAD_REQUEST, Original, TriggerFieldError))
      case Missing => Ran(b, Outcome(NoOp, ACCEPTED, Original, Fine))
      case Value(_) =>
        var e := EvaluateOn(b, q.client, ScopeKey(q.hash), NoticeOf(q), q.cc.flapping, q.faults);
        var body := DigestFor(b, q, e.reply.source, decode);
        if e.reply.err then Ran(e.backend, Outcome(e.reply.action, INTERNAL_ERROR, body, EvaluationError))
        else TargetStage(e.backend, q, e.reply.action, body)
  }

  function ClientStage(b: Backend, q: Query, decode: string -> Option<string>): Ran {
    var g := Gate(b, ClientAttempt(q), q.faults.client);
    match g.verdict
    case Pass => EdgeStage(g.backend, q, decode)
    case Limited => Ran(g.backend, Outcome(NoOp, ACCEPTED, Original, ClientLimited))
    case Broken => Ran(g.backend, Outcome(NoOp, ACCEPTED, Original, RateCheckFailed))
  }

  /** The pipeline as a function of what the store holds. */
  function RunOn(b: Backend, q: Query, decode: string -> Option<string>): Ran {
    var g := Gate(b, IpAttempt(q), q.faults.ip);
    match g.verdict
    case Pass => ClientStage(g.backend, q, decode)
    case Limited => Ran(g.backend, Outcome(NoOp, ACCEPTED, Original, IpLimited))
    case Broken => Ran(g.backend, Outcome(NoOp, ACCEPTED, Original, RateCheckFailed))
  }

  /** The part of a request behind the first two limiters. */
  method RunEdge(store: DataStore, q: Query, decode: string -> Option<string>)
    returns (action: Action, status: int, body: Body, err: RunError)
    requires Sound(store.View())
    modifies store.Objects()
    ensures Sound(store.View())
    ensures Ran(store.View(), Outcome(action, status, body, err)) == EdgeStage(old(store.View()), q, decode)
  {
    action, status, body, err := NoOp, ACCEPTED, Original, Fine;
    if q.passthrough {
      action := ForwardedAsIs;
      return;
    }
    if q.cc.fieldExpr == "" {
      action := ForwardedAsIs;
      return;
    }
    if q.selected.FieldFails? {
      status, err := BAD_REQUEST, TriggerFieldError;
      return;
    }
    ghost var all := EdgeStage(store.View(), q, decode);
    if q.selected.Value? {
      var agg, failed;
      action, agg, failed :=
        Evaluate(store, q.client, ScopeKey(q.hash), NoticeOf(q), q.cc.flapping, q.faults, decode);
      body := BodyOf(agg);
      if failed {
        err, status := EvaluationError, INTERNAL_ERROR;
        return;
      }
    }
    assert all == TargetStage(store.View(), q, action, body);
    if Publishes(action) {
      var v := PassGate(store, TargetAttempt(q), q.faults.target);
      if v.Broken? {
        status, err := INTERNAL_ERROR, RateCheckFailed;
      } else if v.Limited? {
        action, status := NoOp, TOO_MANY_REQUESTS;
      }
    }
  }

  /** Processes one request. */
  method Run(store: DataStore, q: Query, decode: string -> Option<string>)
    returns (action: Action, status: int, body: Body, err: RunError)
    requires Sound(store.View())
    modifies store.Objects()
    ensures Sound(store.View())
    ensures Ran(store.View(), Outcome(action, status, body, err)) == RunOn(old(store.View()), q, decode)
  {
    action, status, body, err := NoOp, ACCEPTED, Original, Fine;
    ghost var all := RunOn(store.View(), q, decode);
    var v := PassGate(store, IpAttempt(q), q.faults.ip);
    if !v.Pass? {
      err := if v.Broken? then RateCheckFailed else IpLimited;
      return;
    }
    assert all == ClientStage(store.View(), q, decode);
    v := PassGate(store, ClientAttempt(q), q.faults.client);
    if !v.Pass? {
      err := if v.Broken? then RateCheckFailed else ClientLimited;
      return;
    }
    assert all == EdgeStage(store.View(), q, decode);
    action, status, body, err := RunEdge(store, q, decode);
  }
}
