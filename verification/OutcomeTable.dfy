/**
 * The outcome of every request, spelled out from the counters it finds on arrival and the events committed
 * before it for its field, and what it leaves behind.
 */
module OutcomeTable {
  import opened Types
  import opened EdgeFlap
  import opened EdgeRuns
  import opened AnswerLaws
  import opened WindowLaws
  import opened Rows
  import opened Keys
  import opened Limiter
  import opened Store
  import opened Flow
  import opened FlowLaws
  import opened OutcomeLaws
  import C = CasProtocol
  import Ddb
  import Redis

  // ---------------------------------------------------------------- the three limiters

  /** The tokens already taken from the buckets that a request would draw from. */
  datatype Counts = Counts(ip: nat, client: nat, target: nat)

  function CountsOn(b: Backend, q: Query): Counts {
    Counts(TokensAt(b, Bucket("IP:" + q.ip, Minute(q.clock.ip))),
           TokensAt(b, Bucket("CLIENT:" + q.client, Minute(q.clock.client))),
           TokensAt(b, Bucket("TARGET:" + q.client + ":" + q.cc.snsArn, Minute(q.clock.target))))
  }

  /** A limiter with `used` tokens taken; a rate of 0 or less switches it off. */
  function VerdictAt(used: nat, rate: int, fails: bool): Verdict {
    if rate <= 0 then Pass else if fails then Broken else if used >= rate then Limited else Pass
  }

  function IpVerdict(n: Counts, q: Query): Verdict { VerdictAt(n.ip, q.cc.ipRPM, q.faults.ip) }

  function ClientVerdict(n: Counts, q: Query): Verdict { VerdictAt(n.client, q.cc.clientRPM, q.faults.client) }

  function TargetVerdict(n: Counts, q: Query): Verdict { VerdictAt(n.target, q.cc.snsRPM, q.faults.target) }

  lemma {:induction false} GateVerdict(b: Backend, a: Attempt, fails: bool)
    requires Sound(b)
    ensures Gate(b, a, fails).verdict
         == VerdictAt(TokensAt(b, BucketOf(a)), a.cap, fails)
  {
    AcquireSpec(b, a);
  }

  lemma {:induction false} FrontVerdicts(b: Backend, q: Query)
    requires Sound(b)
    ensures var g := Gate(b, IpAttempt(q), q.faults.ip);
            && g.verdict == IpVerdict(CountsOn(b, q), q)
            && Gate(g.backend, ClientAttempt(q), q.faults.client).verdict == ClientVerdict(CountsOn(b, q), q)
  {
    var g := Gate(b, IpAttempt(q), q.faults.ip);
    ScopesDistinct(q.ip, q.client, q.client, q.cc.snsArn);
    GateSpec(b, IpAttempt(q), q.faults.ip);
    GateVerdict(b, IpAttempt(q), q.faults.ip);
    GateVerdict(g.backend, ClientAttempt(q), q.faults.client);
    assert TokensAt(g.backend, BucketOf(ClientAttempt(q))) == TokensAt(b, BucketOf(ClientAttempt(q)));
  }

  // ---------------------------------------------------------------- evaluation

  /** The row of the request's field is the fold of `past`. */
  predicate Holds(b: Backend, q: Query, past: seq<Event>) {
    RowAt(b, q.client, ScopeKey(q.hash)) == C.RowOf(q.cc.flapping, ScopeKey(q.hash), past)
  }

  function EventIn(q: Query): Event
    requires q.selected.Value?
  {
    Event(q.selected.value, q.clock.eval, if q.encoded.Some? then q.encoded.value else "")
  }

  predicate IsFlip(q: Query, past: seq<Event>)
    requires q.selected.Value?
  {
    past != [] && past[|past| - 1].value != q.selected.value
  }

  /** A flip whose payload cannot be encoded, and a failing load, are errors before any decision. */
  predicate FailsEarly(q: Query, past: seq<Event>)
    requires q.selected.Value?
  {
    q.faults.load || (IsFlip(q, past) && q.encoded.None?)
  }

  function ToldBy(q: Query, past: seq<Event>): Told
    requires q.selected.Value?
  {
    if FailsEarly(q, past) then Told(NoOp, true)
    else EventTold(q.cc.flapping, past, EventIn(q), if q.faults.write.Clean? then Committed else Failed)
  }

  /** A first observation or a flip is committed unless it fails before its write takes effect. */
  predicate Commits(q: Query, past: seq<Event>)
    requires q.selected.Value?
  {
    !FailsEarly(q, past) && (past == [] || IsFlip(q, past)) && !q.faults.write.RequestLost?
  }

  lemma {:induction false} DecisionOf(f: Option<FlapConfig>, past: seq<Event>, ev: Event)
    ensures Decide(Play(f, past).edge, ev, f).Write? <==> past == [] || past[|past| - 1].value != ev.value
  {
    if past != [] {
      TracksLast(f, past);
    }
  }

  lemma {:induction false} HeldRow(b: Backend, q: Query, past: seq<Event>)
    requires Holds(b, q, past)
    ensures var row := RowAt(b, q.client, ScopeKey(q.hash));
            && EdgeOf(row) == Play(q.cc.flapping, past).edge && Version(row) == |past| && Versioned(b, q)
            && (row.Some? <==> past != [])
            && (past != [] ==> row.value.edge.lastValue == past[|past| - 1].value)
            && (row.Some? ==> row.value.scopeKey == ScopeKey(q.hash))
  {
    C.RowHoldsFold(q.cc.flapping, ScopeKey(q.hash), past);
    if past != [] {
      TracksLast(q.cc.flapping, past);
    }
  }

  lemma {:induction false} WriteKeepsFold(b: Backend, q: Query, past: seq<Event>, next: Edge)
    requires Sound(b) && q.selected.Value? && Holds(b, q, past)
    requires var d := Decide(Play(q.cc.flapping, past).edge, EventIn(q), q.cc.flapping);
             d.Write? && d.next == next
    ensures var u := Upserted(b, q.client, ScopeKey(q.hash), Version(RowAt(b, q.client, ScopeKey(q.hash))), next);
            u.ok && Holds(u.backend, q, past + [EventIn(q)])
  {
    var scope := ScopeKey(q.hash);
    var prev := Version(RowAt(b, q.client, scope));
    HeldRow(b, q, past);
    FreshWriteLands(b, q.client, q.hash, next);
    C.RowOfSnoc(q.cc.flapping, scope, past, EventIn(q));
    match b
    case OnDdb(t) => Ddb.UpsertIsCas(t, q.client, scope, prev, next);
    case OnRedis(t) => Redis.UpsertIsCasExactly(t, q.client, q.hash, prev, next);
  }

  lemma {:induction false} EarlyFailure(b: Backend, q: Query, past: seq<Event>)
    requires q.selected.Value? && Holds(b, q, past) && FailsEarly(q, past)
    ensures EvaluateOn(b, q.client, ScopeKey(q.hash), NoticeOf(q), q.cc.flapping, q.faults)
         == Evaluated(b, Reply(NoOp, None, true))
  {
    HeldRow(b, q, past);
  }

  /** Without early failure, the store after evaluation and the fate of its write. */
  lemma {:induction false} DecidedEvaluation(b: Backend, q: Query, past: seq<Event>, d: Decision)
    requires Sound(b) && q.selected.Value? && Holds(b, q, past) && !FailsEarly(q, past)
    requires d == Decide(Play(q.cc.flapping, past).edge, EventIn(q), q.cc.flapping)
    ensures var e := EvaluateOn(b, q.client, ScopeKey(q.hash), NoticeOf(q), q.cc.flapping, q.faults);
            && e.reply == Answer(d, if q.faults.write.Clean? then Committed else Failed)
            && Holds(e.backend, q, if Commits(q, past) then past + [EventIn(q)] else past)
  {
    HeldRow(b, q, past);
    DecisionOf(q.cc.flapping, past, EventIn(q));
    EvaluateShape(b, q, d);
    if d.Write? {
      WriteKeepsFold(b, q, past, d.next);
    }
  }

  /** Evaluation, read off the events committed before it: its answer, its aggregate and the events after it. */
  lemma {:induction false} EvaluationTold(b: Backend, q: Query, past: seq<Event>)
    requires Sound(b) && q.selected.Value? && Holds(b, q, past)
    ensures var e := EvaluateOn(b, q.client, ScopeKey(q.hash), NoticeOf(q), q.cc.flapping, q.faults);
            && Told(e.reply.action, e.reply.err) == ToldBy(q, past)
            && (e.reply.source.Some? <==> e.reply.action == AggregateSent)
            && (e.reply.source.Some? ==>
                  e.reply.source == Step(Play(q.cc.flapping, past).edge, EventIn(q), q.cc.flapping).source)
            && Holds(e.backend, q, if Commits(q, past) then past + [EventIn(q)] else past)
  {
    if FailsEarly(q, past) {
      EarlyFailure(b, q, past);
    } else {
      var d := Decide(Play(q.cc.flapping, past).edge, EventIn(q), q.cc.flapping);
      DecidedEvaluation(b, q, past, d);
      AnswerReadsLog(q.cc.flapping, past, EventIn(q), if q.faults.write.Clean? then Committed else Failed);
    }
  }

  // ---------------------------------------------------------------- the whole request

  /** The action, status and error of an outcome. */
  datatype Reported = Reported(action: Action, status: int, err: RunError)

  function ReportOf(o: Outcome): Reported {
    Reported(o.action, o.status, o.err)
  }

  /** Passed through, or without a trigger field: forwarded without evaluation. */
  predicate Forwards(q: Query) {
    q.passthrough || q.cc.fieldExpr == ""
  }

  predicate Evaluates(q: Query) {
    !Forwards(q) && q.selected.Value?
  }

  function TargetReport(n: Counts, q: Query, told: Told): Reported {
    if told.err then Reported(told.action, 500, EvaluationError)
    else if told.action == EdgeTriggeredForward || told.action == AggregateSent then
      match TargetVerdict(n, q)
      case Pass => Reported(told.action, 202, Fine)
      case Limited => Reported(NoOp, 429, Fine)
      case Broken => Reported(told.action, 500, RateCheckFailed)
    else Reported(told.action, 202, Fine)
  }

  function EdgeReport(n: Counts, q: Query, past: seq<Event>): Reported {
    if Forwards(q) then Reported(ForwardedAsIs, 202, Fine)
    else
      match q.selected
      case FieldFails => Reported(NoOp, 400, TriggerFieldError)
      case Missing => Reported(NoOp, 202, Fine)
      case Value(_) => TargetReport(n, q, ToldBy(q, past))
  }

  /** The report of a request, from the counters on arrival and the events committed before it. */
  function Report(n: Counts, q: Query, past: seq<Event>): Reported {
    match IpVerdict(n, q)
    case Broken => Reported(NoOp, 202, RateCheckFailed)
    case Limited => Reported(NoOp, 202, IpLimited)
    case Pass =>
      match ClientVerdict(n, q)
      case Broken => Reported(NoOp, 202, RateCheckFailed)
      case Limited => Reported(NoOp, 202, ClientLimited)
      case Pass => EdgeReport(n, q, past)
  }

  predicate Admitted(n: Counts, q: Query) {
    IpVerdict(n, q).Pass? && ClientVerdict(n, q).Pass?
  }

  /**
   * The body: the notification unless it was evaluated; after evaluation nothing, or for an aggregate the
   * message that the flip log calls for.
   */
  ghost predicate BodySays(
      body: Body, admitted: bool, q: Query, past: seq<Event>, decode: string -> Option<string>)
  {
    if !admitted || !Evaluates(q) then body == Original
    else if ToldBy(q, past).action == AggregateSent then
      && body.Digest? && q.cc.flapping.Some? && past != []
      && var f := q.cc.flapping.value;
         MessageSays(body.aggregate, ScopeKey(q.hash), Flips(past + [EventIn(q)]),
                     Chart(f, past[0].now, Flips(past)), f.aggregateMaxItems, decode)
    else body == Absent
  }

  lemma {:induction false} TargetReported(b: Backend, q: Query, action: Action, body: Body)
    requires Sound(b)
    ensures var r := TargetStage(b, q, action, body);
            ReportOf(r.outcome) == TargetReport(CountsOn(b, q), q, Told(action, false)) && r.outcome.body == body
  {
    GateVerdict(b, TargetAttempt(q), q.faults.target);
  }

  /** The message of an evaluation that aggregates. */
  lemma {:induction false} DigestSays(
      b: Backend, q: Query, past: seq<Event>, source: Option<Edge>, decode: string -> Option<string>)
    requires q.selected.Value? && Holds(b, q, past) && source.Some?
    requires source == Step(Play(q.cc.flapping, past).edge, EventIn(q), q.cc.flapping).source
    ensures q.cc.flapping.Some? && past != []
    ensures var body := DigestFor(b, q, source, decode);
            var f := q.cc.flapping.value;
            body.Digest? && MessageSays(body.aggregate, ScopeKey(q.hash), Flips(past + [EventIn(q)]),
                                        Chart(f, past[0].now, Flips(past)), f.aggregateMaxItems, decode)
  {
    HeldRow(b, q, past);
    AggregatingSettings(q.cc.flapping, past, EventIn(q));
    var f := q.cc.flapping.value;
    AggregateReadsLog(f, past, EventIn(q), decode, ScopeKey(q.hash), f.aggregateMaxItems);
  }

  lemma {:induction false} AggregatingSettings(f: Option<FlapConfig>, past: seq<Event>, ev: Event)
    requires Step(Play(f, past).edge, ev, f).source.Some?
    ensures f.Some? && past != []
  {
  }

  lemma {:induction false} EvaluatedBody(
      b: Backend, q: Query, past: seq<Event>, source: Option<Edge>, decode: string -> Option<string>)
    requires Evaluates(q) && Holds(b, q, past)
    requires source.Some? <==> ToldBy(q, past).action == AggregateSent
    requires source.Some? ==> source == Step(Play(q.cc.flapping, past).edge, EventIn(q), q.cc.flapping).source
    ensures BodySays(DigestFor(b, q, source, decode), true, q, past, decode)
  {
    if source.Some? {
      DigestSays(b, q, past, source, decode);
    }
  }

  lemma {:induction false} EdgeStageShape(b: Backend, q: Query, decode: string -> Option<string>)
    requires Evaluates(q)
    ensures var e := EvaluateOn(b, q.client, ScopeKey(q.hash), NoticeOf(q), q.cc.flapping, q.faults);
            var body := DigestFor(b, q, e.reply.source, decode);
            EdgeStage(b, q, decode)
            == if e.reply.err then Ran(e.backend, Outcome(e.reply.action, 500, body, EvaluationError))
               else TargetStage(e.backend, q, e.reply.action, body)
  {
  }

  lemma {:induction false} SameTokensSameCounts(b: Backend, b': Backend, q: Query)
    requires SameTokens(b, b')
    ensures CountsOn(b', q) == CountsOn(b, q)
  {
  }

  lemma {:induction false} TailReported(b: Backend, b': Backend, q: Query, reply: Reply, body: Body)
    requires Sound(b') && SameTokens(b, b')
    ensures var r := if reply.err then Ran(b', Outcome(reply.action, 500, body, EvaluationError))
                     else TargetStage(b', q, reply.action, body);
            && ReportOf(r.outcome) == TargetReport(CountsOn(b, q), q, Told(reply.action, reply.err))
            && r.outcome.body == body
  {
    SameTokensSameCounts(b, b', q);
    TargetReported(b', q, reply.action, body);
  }

  lemma {:induction false} EvaluatedReported(b: Backend, q: Query, past: seq<Event>, decode: string -> Option<string>)
    requires Sound(b) && Evaluates(q) && Holds(b, q, past)
    ensures var r := EdgeStage(b, q, decode);
            && ReportOf(r.outcome) == TargetReport(CountsOn(b, q), q, ToldBy(q, past))
            && BodySays(r.outcome.body, true, q, past, decode)
  {
    var e := EvaluateOn(b, q.client, ScopeKey(q.hash), NoticeOf(q), q.cc.flapping, q.faults);
    EvaluateFrame(b, q.client, q.hash, NoticeOf(q), q.cc.flapping, q.faults);
    EvaluationTold(b, q, past);
    EdgeStageShape(b, q, decode);
    TailReported(b, e.backend, q, e.reply, DigestFor(b, q, e.reply.source, decode));
    EvaluatedBody(b, q, past, e.reply.source, decode);
  }

  lemma {:induction false} EdgeReported(b: Backend, q: Query, past: seq<Event>, decode: string -> Option<string>)
    requires Sound(b) && Holds(b, q, past)
    ensures var r := EdgeStage(b, q, decode);
            && ReportOf(r.outcome) == EdgeReport(CountsOn(b, q), q, past)
            && BodySays(r.outcome.body, true, q, past, decode)
  {
    if Evaluates(q) {
      EvaluatedReported(b, q, past, decode);
    }
  }

  lemma {:induction false} FrontKeeps(b: Backend, q: Query, past: seq<Event>)
    requires Sound(b) && Holds(b, q, past)
    ensures Sound(Front(b, q)) && Holds(Front(b, q), q, past)
    ensures CountsOn(Front(b, q), q).target == CountsOn(b, q).target
  {
    FrontSpec(b, q);
    FrontPasses(b, q);
  }

  /**
   * Every outcome of every request on either store: action, status, error and body, from the counters it
   * finds on arrival and the events committed before it for its field.
   */
  lemma {:induction false} OutcomeExactly(b: Backend, q: Query, past: seq<Event>, decode: string -> Option<string>)
    requires Sound(b) && Holds(b, q, past)
    ensures var o := RunOn(b, q, decode).outcome;
            var n := CountsOn(b, q);
            ReportOf(o) == Report(n, q, past) && BodySays(o.body, Admitted(n, q), q, past, decode)
  {
    FrontVerdicts(b, q);
    if Admitted(CountsOn(b, q), q) {
      RunSplits(b, q, decode);
      FrontKeeps(b, q, past);
      EdgeReported(Front(b, q), q, past, decode);
      SameTargetSameReport(CountsOn(b, q), CountsOn(Front(b, q), q), q, past);
    } else {
      StoppedReported(b, q, decode);
    }
  }

  lemma {:induction false} SameTargetSameReport(n: Counts, n': Counts, q: Query, past: seq<Event>)
    requires n'.target == n.target
    ensures EdgeReport(n', q, past) == EdgeReport(n, q, past)
  {
  }

  lemma {:induction false} StoppedReported(b: Backend, q: Query, decode: string -> Option<string>)
    requires Sound(b) && !Admitted(CountsOn(b, q), q)
    ensures var o := RunOn(b, q, decode).outcome;
            var n := CountsOn(b, q);
            && o.body == Original && o.action == NoOp && o.status == 202
            && o.err == (match IpVerdict(n, q)
                         case Broken => RateCheckFailed
                         case Limited => IpLimited
                         case Pass => if ClientVerdict(n, q).Broken? then RateCheckFailed else ClientLimited)
  {
    FrontVerdicts(b, q);
  }

  // ---------------------------------------------------------------- requests that are not evaluated

  lemma {:induction false} AnswersNeverForward(d: Decision, fate: CasOutcome)
    ensures Answer(d, fate).action != ForwardedAsIs
  {
  }

  lemma {:induction false} EvaluatedNeverForwards(b: Backend, q: Query, decode: string -> Option<string>)
    requires Evaluates(q)
    ensures EdgeStage(b, q, decode).outcome.action != ForwardedAsIs
  {
    var row := RowAt(b, q.client, ScopeKey(q.hash));
    var d := Decide(EdgeOf(row), EventOf(NoticeOf(q)), q.cc.flapping);
    AnswersNeverForward(d, Committed);
    AnswersNeverForward(d, Refused);
    AnswersNeverForward(d, Failed);
  }

  /**
   * A request is forwarded as it is exactly when the IP and client limiters let it in and it is passed
   * through or has no trigger field.
   */
  lemma {:induction false} ForwardedExactly(b: Backend, q: Query, decode: string -> Option<string>)
    requires Sound(b)
    ensures RunOn(b, q, decode).outcome.action == ForwardedAsIs
       <==> Admitted(CountsOn(b, q), q) && (q.passthrough || q.cc.fieldExpr == "")
    ensures Admitted(CountsOn(b, q), q) && (q.passthrough || q.cc.fieldExpr == "") ==>
              RunOn(b, q, decode).outcome == Outcome(ForwardedAsIs, 202, Original, Fine)
  {
    FrontVerdicts(b, q);
    if Admitted(CountsOn(b, q), q) {
      RunSplits(b, q, decode);
      if Evaluates(q) {
        EvaluatedNeverForwards(Front(b, q), q, decode);
      }
    } else {
      StoppedReported(b, q, decode);
    }
  }

  /** A request let in whose field selects nothing is dropped; one whose field fails is refused. */
  lemma {:induction false} UnselectedOutcome(b: Backend, q: Query, decode: string -> Option<string>)
    requires Sound(b) && Admitted(CountsOn(b, q), q) && !q.passthrough && q.cc.fieldExpr != ""
    ensures q.selected.Missing? ==> RunOn(b, q, decode).outcome == Outcome(NoOp, 202, Original, Fine)
    ensures q.selected.FieldFails? ==> RunOn(b, q, decode).outcome == Outcome(NoOp, 400, Original, TriggerFieldError)
  {
    FrontVerdicts(b, q);
    RunSplits(b, q, decode);
  }

  // ---------------------------------------------------------------- what a request leaves behind

  /** The events committed for the field once the request is done. */
  function PastAfter(n: Counts, q: Query, past: seq<Event>): seq<Event> {
    if Admitted(n, q) && Evaluates(q) && Commits(q, past) then past + [EventIn(q)] else past
  }

  lemma {:induction false} SameRowHolds(b: Backend, b': Backend, q: Query, past: seq<Event>)
    requires Holds(b, q, past) && SameRows(b, b')
    ensures Holds(b', q, past)
  {
  }

  lemma {:induction false} EdgeStageKeepsFold(b: Backend, q: Query, past: seq<Event>, decode: string -> Option<string>)
    requires Sound(b) && Holds(b, q, past) && Evaluates(q)
    ensures Holds(EdgeStage(b, q, decode).backend, q, if Commits(q, past) then past + [EventIn(q)] else past)
  {
    var e := EvaluateOn(b, q.client, ScopeKey(q.hash), NoticeOf(q), q.cc.flapping, q.faults);
    var body := DigestFor(b, q, e.reply.source, decode);
    var after := if Commits(q, past) then past + [EventIn(q)] else past;
    EdgeStageShape(b, q, decode);
    EvaluationTold(b, q, past);
    EvaluateFrame(b, q.client, q.hash, NoticeOf(q), q.cc.flapping, q.faults);
    TargetStageSpec(e.backend, q, e.reply.action, body);
    SameRowHolds(e.backend, TargetStage(e.backend, q, e.reply.action, body).backend, q, after);
  }

  lemma {:induction false} RunKeepsFold(b: Backend, q: Query, past: seq<Event>, decode: string -> Option<string>)
    requires Sound(b) && Holds(b, q, past)
    ensures Holds(RunOn(b, q, decode).backend, q, PastAfter(CountsOn(b, q), q, past))
  {
    FrontVerdicts(b, q);
    FrontKeeps(b, q, past);
    RunSplits(b, q, decode);
    if Admitted(CountsOn(b, q), q) && Evaluates(q) {
      EdgeStageKeepsFold(Front(b, q), q, past, decode);
    } else {
      assert RunOn(b, q, decode).backend == Front(b, q);
    }
  }

  /** Which limiter stopped a request is told by its error. */
  lemma {:induction false} ErrorsExactly(b: Backend, q: Query, decode: string -> Option<string>)
    requires Sound(b)
    ensures var err, n := RunOn(b, q, decode).outcome.err, CountsOn(b, q);
            && (err.IpLimited? <==> IpVerdict(n, q).Limited?)
            && (err.ClientLimited? <==> IpVerdict(n, q).Pass? && ClientVerdict(n, q).Limited?)
  {
    FrontVerdicts(b, q);
    ClientStageErrors(Gate(b, IpAttempt(q), q.faults.ip).backend, q, decode);
  }
}
