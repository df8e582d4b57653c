/** What a request takes from the store, and why the two backends cannot be told apart serially. */
module FlowLaws {
  import opened Types
  import opened EdgeFlap
  import opened Rows
  import opened Keys
  import opened Limiter
  import opened Store
  import opened Flow
  import Ddb
  import Redis

  // ---------------------------------------------------------------- writes on either backend

  ghost predicate SameTokens(b: Backend, b': Backend) {
    forall x :: TokensAt(b', x) == TokensAt(b, x)
  }

  ghost predicate SameRows(b: Backend, b': Backend) {
    forall c, s :: RowAt(b', c, s) == RowAt(b, c, s)
  }

  /** The rows of all other clients and trigger fields are the same. */
  ghost predicate SameOtherRows(b: Backend, b': Backend, client: string, hash: nat) {
    forall c, h :: c != client || h != hash ==> RowAt(b', c, ScopeKey(h)) == RowAt(b, c, ScopeKey(h))
  }

  lemma {:induction false} UpsertSpec(b: Backend, client: string, hash: nat, prev: int, next: Edge)
    requires Sound(b)
    ensures var r := Upserted(b, client, ScopeKey(hash), prev, next);
            Sound(r.backend) && SameTokens(b, r.backend) && SameOtherRows(b, r.backend, client, hash)
  {
    match b
    case OnDdb(t) =>
      Ddb.UpsertIsCas(t, client, ScopeKey(hash), prev, next);
      forall h: nat
        ensures ScopeKey(h) == ScopeKey(hash) ==> h == hash
      {
        ScopeKeyInjective(h, hash);
      }
    case OnRedis(t) =>
      Redis.UpsertFrame(t, client, hash, prev, next);
      Redis.UpsertDurable(t, client, ScopeKey(hash), prev, next);
  }

  lemma {:induction false} ScopeKeyInjective(h: nat, h': nat)
    ensures ScopeKey(h) == ScopeKey(h') ==> h == h'
  {
    DigitsRoundTrip(h);
    DigitsRoundTrip(h');
    assert ScopeKey(h)[1..] == Digits(h) && ScopeKey(h')[1..] == Digits(h');
  }

  lemma {:induction false} EvaluateFrame(
      b: Backend, client: string, hash: nat, n: Notice, f: Option<FlapConfig>, faults: Faults)
    requires Sound(b)
    ensures var r := EvaluateOn(b, client, ScopeKey(hash), n, f, faults);
            Sound(r.backend) && SameTokens(b, r.backend) && SameOtherRows(b, r.backend, client, hash)
  {
    var row := RowAt(b, client, ScopeKey(hash));
    var d := Decide(EdgeOf(row), EventOf(n), f);
    if d.Write? {
      UpsertSpec(b, client, hash, Version(row), d.next);
    }
  }

  /** Evaluation without errors before its write, in terms of its decision. */
  lemma {:induction false} EvaluateShape(b: Backend, q: Query, d: Decision)
    requires q.selected.Value? && !q.faults.load
    requires var row := RowAt(b, q.client, ScopeKey(q.hash));
             && d == Decide(EdgeOf(row), EventOf(NoticeOf(q)), q.cc.flapping)
             && !(row.Some? && row.value.edge.lastValue != q.selected.value && q.encoded.None?)
    ensures var scope := ScopeKey(q.hash);
            var e := EvaluateOn(b, q.client, scope, NoticeOf(q), q.cc.flapping, q.faults);
            var u := if d.Write? && !q.faults.write.RequestLost?
                     then Upserted(b, q.client, scope, Version(RowAt(b, q.client, scope)), d.next)
                     else Stored(b, true);
            && e.backend == u.backend
            && e.reply
               == Answer(d, if d.Write? && !q.faults.write.Clean? then Failed else if u.ok then Committed else Refused)
  {
  }

  // ---------------------------------------------------------------- tokens taken by a request

  predicate PassesIp(b: Backend, q: Query) {
    Gate(b, IpAttempt(q), q.faults.ip).verdict.Pass?
  }

  predicate PassesClient(b: Backend, q: Query) {
    Gate(Gate(b, IpAttempt(q), q.faults.ip).backend, ClientAttempt(q), q.faults.client).verdict.Pass?
  }

  /** A limiter that is switched on and lets the request pass takes one token of its bucket. */
  function Charge(x: Bucket, a: Attempt, passed: bool): nat {
    if x == BucketOf(a) && a.cap > 0 && passed then 1 else 0
  }

  lemma {:induction false} GateSpec(b: Backend, a: Attempt, fails: bool)
    requires Sound(b)
    ensures var g := Gate(b, a, fails);
            && Sound(g.backend)
            && SameRows(b, g.backend)
            && (forall x :: TokensAt(g.backend, x) == TokensAt(b, x) + Charge(x, a, g.verdict.Pass?))
            && (g.verdict.Limited? ==> a.cap > 0 && TokensAt(b, BucketOf(a)) >= a.cap)
  {
    AcquireSpec(b, a);
  }

  /** `b'` is `b` with the given charges, for every bucket. */
  ghost predicate Charged(b: Backend, b': Backend, q: Query, ip: bool, client: bool, target: bool) {
    forall x :: TokensAt(b', x) == TokensAt(b, x)
      + Charge(x, IpAttempt(q), ip) + Charge(x, ClientAttempt(q), client) + Charge(x, TargetAttempt(q), target)
  }

  lemma {:induction false} TargetCharged(b: Backend, b': Backend, q: Query, passed: bool)
    requires forall x :: TokensAt(b', x) == TokensAt(b, x) + Charge(x, TargetAttempt(q), passed)
    ensures Charged(b, b', q, false, false, passed)
  {
  }

  lemma {:induction false} TargetStageSpec(b: Backend, q: Query, action: Action, body: Body)
    requires Sound(b)
    ensures var r := TargetStage(b, q, action, body);
            && Sound(r.backend)
            && SameRows(b, r.backend)
            && Charged(b, r.backend, q, false, false, Publishes(r.outcome.action) && r.outcome.err.Fine?)
  {
    if Publishes(action) {
      var g := Gate(b, TargetAttempt(q), q.faults.target);
      GateSpec(b, TargetAttempt(q), q.faults.target);
      TargetCharged(b, g.backend, q, g.verdict.Pass?);
    } else {
      TargetCharged(b, b, q, false);
    }
  }

  lemma {:induction false} EdgeStageSpec(b: Backend, q: Query, decode: string -> Option<string>)
    requires Sound(b)
    ensures var r := EdgeStage(b, q, decode);
            && Sound(r.backend)
            && SameOtherRows(b, r.backend, q.client, q.hash)
            && (q.passthrough || q.cc.fieldExpr == "" || !q.selected.Value? ==> r.backend == b)
            && Charged(b, r.backend, q, false, false, Publishes(r.outcome.action) && r.outcome.err.Fine?)
  {
    if !q.passthrough && q.cc.fieldExpr != "" && q.selected.Value? {
      EvaluateFrame(b, q.client, q.hash, NoticeOf(q), q.cc.flapping, q.faults);
      var e := EvaluateOn(b, q.client, ScopeKey(q.hash), NoticeOf(q), q.cc.flapping, q.faults);
      TargetStageSpec(e.backend, q, e.reply.action, DigestFor(b, q, e.reply.source, decode));
    }
  }

  /** The store once the IP and client limiters have seen the request. */
  function Front(b: Backend, q: Query): Backend {
    var g := Gate(b, IpAttempt(q), q.faults.ip);
    if g.verdict.Pass? then Gate(g.backend, ClientAttempt(q), q.faults.client).backend else g.backend
  }

  lemma {:induction false} RunSplits(b: Backend, q: Query, decode: string -> Option<string>)
    ensures var r := RunOn(b, q, decode);
            if PassesIp(b, q) && PassesClient(b, q) then r == EdgeStage(Front(b, q), q, decode)
            else r.backend == Front(b, q) && r.outcome.action == NoOp
  {
  }

  lemma {:induction false} TwoCharges(b: Backend, b1: Backend, b2: Backend, q: Query, ip: bool, client: bool)
    requires forall x :: TokensAt(b1, x) == TokensAt(b, x) + Charge(x, IpAttempt(q), ip)
    requires forall x :: TokensAt(b2, x) == TokensAt(b1, x) + Charge(x, ClientAttempt(q), client)
    ensures Charged(b, b2, q, ip, client, false)
  {
  }

  lemma {:induction false} FrontSpec(b: Backend, q: Query)
    requires Sound(b)
    ensures Sound(Front(b, q)) && SameRows(b, Front(b, q))
    ensures Charged(b, Front(b, q), q, PassesIp(b, q), PassesIp(b, q) && PassesClient(b, q), false)
  {
    var g := Gate(b, IpAttempt(q), q.faults.ip);
    GateSpec(b, IpAttempt(q), q.faults.ip);
    if g.verdict.Pass? {
      GateSpec(g.backend, ClientAttempt(q), q.faults.client);
      TwoCharges(b, g.backend, Front(b, q), q, true, PassesClient(b, q));
    } else {
      TwoCharges(b, g.backend, g.backend, q, false, false);
    }
  }

  lemma {:induction false} ChargesAddUp(
      b: Backend, b1: Backend, b2: Backend, q: Query, ip: bool, client: bool, target: bool)
    requires SameRows(b, b1) && SameOtherRows(b1, b2, q.client, q.hash)
    requires Charged(b, b1, q, ip, client, false) && Charged(b1, b2, q, false, false, target)
    ensures Charged(b, b2, q, ip, client, target) && SameOtherRows(b, b2, q.client, q.hash)
  {
  }

  /**
   * Exact accounting of one request on either backend: one token from each limiter that is on and
   * lets it pass, the target's exactly when it ends up published without error, and nothing else;
   * only the row of its own client and field can change.
   */
  lemma {:induction false} RequestAccounting(b: Backend, q: Query, decode: string -> Option<string>)
    requires Sound(b)
    ensures var r := RunOn(b, q, decode);
            && Sound(r.backend)
            && SameOtherRows(b, r.backend, q.client, q.hash)
            && Charged(b, r.backend, q, PassesIp(b, q), PassesIp(b, q) && PassesClient(b, q),
                       Publishes(r.outcome.action) && r.outcome.err.Fine?)
  {
    var r := RunOn(b, q, decode);
    FrontSpec(b, q);
    RunSplits(b, q, decode);
    if PassesIp(b, q) && PassesClient(b, q) {
      EdgeStageSpec(Front(b, q), q, decode);
      ChargesAddUp(b, Front(b, q), r.backend, q, true, true, Publishes(r.outcome.action) && r.outcome.err.Fine?);
    }
  }

  /** A request stopped by the IP limit leaves the store as it was. */
  lemma {:induction false} IpStopFrame(b: Backend, q: Query, decode: string -> Option<string>)
    requires Sound(b) && RunOn(b, q, decode).outcome.err.IpLimited?
    ensures var b' := RunOn(b, q, decode).backend;
            SameRows(b, b') && SameTokens(b, b')
  {
    GateSpec(b, IpAttempt(q), q.faults.ip);
    var g := Gate(b, IpAttempt(q), q.faults.ip);
    if g.verdict.Pass? {
      ClientStageErrors(g.backend, q, decode);
    }
  }

  lemma {:induction false} ClientStageErrors(b: Backend, q: Query, decode: string -> Option<string>)
    ensures !ClientStage(b, q, decode).outcome.err.IpLimited?
    ensures ClientStage(b, q, decode).outcome.err.ClientLimited?
       <==> Gate(b, ClientAttempt(q), q.faults.client).verdict.Limited?
  {
    var e := EdgeStage(Gate(b, ClientAttempt(q), q.faults.client).backend, q, decode);
    assert !e.outcome.err.IpLimited? && !e.outcome.err.ClientLimited?;
  }

  /** A request stopped by the client limit changes no row and has only paid the IP limiter. */
  lemma {:induction false} ClientStopFrame(b: Backend, q: Query, decode: string -> Option<string>)
    requires Sound(b) && RunOn(b, q, decode).outcome.err.ClientLimited?
    ensures var b' := RunOn(b, q, decode).backend;
            SameRows(b, b') && Charged(b, b', q, true, false, false)
  {
    var g := Gate(b, IpAttempt(q), q.faults.ip);
    GateSpec(b, IpAttempt(q), q.faults.ip);
    GateSpec(g.backend, ClientAttempt(q), q.faults.client);
    ClientStageErrors(g.backend, q, decode);
  }

  /**
   * A request that is passed through, has no trigger field or selects no value changes no row and
   * pays only the IP and client limiters.
   */
  lemma {:induction false} UnevaluatedFrame(b: Backend, q: Query, decode: string -> Option<string>)
    requires Sound(b) && (q.passthrough || q.cc.fieldExpr == "" || !q.selected.Value?)
    ensures var b' := RunOn(b, q, decode).backend;
            && SameRows(b, b')
            && Charged(b, b', q, PassesIp(b, q), PassesIp(b, q) && PassesClient(b, q), false)
  {
    FrontSpec(b, q);
    RunSplits(b, q, decode);
    if PassesIp(b, q) && PassesClient(b, q) {
      assert EdgeStage(Front(b, q), q, decode).backend == Front(b, q);
    }
  }

  // ---------------------------------------------------------------- serial equivalence

  /** The two stores hold the same rows and counters, under their different keys. */
  ghost predicate Related(d: Backend, r: Backend) {
    && d.OnDdb? && r.OnRedis? && Sound(d) && Sound(r)
    && (forall c, h :: RowAt(d, c, ScopeKey(h)) == RowAt(r, c, ScopeKey(h)))
    && (forall c, h :: RowAt(d, c, ScopeKey(h)).Some? ==> RowAt(d, c, ScopeKey(h)).value.version >= 1)
    && SameTokens(d, r)
  }

  lemma {:induction false} EmptyStoresRelated()
    ensures Related(OnDdb(map[]), OnRedis(map[]))
  {
  }

  lemma {:induction false} AcquireRelated(d: Backend, r: Backend, a: Attempt)
    requires Related(d, r)
    ensures Acquired(d, a).ok == Acquired(r, a).ok
    ensures Related(Acquired(d, a).backend, Acquired(r, a).backend)
  {
    AcquireSpec(d, a);
    AcquireSpec(r, a);
    var d', r' := Acquired(d, a).backend, Acquired(r, a).backend;
    forall x
      ensures TokensAt(r', x) == TokensAt(d', x)
    {
      assert TokensAt(r, x) == TokensAt(d, x);
    }
  }

  /** A write at the version just loaded has the same effect on both stores. */
  lemma {:induction false} UpsertRelated(d: Backend, r: Backend, client: string, hash: nat, next: Edge)
    requires Related(d, r)
    ensures var prev := Version(RowAt(d, client, ScopeKey(hash)));
            var d' := Upserted(d, client, ScopeKey(hash), prev, next);
            var r' := Upserted(r, client, ScopeKey(hash), prev, next);
            d'.ok && r'.ok && Related(d'.backend, r'.backend)
  {
    var scope := ScopeKey(hash);
    var prev := Version(RowAt(d, client, scope));
    assert RowAt(d, client, scope) == RowAt(r, client, scope);
    var d', r' := Upserted(d, client, scope, prev, next), Upserted(r, client, scope, prev, next);
    UpsertSpec(d, client, hash, prev, next);
    UpsertSpec(r, client, hash, prev, next);
    Ddb.UpsertIsCas(d.ddb, client, scope, prev, next);
    Redis.UpsertIsCasExactly(r.redis, client, hash, prev, next);
    RelatedAfterWrite(d, r, d'.backend, r'.backend, client, hash);
  }

  lemma {:induction false} RelatedAfterWrite(
      d: Backend, r: Backend, d': Backend, r': Backend, client: string, hash: nat)
    requires Related(d, r) && d'.OnDdb? && r'.OnRedis? && Sound(d') && Sound(r')
    requires SameTokens(d, d') && SameTokens(r, r')
    requires SameOtherRows(d, d', client, hash) && SameOtherRows(r, r', client, hash)
    requires var row := RowAt(d', client, ScopeKey(hash));
             row == RowAt(r', client, ScopeKey(hash)) && (row.Some? ==> row.value.version >= 1)
    ensures Related(d', r')
  {
    forall c, h
      ensures RowAt(d', c, ScopeKey(h)) == RowAt(r', c, ScopeKey(h))
      ensures RowAt(d', c, ScopeKey(h)).Some? ==> RowAt(d', c, ScopeKey(h)).value.version >= 1
    {
      assert RowAt(d, c, ScopeKey(h)) == RowAt(r, c, ScopeKey(h));
    }
    forall x
      ensures TokensAt(r', x) == TokensAt(d', x)
    {
      assert TokensAt(d', x) == TokensAt(d, x) && TokensAt(r', x) == TokensAt(r, x);
    }
  }

  /** Evaluation answers the same on related stores and leaves them related. */
  lemma {:induction false} EvaluateRelated(
      d: Backend, r: Backend, client: string, hash: nat, n: Notice, f: Option<FlapConfig>, faults: Faults)
    requires Related(d, r)
    ensures var scope := ScopeKey(hash);
            && EvaluateOn(d, client, scope, n, f, faults).reply == EvaluateOn(r, client, scope, n, f, faults).reply
            && Related(EvaluateOn(d, client, scope, n, f, faults).backend,
                       EvaluateOn(r, client, scope, n, f, faults).backend)
  {
    var row := RowAt(d, client, ScopeKey(hash));
    assert row == RowAt(r, client, ScopeKey(hash));
    var dec := Decide(EdgeOf(row), EventOf(n), f);
    if dec.Write? {
      UpsertRelated(d, r, client, hash, dec.next);
    }
  }

  lemma {:induction false} GateRelated(d: Backend, r: Backend, a: Attempt, fails: bool)
    requires Related(d, r)
    ensures Gate(d, a, fails).verdict == Gate(r, a, fails).verdict
    ensures Related(Gate(d, a, fails).backend, Gate(r, a, fails).backend)
  {
    AcquireRelated(d, r, a);
  }

  ghost predicate SameRan(x: Ran, y: Ran) {
    x.outcome == y.outcome && Related(x.backend, y.backend)
  }

  lemma {:induction false} TargetStageRelated(d: Backend, r: Backend, q: Query, action: Action, body: Body)
    requires Related(d, r)
    ensures SameRan(TargetStage(d, q, action, body), TargetStage(r, q, action, body))
  {
    GateRelated(d, r, TargetAttempt(q), q.faults.target);
  }

  lemma {:induction false} EdgeStageRelated(d: Backend, r: Backend, q: Query, decode: string -> Option<string>)
    requires Related(d, r)
    ensures SameRan(EdgeStage(d, q, decode), EdgeStage(r, q, decode))
  {
    if !q.passthrough && q.cc.fieldExpr != "" && q.selected.Value? {
      EvaluateRelated(d, r, q.client, q.hash, NoticeOf(q), q.cc.flapping, q.faults);
      assert RowAt(d, q.client, ScopeKey(q.hash)) == RowAt(r, q.client, ScopeKey(q.hash));
      var x := EvaluateOn(d, q.client, ScopeKey(q.hash), NoticeOf(q), q.cc.flapping, q.faults);
      var y := EvaluateOn(r, q.client, ScopeKey(q.hash), NoticeOf(q), q.cc.flapping, q.faults);
      var body := DigestFor(d, q, x.reply.source, decode);
      assert body == DigestFor(r, q, y.reply.source, decode);
      TargetStageRelated(x.backend, y.backend, q, x.reply.action, body);
    }
  }

  /** A whole request has the same outcome on related stores and leaves them related. */
  lemma {:induction false} RequestRelated(d: Backend, r: Backend, q: Query, decode: string -> Option<string>)
    requires Related(d, r)
    ensures SameRan(RunOn(d, q, decode), RunOn(r, q, decode))
  {
    GateRelated(d, r, IpAttempt(q), q.faults.ip);
    var d1, r1 := Gate(d, IpAttempt(q), q.faults.ip), Gate(r, IpAttempt(q), q.faults.ip);
    if d1.verdict.Pass? {
      GateRelated(d1.backend, r1.backend, ClientAttempt(q), q.faults.client);
      EdgeStageRelated(
        Gate(d1.backend, ClientAttempt(q), q.faults.client).backend,
        Gate(r1.backend, ClientAttempt(q), q.faults.client).backend, q, decode);
    }
  }

  datatype History = History(backend: Backend, outcomes: seq<Outcome>)

  /** Requests processed one after the other. */
  function RunAll(b: Backend, qs: seq<Query>, decode: string -> Option<string>): History {
    if qs == [] then History(b, [])
    else
      var h := RunAll(b, qs[..|qs| - 1], decode);
      var r := RunOn(h.backend, qs[|qs| - 1], decode);
      History(r.backend, h.outcomes + [r.outcome])
  }

  /**
   * Requests that do not overlap cannot tell the backends apart: from empty stores, every sequence of
   * requests has the same outcomes on Redis as on DynamoDB.
   */
  lemma {:induction false} SerialBackendsEquivalent(qs: seq<Query>, decode: string -> Option<string>)
    ensures var d, r := RunAll(OnDdb(map[]), qs, decode), RunAll(OnRedis(map[]), qs, decode);
            d.outcomes == r.outcomes && Related(d.backend, r.backend)
  {
    if qs == [] {
      EmptyStoresRelated();
    } else {
      var init, q := qs[..|qs| - 1], qs[|qs| - 1];
      SerialBackendsEquivalent(init, decode);
      RequestRelated(
        RunAll(OnDdb(map[]), init, decode).backend, RunAll(OnRedis(map[]), init, decode).backend, q, decode);
    }
  }
}
