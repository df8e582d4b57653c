/** What becomes of a request, decided from the store as it was when the request arrived. */
module OutcomeLaws {
  import opened Types
  import opened EdgeFlap
  import opened Rows
  import opened Keys
  import opened Limiter
  import opened Store
  import opened Flow
  import opened FlowLaws
  import Ddb
  import Redis

  /** The limiter is off, or its bucket is below the cap and the store can be asked. */
  predicate Room(b: Backend, a: Attempt, fails: bool) {
    a.cap <= 0 || (!fails && TokensAt(b, BucketOf(a)) < a.cap)
  }

  predicate Full(b: Backend, a: Attempt, fails: bool) {
    a.cap > 0 && !fails && TokensAt(b, BucketOf(a)) >= a.cap
  }

  /** The request is evaluated without error and the evaluation of the stored row calls for publishing. */
  predicate Wants(b: Backend, q: Query) {
    && !q.passthrough && q.cc.fieldExpr != "" && q.selected.Value?
    && !q.faults.load && q.faults.write.Clean?
    && var row := RowAt(b, q.client, ScopeKey(q.hash));
       && (row.Some? ==> q.encoded.Some?)
       && Publishes(Answer(Decide(EdgeOf(row), EventOf(NoticeOf(q)), q.cc.flapping), Committed).action)
  }

  /** Stored rows carry the versions that the store gave them, from 1 upwards. */
  predicate Versioned(b: Backend, q: Query) {
    var row := RowAt(b, q.client, ScopeKey(q.hash));
    row.Some? ==> row.value.version >= 1
  }

  lemma {:induction false} GatePasses(b: Backend, a: Attempt, fails: bool)
    requires Sound(b)
    ensures Gate(b, a, fails).verdict.Pass? <==> Room(b, a, fails)
    ensures Gate(b, a, fails).verdict.Limited? <==> Full(b, a, fails)
  {
    AcquireSpec(b, a);
  }

  /** Passing the first two limiters depends on the store at arrival, and leaves the target's counter alone. */
  lemma {:induction false} FrontPasses(b: Backend, q: Query)
    requires Sound(b)
    ensures PassesIp(b, q) && PassesClient(b, q) <==>
              Room(b, IpAttempt(q), q.faults.ip) && Room(b, ClientAttempt(q), q.faults.client)
    ensures TokensAt(Front(b, q), BucketOf(TargetAttempt(q))) == TokensAt(b, BucketOf(TargetAttempt(q)))
  {
    ScopesDistinct(q.ip, q.client, q.client, q.cc.snsArn);
    var g := Gate(b, IpAttempt(q), q.faults.ip);
    GateSpec(b, IpAttempt(q), q.faults.ip);
    GatePasses(b, IpAttempt(q), q.faults.ip);
    GatePasses(g.backend, ClientAttempt(q), q.faults.client);
    assert TokensAt(g.backend, BucketOf(ClientAttempt(q))) == TokensAt(b, BucketOf(ClientAttempt(q)));
    FrontSpec(b, q);
  }

  /** A write at the version just loaded lands. */
  lemma {:induction false} FreshWriteLands(b: Backend, client: string, hash: nat, next: Edge)
    requires Sound(b)
    requires var row := RowAt(b, client, ScopeKey(hash)); row.Some? ==> row.value.version >= 1
    ensures Upserted(b, client, ScopeKey(hash), Version(RowAt(b, client, ScopeKey(hash))), next).ok
  {
    var prev := Version(RowAt(b, client, ScopeKey(hash)));
    match b
    case OnDdb(t) => Ddb.UpsertIsCas(t, client, ScopeKey(hash), prev, next);
    case OnRedis(t) => Redis.UpsertIsCasExactly(t, client, hash, prev, next);
  }

  lemma {:induction false} FailedIsQuiet(d: Decision)
    ensures !Publishes(Answer(d, Failed).action)
    ensures Publishes(Answer(d, Committed).action) ==> !Answer(d, Committed).err
  {
  }

  lemma {:induction false} EvaluationWants(b: Backend, q: Query)
    requires Sound(b) && Versioned(b, q)
    requires !q.passthrough && q.cc.fieldExpr != "" && q.selected.Value?
    ensures var e := EvaluateOn(b, q.client, ScopeKey(q.hash), NoticeOf(q), q.cc.flapping, q.faults);
            && (Publishes(e.reply.action) <==> Wants(b, q))
            && (Publishes(e.reply.action) ==> !e.reply.err)
  {
    var row := RowAt(b, q.client, ScopeKey(q.hash));
    var d := Decide(EdgeOf(row), EventOf(NoticeOf(q)), q.cc.flapping);
    FailedIsQuiet(d);
    if d.Write? {
      FreshWriteLands(b, q.client, q.hash, d.next);
    }
  }

  lemma {:induction false} TargetOutcome(b: Backend, q: Query, action: Action, body: Body)
    requires Sound(b)
    ensures var o := TargetStage(b, q, action, body).outcome;
            && (Publishes(o.action) && o.err.Fine? <==>
                  Publishes(action) && Room(b, TargetAttempt(q), q.faults.target))
            && (o.status == TOO_MANY_REQUESTS <==>
                  Publishes(action) && Full(b, TargetAttempt(q), q.faults.target))
            && (Publishes(o.action) && o.err.Fine? ==> o.action == action && o.status == ACCEPTED)
  {
    GatePasses(b, TargetAttempt(q), q.faults.target);
  }

  lemma {:induction false} EdgeOutcome(b: Backend, q: Query, decode: string -> Option<string>)
    requires Sound(b) && Versioned(b, q)
    ensures var o := EdgeStage(b, q, decode).outcome;
            && (Publishes(o.action) && o.err.Fine? <==>
                  Wants(b, q) && Room(b, TargetAttempt(q), q.faults.target))
            && (o.status == TOO_MANY_REQUESTS <==> Wants(b, q) && Full(b, TargetAttempt(q), q.faults.target))
            && (Publishes(o.action) && o.err.Fine? ==> o.status == ACCEPTED)
  {
    if !q.passthrough && q.cc.fieldExpr != "" && q.selected.Value? {
      var e := EvaluateOn(b, q.client, ScopeKey(q.hash), NoticeOf(q), q.cc.flapping, q.faults);
      EvaluationWants(b, q);
      EvaluateFrame(b, q.client, q.hash, NoticeOf(q), q.cc.flapping, q.faults);
      assert TokensAt(e.backend, BucketOf(TargetAttempt(q))) == TokensAt(b, BucketOf(TargetAttempt(q)));
      TargetOutcome(e.backend, q, e.reply.action, DigestFor(b, q, e.reply.source, decode));
    }
  }

  /**
   * A request is published without error exactly when, in the store as it was on arrival, all three
   * limiters have room and the evaluation of its row calls for publishing; and it is answered "too many
   * requests" exactly when everything but the target's limiter would let it through.
   */
  lemma {:induction false} PublishedExactly(b: Backend, q: Query, decode: string -> Option<string>)
    requires Sound(b) && Versioned(b, q)
    ensures var o := RunOn(b, q, decode).outcome;
            var admitted := Room(b, IpAttempt(q), q.faults.ip) && Room(b, ClientAttempt(q), q.faults.client);
            && (Publishes(o.action) && o.err.Fine? <==>
                  admitted && Wants(b, q) && Room(b, TargetAttempt(q), q.faults.target))
            && (o.status == TOO_MANY_REQUESTS <==>
                  admitted && Wants(b, q) && Full(b, TargetAttempt(q), q.faults.target))
            && (Publishes(o.action) && o.err.Fine? ==> o.status == ACCEPTED)
  {
    FrontPasses(b, q);
    FrontSpec(b, q);
    RunSplits(b, q, decode);
    if PassesIp(b, q) && PassesClient(b, q) {
      assert RowAt(Front(b, q), q.client, ScopeKey(q.hash)) == RowAt(b, q.client, ScopeKey(q.hash));
      EdgeOutcome(Front(b, q), q, decode);
    } else {
      StoppedOutcome(b, q, decode);
    }
  }

  lemma {:induction false} StoppedOutcome(b: Backend, q: Query, decode: string -> Option<string>)
    requires !(PassesIp(b, q) && PassesClient(b, q))
    ensures RunOn(b, q, decode).outcome.status == ACCEPTED && !RunOn(b, q, decode).outcome.err.Fine?
  {
  }
}
