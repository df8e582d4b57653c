/**
 * The steps of the interleaved pipeline and the request as one function are the same program: the steps of
 * a request taken back to back do to the DynamoDB store what the function does, and report the same.
 */
module PipelineRefines {
  import opened Types
  import opened EdgeFlap
  import opened Rows
  import opened Keys
  import L = Limiter
  import B = Store
  import Ddb
  import C = CasProtocol
  import opened Flow
  import opened FlowLaws
  import P = Pipeline

  /** The request is one of a client of the given world. */
  predicate Matches(world: P.World, q: Query) {
    q.cc == world.config(q.client) && q.hash == world.hash(q.cc.fieldExpr)
  }

  function JobOf(q: Query): P.Job {
    P.Job(q.client, q.ip, q.passthrough, q.selected)
  }

  ghost predicate RowsMirror(st: C.System, b: B.Backend) {
    forall c, sc :: B.RowAt(b, c, sc) == Get(st.rows, C.Key(c, sc))
  }

  ghost predicate TokensMirror(s: P.Traffic, b: B.Backend) {
    forall x :: B.TokensAt(b, x) == L.CountAt(L.After(s.attempts), x)
  }

  /** The table holds the rows and counters that the histories of the traffic stand for. */
  ghost predicate Mirrors(world: P.World, s: P.Traffic, b: B.Backend) {
    b.OnDdb? && B.Sound(b) && TokensMirror(s, b) && RowsMirror(P.Store(world, s), b)
  }

  /** The request of `w` has left, with the action and the error of the outcome. */
  predicate Reported(s: P.Traffic, s': P.Traffic, w: nat, client: string, action: Action, err: bool) {
    && s'.jobs == s.jobs - {w}
    && |s'.results| == |s.results| + 1 && s'.results[..|s.results|] == s.results
    && s'.results[|s.results|].client == client
    && s'.results[|s.results|].action == action
    && s'.results[|s.results|].err == err
  }

  // ---------------------------------------------------------------- limiters

  lemma {:induction false} AttemptMirrors(s: P.Traffic, b: B.Backend, a: L.Attempt)
    requires B.Sound(b) && TokensMirror(s, b) && a.cap > 0
    ensures L.Admits(L.After(s.attempts), a) <==> B.Acquired(b, a).ok
    ensures TokensMirror(s.(attempts := s.attempts + [a]), B.Acquired(b, a).backend)
  {
    B.AcquireSpec(b, a);
    var s' := s.(attempts := s.attempts + [a]);
    var b' := B.Acquired(b, a).backend;
    assert B.TokensAt(b, L.BucketOf(a)) == L.CountAt(L.After(s.attempts), L.BucketOf(a));
    L.AfterSnoc(s.attempts, a, L.BucketOf(a));
    forall x
      ensures B.TokensAt(b', x) == L.CountAt(L.After(s'.attempts), x)
    {
      L.AfterSnoc(s.attempts, a, x);
      assert B.TokensAt(b, x) == L.CountAt(L.After(s.attempts), x);
    }
  }

  lemma {:induction false} LimitRefinesGate(
      world: P.World, s: P.Traffic, b: B.Backend, w: nat, client: string, a: L.Attempt, fails: bool, next: P.Stage)
    requires Mirrors(world, s, b)
    ensures var s' := P.Limit(s, w, client, a, fails, next);
            var g := Gate(b, a, fails);
            && Mirrors(world, s', g.backend) && s'.moves == s.moves
            && (g.verdict.Pass? ==> s'.jobs == s.jobs[w := next] && s'.results == s.results)
            && (!g.verdict.Pass? ==> Reported(s, s', w, client, NoOp, true))
  {
    if a.cap > 0 && !fails {
      AttemptMirrors(s, b, a);
      B.AcquireSpec(b, a);
    }
  }

  lemma {:induction false} TargetRefines(
      world: P.World, s: P.Traffic, b: B.Backend, w: nat, q: Query, action: Action, body: Body)
    requires Matches(world, q) && Mirrors(world, s, b) && Publishes(action)
    ensures var s' := P.TargetStep(world, s, w, JobOf(q), action, q.clock.target, q.faults.target);
            var r := TargetStage(b, q, action, body);
            && Mirrors(world, s', r.backend) && s'.moves == s.moves
            && Reported(s, s', w, q.client, r.outcome.action, !r.outcome.err.Fine?)
  {
    var a := TargetAttempt(q);
    if a.cap > 0 && !q.faults.target {
      AttemptMirrors(s, b, a);
      B.AcquireSpec(b, a);
    }
  }

  // ---------------------------------------------------------------- evaluation

  /** A conditional write on the rows is the write on the table. */
  lemma {:induction false} LandingMirrors(
      flap: C.Key -> Option<FlapConfig>, st: C.System, b: B.Backend, w: nat, c: C.Call, io: Io)
    requires b.OnDdb? && B.Sound(b) && RowsMirror(st, b) && w in st.calls && st.calls[w] == c
    requires c.loaded == Get(st.rows, c.key) && C.Verdict(flap, c).Write? && !io.RequestLost?
    ensures var u := B.Upserted(b, c.key.client, c.key.scope, Version(c.loaded), C.Verdict(flap, c).next);
            && u.backend.OnDdb? && B.Sound(u.backend) && SameTokens(b, u.backend)
            && (C.Lands(flap, st, c, io) <==> u.ok)
            && RowsMirror(C.Conclude(flap, st, w, c, io), u.backend)
  {
    var next := C.Verdict(flap, c).next;
    Ddb.UpsertIsCas(b.ddb, c.key.client, c.key.scope, Version(c.loaded), next);
    var u := B.Upserted(b, c.key.client, c.key.scope, Version(c.loaded), next);
    var st' := C.Conclude(flap, st, w, c, io);
    assert B.RowAt(b, c.key.client, c.key.scope) == Get(st.rows, c.key);
    forall cl, sc
      ensures B.RowAt(u.backend, cl, sc) == Get(st'.rows, C.Key(cl, sc))
    {
      assert B.RowAt(b, cl, sc) == Get(st.rows, C.Key(cl, sc));
      if cl == c.key.client && sc == c.key.scope {
        assert C.Key(cl, sc) == c.key;
      }
    }
  }

  /** What a request's write step does to the store and answers. */
  lemma {:induction false} WriteMirrors(
      flap: C.Key -> Option<FlapConfig>, st: C.System, b: B.Backend, w: nat, c: C.Call, io: Io)
    requires b.OnDdb? && B.Sound(b) && RowsMirror(st, b) && w in st.calls && st.calls[w] == c
    requires c.loaded == Get(st.rows, c.key)
    ensures var st' := C.Apply(flap, st, C.Finish(w, io));
            var d := C.Verdict(flap, c);
            var u := if d.Write? && !io.RequestLost?
                     then B.Upserted(b, c.key.client, c.key.scope, Version(c.loaded), d.next)
                     else B.Stored(b, true);
            && u.backend.OnDdb? && B.Sound(u.backend) && SameTokens(b, u.backend) && RowsMirror(st', u.backend)
            && |st'.done| == |st.done| + 1
            && st'.done[|st.done|].reply
               == Answer(d, if d.Write? && !io.Clean? then Failed else if u.ok then Committed else Refused)
  {
    if C.Verdict(flap, c).Write? && !io.RequestLost? {
      LandingMirrors(flap, st, b, w, c, io);
    } else {
      assert C.Conclude(flap, st, w, c, io).rows == st.rows;
    }
  }

  /** The call of `w` is the request's, on the row as it is. */
  ghost predicate Loaded(world: P.World, s: P.Traffic, b: B.Backend, w: nat, q: Query)
    requires q.selected.Value?
  {
    var st := P.Store(world, s);
    && w in st.calls
    && st.calls[w].key == C.Key(q.client, ScopeKey(q.hash)) && st.calls[w].ev == EventOf(NoticeOf(q))
    && st.calls[w].loaded == B.RowAt(b, q.client, ScopeKey(q.hash)) == Get(st.rows, st.calls[w].key)
  }

  /** The state after the load of a request whose worker has no call in flight. */
  lemma {:induction false} LoadMirrors(world: P.World, s: P.Traffic, b: B.Backend, w: nat, q: Query)
    requires Matches(world, q) && Mirrors(world, s, b) && w !in P.Store(world, s).calls && q.selected.Value?
    requires !q.faults.load
    ensures var s' := P.LoadStep(world, s, w, JobOf(q), q.clock.eval, q.encoded, false);
            && Mirrors(world, s', b)
            && s'.jobs == s.jobs[w := P.AtWrite(JobOf(q), q.encoded.Some?)] && s'.results == s.results
            && Loaded(world, s', b, w, q)
  {
    var s' := P.LoadStep(world, s, w, JobOf(q), q.clock.eval, q.encoded, false);
    P.StoreSnoc(world, s, s', C.Load(w, P.KeyOf(world, q.client), EventOf(NoticeOf(q))));
  }

  lemma {:induction false} LoadFailureMirrors(world: P.World, s: P.Traffic, b: B.Backend, w: nat, q: Query)
    requires Matches(world, q) && Mirrors(world, s, b) && q.selected.Value?
    ensures var s' := P.LoadStep(world, s, w, JobOf(q), q.clock.eval, q.encoded, true);
            Mirrors(world, s', b) && Reported(s, s', w, q.client, NoOp, true)
  {
    var s' := P.LoadStep(world, s, w, JobOf(q), q.clock.eval, q.encoded, true);
    P.StoreSnoc(world, s, s', C.LoadFails(w, P.KeyOf(world, q.client), EventOf(NoticeOf(q))));
  }

  lemma {:induction false} GiveUpMirrors(world: P.World, s: P.Traffic, b: B.Backend, w: nat, q: Query)
    requires Mirrors(world, s, b)
    ensures var s' := P.GiveUp(s, w, JobOf(q));
            Mirrors(world, s', b) && Reported(s, s', w, q.client, NoOp, true)
  {
    P.StoreSnoc(world, s, P.GiveUp(s, w, JobOf(q)), C.Abandon(w));
  }

  /** The request has left with its reply, or waits for the target limiter with it. */
  predicate Settled(s: P.Traffic, s': P.Traffic, w: nat, q: Query, reply: Reply) {
    if !reply.err && Publishes(reply.action) then
      s'.jobs == s.jobs[w := P.AtTarget(JobOf(q), reply.action)] && s'.results == s.results
    else Reported(s, s', w, q.client, reply.action, reply.err)
  }

  lemma {:induction false} WriteRefines(
      world: P.World, s: P.Traffic, b: B.Backend, w: nat, q: Query, c: C.Call, io: Io)
    requires Mirrors(world, s, b) && w in P.Store(world, s).calls && P.Store(world, s).calls[w] == c
    requires c.loaded == Get(P.Store(world, s).rows, c.key)
    ensures var s' := P.WriteStep(world, s, w, JobOf(q), io);
            var d := C.Verdict(P.Flap(world), c);
            var u := if d.Write? && !io.RequestLost?
                     then B.Upserted(b, c.key.client, c.key.scope, Version(c.loaded), d.next)
                     else B.Stored(b, true);
            var reply := Answer(d, if d.Write? && !io.Clean? then Failed else if u.ok then Committed else Refused);
            Mirrors(world, s', u.backend) && Settled(s, s', w, q, reply)
  {
    var moved := s.(moves := s.moves + [C.Finish(w, io)]);
    P.StoreSnoc(world, s, moved, C.Finish(w, io));
    WriteMirrors(P.Flap(world), P.Store(world, s), b, w, c, io);
  }

  lemma {:induction false} SettledEarlier(s: P.Traffic, s1: P.Traffic, s': P.Traffic, w: nat, q: Query, reply: Reply)
    requires Settled(s1, s', w, q, reply) && s1.results == s.results && s1.jobs - {w} == s.jobs - {w}
    ensures Settled(s, s', w, q, reply)
  {
    if !reply.err && Publishes(reply.action) {
      var next := P.AtTarget(JobOf(q), reply.action);
      assert s1.jobs[w := next] == (s1.jobs - {w})[w := next];
      assert s.jobs[w := next] == (s.jobs - {w})[w := next];
    }
  }

  lemma {:induction false} EncodedRefines(world: P.World, s: P.Traffic, b: B.Backend, w: nat, q: Query)
    requires Matches(world, q) && Mirrors(world, s, b) && !q.faults.load && q.selected.Value?
    requires Loaded(world, s, b, w, q) && (q.encoded.Some? || !P.NeedsPayload(P.Store(world, s), w))
    ensures var s' := P.WriteStep(world, s, w, JobOf(q), q.faults.write);
            var e := EvaluateOn(b, q.client, ScopeKey(q.hash), NoticeOf(q), q.cc.flapping, q.faults);
            Mirrors(world, s', e.backend) && Settled(s, s', w, q, e.reply)
  {
    var c := P.Store(world, s).calls[w];
    WriteRefines(world, s, b, w, q, c, q.faults.write);
    EvaluateShape(b, q, C.Verdict(P.Flap(world), c));
  }

  lemma {:induction false} LoadedRefines(world: P.World, s: P.Traffic, b: B.Backend, w: nat, q: Query)
    requires Matches(world, q) && Mirrors(world, s, b) && !q.faults.load && q.selected.Value?
    requires Loaded(world, s, b, w, q)
    ensures var s' := P.FinishStep(world, s, w, JobOf(q), q.encoded.Some?, q.faults.write);
            var e := EvaluateOn(b, q.client, ScopeKey(q.hash), NoticeOf(q), q.cc.flapping, q.faults);
            Mirrors(world, s', e.backend) && Settled(s, s', w, q, e.reply)
  {
    if q.encoded.None? && P.NeedsPayload(P.Store(world, s), w) {
      GiveUpMirrors(world, s, b, w, q);
    } else {
      EncodedRefines(world, s, b, w, q);
    }
  }

  /** The load and the write of a request, taken back to back. */
  function Evaluated(world: P.World, s: P.Traffic, w: nat, q: Query): P.Traffic {
    var s1 := P.LoadStep(world, s, w, JobOf(q), q.clock.eval, q.encoded, q.faults.load);
    if q.faults.load then s1 else P.FinishStep(world, s1, w, JobOf(q), q.encoded.Some?, q.faults.write)
  }

  lemma {:induction false} FinishRefines(
      world: P.World, s: P.Traffic, s1: P.Traffic, b: B.Backend, w: nat, q: Query, stage: P.Stage)
    requires Matches(world, q) && Mirrors(world, s1, b) && !q.faults.load && q.selected.Value?
    requires Loaded(world, s1, b, w, q) && s1.jobs == s.jobs[w := stage] && s1.results == s.results
    ensures var s' := P.FinishStep(world, s1, w, JobOf(q), q.encoded.Some?, q.faults.write);
            var e := EvaluateOn(b, q.client, ScopeKey(q.hash), NoticeOf(q), q.cc.flapping, q.faults);
            Mirrors(world, s', e.backend) && Settled(s, s', w, q, e.reply)
  {
    var s' := P.FinishStep(world, s1, w, JobOf(q), q.encoded.Some?, q.faults.write);
    LoadedRefines(world, s1, b, w, q);
    assert s1.jobs - {w} == s.jobs - {w};
    SettledEarlier(
      s, s1, s', w, q, EvaluateOn(b, q.client, ScopeKey(q.hash), NoticeOf(q), q.cc.flapping, q.faults).reply);
  }

  lemma {:induction false} LoadedEvaluationRefines(world: P.World, s: P.Traffic, b: B.Backend, w: nat, q: Query)
    requires Matches(world, q) && Mirrors(world, s, b) && w !in P.Store(world, s).calls && q.selected.Value?
    requires !q.faults.load
    ensures var s1 := P.LoadStep(world, s, w, JobOf(q), q.clock.eval, q.encoded, false);
            var s' := P.FinishStep(world, s1, w, JobOf(q), q.encoded.Some?, q.faults.write);
            var e := EvaluateOn(b, q.client, ScopeKey(q.hash), NoticeOf(q), q.cc.flapping, q.faults);
            Mirrors(world, s', e.backend) && Settled(s, s', w, q, e.reply)
  {
    LoadMirrors(world, s, b, w, q);
    FinishRefines(world, s, P.LoadStep(world, s, w, JobOf(q), q.clock.eval, q.encoded, false), b, w, q,
                  P.AtWrite(JobOf(q), q.encoded.Some?));
  }

  lemma {:induction false} EvaluationRefines(world: P.World, s: P.Traffic, b: B.Backend, w: nat, q: Query)
    requires Matches(world, q) && Mirrors(world, s, b) && w !in P.Store(world, s).calls && q.selected.Value?
    ensures var s' := Evaluated(world, s, w, q);
            var e := EvaluateOn(b, q.client, ScopeKey(q.hash), NoticeOf(q), q.cc.flapping, q.faults);
            Mirrors(world, s', e.backend) && Settled(s, s', w, q, e.reply)
  {
    if q.faults.load {
      LoadFailureMirrors(world, s, b, w, q);
    } else {
      LoadedEvaluationRefines(world, s, b, w, q);
    }
  }

  // ---------------------------------------------------------------- a whole request

  /** The last step of a request. */
  function FromTarget(world: P.World, s: P.Traffic, w: nat, q: Query): P.Traffic {
    P.Apply(world, s, P.TakeTarget(w, q.clock.target, q.faults.target))
  }

  /** The steps of a request from its load on. */
  function FromLoad(world: P.World, s: P.Traffic, w: nat, q: Query): P.Traffic {
    var loaded := P.Apply(world, s, P.LoadRow(w, q.clock.eval, q.encoded, q.faults.load));
    FromTarget(world, P.Apply(world, loaded, P.WriteRow(w, q.faults.write)), w, q)
  }

  function FromClient(world: P.World, s: P.Traffic, w: nat, q: Query): P.Traffic {
    FromLoad(world, P.Apply(world, s, P.TakeClient(w, q.clock.client, q.faults.client)), w, q)
  }

  /** All steps of a request, taken by one worker back to back. */
  function BackToBack(world: P.World, s: P.Traffic, w: nat, q: Query): P.Traffic {
    var arrived := P.Apply(world, s, P.Arrive(w, JobOf(q)));
    FromClient(world, P.Apply(world, arrived, P.TakeIp(w, q.clock.ip, q.faults.ip)), w, q)
  }

  /** Steps of a request that has left do nothing. */
  lemma {:induction false} LeftIsOver(world: P.World, s: P.Traffic, w: nat, q: Query)
    requires w !in s.jobs
    ensures FromTarget(world, s, w, q) == s && FromLoad(world, s, w, q) == s && FromClient(world, s, w, q) == s
  {
  }

  lemma {:induction false} LoadApplies(world: P.World, s: P.Traffic, w: nat, q: Query)
    requires w in s.jobs && s.jobs[w] == P.AtLoad(JobOf(q))
    ensures P.Apply(world, s, P.LoadRow(w, q.clock.eval, q.encoded, q.faults.load))
         == P.LoadStep(world, s, w, JobOf(q), q.clock.eval, q.encoded, q.faults.load)
  {
  }

  lemma {:induction false} WriteApplies(world: P.World, s: P.Traffic, w: nat, q: Query, encoded: bool)
    ensures w in s.jobs && s.jobs[w] == P.AtWrite(JobOf(q), encoded) ==>
              P.Apply(world, s, P.WriteRow(w, q.faults.write))
              == P.FinishStep(world, s, w, JobOf(q), encoded, q.faults.write)
    ensures w !in s.jobs ==> P.Apply(world, s, P.WriteRow(w, q.faults.write)) == s
  {
  }

  lemma {:induction false} TargetApplies(world: P.World, s: P.Traffic, w: nat, q: Query, action: Action)
    requires w in s.jobs && s.jobs[w] == P.AtTarget(JobOf(q), action)
    ensures FromTarget(world, s, w, q)
         == P.TargetStep(world, s, w, JobOf(q), action, q.clock.target, q.faults.target)
  {
  }

  lemma {:induction false} EvaluatedSteps(world: P.World, s: P.Traffic, w: nat, q: Query)
    requires w in s.jobs && s.jobs[w] == P.AtLoad(JobOf(q)) && q.selected.Value?
    ensures FromLoad(world, s, w, q) == FromTarget(world, Evaluated(world, s, w, q), w, q)
  {
    LoadApplies(world, s, w, q);
    var s1 := P.LoadStep(world, s, w, JobOf(q), q.clock.eval, q.encoded, q.faults.load);
    WriteApplies(world, s1, w, q, q.encoded.Some?);
  }

  lemma {:induction false} WaitingPublishes(
      world: P.World, s: P.Traffic, s': P.Traffic, b: B.Backend, w: nat, q: Query, action: Action, body: Body)
    requires Matches(world, q) && Mirrors(world, s', b) && Publishes(action)
    requires s'.jobs == s.jobs[w := P.AtTarget(JobOf(q), action)] && s'.results == s.results
    ensures var end := FromTarget(world, s', w, q);
            var r := TargetStage(b, q, action, body);
            && Mirrors(world, end, r.backend)
            && Reported(s, end, w, q.client, r.outcome.action, !r.outcome.err.Fine?)
  {
    TargetApplies(world, s', w, q, action);
    TargetRefines(world, s', b, w, q, action, body);
    assert s'.jobs - {w} == s.jobs - {w};
  }

  lemma {:induction false} TargetSteps(
      world: P.World, s: P.Traffic, s': P.Traffic, b: B.Backend, w: nat, q: Query, reply: Reply, body: Body)
    requires Matches(world, q) && Settled(s, s', w, q, reply) && Mirrors(world, s', b)
    ensures var end := FromTarget(world, s', w, q);
            var r := if reply.err then Ran(b, Outcome(reply.action, INTERNAL_ERROR, body, EvaluationError))
                     else TargetStage(b, q, reply.action, body);
            && Mirrors(world, end, r.backend)
            && Reported(s, end, w, q.client, r.outcome.action, !r.outcome.err.Fine?)
  {
    if !reply.err && Publishes(reply.action) {
      WaitingPublishes(world, s, s', b, w, q, reply.action, body);
    } else {
      LeftIsOver(world, s', w, q);
    }
  }

  lemma {:induction false} UnevaluatedRefines(
      world: P.World, s: P.Traffic, b: B.Backend, w: nat, q: Query, decode: string -> Option<string>)
    requires Matches(world, q) && Mirrors(world, s, b) && w in s.jobs && s.jobs[w] == P.AtLoad(JobOf(q))
    requires q.passthrough || q.cc.fieldExpr == "" || !q.selected.Value?
    ensures var end := P.Dispatch(world, s, w, JobOf(q));
            var r := EdgeStage(b, q, decode);
            && Mirrors(world, end, r.backend) && w !in end.jobs
            && Reported(s, end, w, q.client, r.outcome.action, !r.outcome.err.Fine?)
  {
  }

  lemma {:induction false} EvaluatedRefines(
      world: P.World, s: P.Traffic, b: B.Backend, w: nat, q: Query, decode: string -> Option<string>)
    requires Matches(world, q) && Mirrors(world, s, b) && w !in P.Store(world, s).calls
    requires w in s.jobs && s.jobs[w] == P.AtLoad(JobOf(q))
    requires !q.passthrough && q.cc.fieldExpr != "" && q.selected.Value?
    ensures var end := FromLoad(world, s, w, q);
            var r := EdgeStage(b, q, decode);
            && Mirrors(world, end, r.backend)
            && Reported(s, end, w, q.client, r.outcome.action, !r.outcome.err.Fine?)
  {
    var e := EvaluateOn(b, q.client, ScopeKey(q.hash), NoticeOf(q), q.cc.flapping, q.faults);
    EvaluationRefines(world, s, b, w, q);
    EvaluatedSteps(world, s, w, q);
    TargetSteps(world, s, Evaluated(world, s, w, q), e.backend, w, q, e.reply, DigestFor(b, q, e.reply.source, decode));
  }

  lemma {:induction false} EdgeRefines(
      world: P.World, s: P.Traffic, b: B.Backend, w: nat, q: Query, decode: string -> Option<string>)
    requires Matches(world, q) && Mirrors(world, s, b) && w !in P.Store(world, s).calls
    requires w in s.jobs && s.jobs[w] == P.AtLoad(JobOf(q))
    ensures var end := FromLoad(world, P.Dispatch(world, s, w, JobOf(q)), w, q);
            var r := EdgeStage(b, q, decode);
            && Mirrors(world, end, r.backend)
            && Reported(s, end, w, q.client, r.outcome.action, !r.outcome.err.Fine?)
  {
    if !q.passthrough && q.cc.fieldExpr != "" && q.selected.Value? {
      EvaluatedRefines(world, s, b, w, q, decode);
    } else {
      UnevaluatedRefines(world, s, b, w, q, decode);
      LeftIsOver(world, P.Dispatch(world, s, w, JobOf(q)), w, q);
    }
  }

  lemma {:induction false} ReportedEarlier(
      s: P.Traffic, s1: P.Traffic, end: P.Traffic, w: nat, client: string, action: Action, err: bool)
    requires Reported(s1, end, w, client, action, err) && s1.results == s.results && s1.jobs - {w} == s.jobs - {w}
    ensures Reported(s, end, w, client, action, err)
  {
  }

  lemma {:induction false} ClientApplies(world: P.World, s: P.Traffic, w: nat, q: Query)
    requires Matches(world, q) && w in s.jobs && s.jobs[w] == P.AtClient(JobOf(q))
    ensures var limited := P.Limit(s, w, q.client, ClientAttempt(q), q.faults.client, P.AtLoad(JobOf(q)));
            P.Apply(world, s, P.TakeClient(w, q.clock.client, q.faults.client))
            == P.Dispatch(world, limited, w, JobOf(q))
  {
  }

  lemma {:induction false} IpApplies(world: P.World, s: P.Traffic, w: nat, q: Query)
    requires Matches(world, q) && w !in s.jobs
    ensures var arrived := P.Apply(world, s, P.Arrive(w, JobOf(q)));
            && arrived == s.(jobs := s.jobs[w := P.AtIp(JobOf(q))])
            && P.Apply(world, arrived, P.TakeIp(w, q.clock.ip, q.faults.ip))
               == P.Limit(arrived, w, q.client, IpAttempt(q), q.faults.ip, P.AtClient(JobOf(q)))
  {
  }

  lemma {:induction false} ClientRefines(
      world: P.World, s: P.Traffic, b: B.Backend, w: nat, q: Query, decode: string -> Option<string>)
    requires Matches(world, q) && Mirrors(world, s, b) && w !in P.Store(world, s).calls
    requires w in s.jobs && s.jobs[w] == P.AtClient(JobOf(q))
    ensures var end := FromClient(world, s, w, q);
            var r := ClientStage(b, q, decode);
            && Mirrors(world, end, r.backend)
            && Reported(s, end, w, q.client, r.outcome.action, !r.outcome.err.Fine?)
  {
    var s1 := P.Limit(s, w, q.client, ClientAttempt(q), q.faults.client, P.AtLoad(JobOf(q)));
    var g := Gate(b, ClientAttempt(q), q.faults.client);
    ClientApplies(world, s, w, q);
    LimitRefinesGate(world, s, b, w, q.client, ClientAttempt(q), q.faults.client, P.AtLoad(JobOf(q)));
    if g.verdict.Pass? {
      EdgeRefines(world, s1, g.backend, w, q, decode);
      var o := EdgeStage(g.backend, q, decode).outcome;
      assert s1.jobs - {w} == s.jobs - {w};
      ReportedEarlier(s, s1, FromClient(world, s, w, q), w, q.client, o.action, !o.err.Fine?);
    } else {
      LeftIsOver(world, s1, w, q);
    }
  }

  /**
   * The steps of a request taken back to back, whatever other requests are in the pipeline, end with the
   * action and error of the request as one function, and leave the rows and counters that it leaves.
   */
  lemma {:induction false} StepsRefineRun(
      world: P.World, s: P.Traffic, b: B.Backend, w: nat, q: Query, decode: string -> Option<string>)
    requires Matches(world, q) && Mirrors(world, s, b) && P.Routed(world, s) && w !in s.jobs
    ensures var end := BackToBack(world, s, w, q);
            var r := RunOn(b, q, decode);
            && Mirrors(world, end, r.backend)
            && Reported(s, end, w, q.client, r.outcome.action, !r.outcome.err.Fine?)
  {
    var arrived := s.(jobs := s.jobs[w := P.AtIp(JobOf(q))]);
    var s1 := P.Limit(arrived, w, q.client, IpAttempt(q), q.faults.ip, P.AtClient(JobOf(q)));
    var g := Gate(b, IpAttempt(q), q.faults.ip);
    IpApplies(world, s, w, q);
    LimitRefinesGate(world, arrived, b, w, q.client, IpAttempt(q), q.faults.ip, P.AtClient(JobOf(q)));
    assert arrived.jobs - {w} == s.jobs - {w};
    if g.verdict.Pass? {
      ClientRefines(world, s1, g.backend, w, q, decode);
      var o := ClientStage(g.backend, q, decode).outcome;
      assert s1.jobs - {w} == s.jobs - {w};
      ReportedEarlier(s, s1, BackToBack(world, s, w, q), w, q.client, o.action, !o.err.Fine?);
    } else {
      LeftIsOver(world, s1, w, q);
    }
  }

  // ---------------------------------------------------------------- requests one after the other

  function StepsOf(w: nat, q: Query): seq<P.Step> {
    [P.Arrive(w, JobOf(q)), P.TakeIp(w, q.clock.ip, q.faults.ip), P.TakeClient(w, q.clock.client, q.faults.client),
     P.LoadRow(w, q.clock.eval, q.encoded, q.faults.load), P.WriteRow(w, q.faults.write),
     P.TakeTarget(w, q.clock.target, q.faults.target)]
  }

  /** One request after the other, each by worker 0. */
  function SerialSteps(qs: seq<Query>): seq<P.Step> {
    if qs == [] then [] else SerialSteps(qs[..|qs| - 1]) + StepsOf(0, qs[|qs| - 1])
  }

  lemma {:induction false} ExecSnoc(world: P.World, steps: seq<P.Step>, m: P.Step)
    ensures P.ExecAll(world, steps + [m]) == P.Apply(world, P.ExecAll(world, steps), m)
  {
    assert (steps + [m])[..|steps|] == steps;
  }

  lemma {:induction false} ExecBackToBack(world: P.World, steps: seq<P.Step>, w: nat, q: Query)
    ensures P.ExecAll(world, steps + StepsOf(w, q)) == BackToBack(world, P.ExecAll(world, steps), w, q)
  {
    var m := StepsOf(w, q);
    var s1 := steps + [m[0]];
    var s2 := s1 + [m[1]];
    var s3 := s2 + [m[2]];
    var s4 := s3 + [m[3]];
    var s5 := s4 + [m[4]];
    ExecSnoc(world, steps, m[0]);
    ExecSnoc(world, s1, m[1]);
    ExecSnoc(world, s2, m[2]);
    ExecSnoc(world, s3, m[3]);
    ExecSnoc(world, s4, m[4]);
    ExecSnoc(world, s5, m[5]);
    assert steps + m == s5 + [m[5]];
  }

  /** The results are those of the outcomes, in order. */
  predicate SameReports(results: seq<P.Result>, qs: seq<Query>, outcomes: seq<Outcome>) {
    && |results| == |qs| == |outcomes|
    && forall i :: 0 <= i < |qs| ==>
         && results[i].client == qs[i].client
         && results[i].action == outcomes[i].action
         && results[i].err == !outcomes[i].err.Fine?
  }

  ghost predicate Agree(world: P.World, s: P.Traffic, qs: seq<Query>, h: History) {
    Mirrors(world, s, h.backend) && SameReports(s.results, qs, h.outcomes) && s.jobs == map[]
  }

  lemma {:induction false} RequestKeepsAgreement(
      world: P.World, s: P.Traffic, qs: seq<Query>, h: History, q: Query, decode: string -> Option<string>)
    requires Agree(world, s, qs, h) && P.Routed(world, s) && Matches(world, q)
    ensures var r := RunOn(h.backend, q, decode);
            Agree(world, BackToBack(world, s, 0, q), qs + [q], History(r.backend, h.outcomes + [r.outcome]))
  {
    StepsRefineRun(world, s, h.backend, 0, q, decode);
    ReportsSnoc(s, BackToBack(world, s, 0, q), qs, q, h.outcomes, RunOn(h.backend, q, decode).outcome);
  }

  /**
   * Requests that do not overlap leave the same rows and counters and report the same actions and errors
   * in the interleaved pipeline as the request function run on the DynamoDB store.
   */
  lemma {:induction false} SerialStepsRefineRun(world: P.World, qs: seq<Query>, decode: string -> Option<string>)
    requires forall i :: 0 <= i < |qs| ==> Matches(world, qs[i])
    ensures Agree(world, P.ExecAll(world, SerialSteps(qs)), qs, RunAll(B.OnDdb(map[]), qs, decode))
  {
    if qs == [] {
      assert P.Store(world, P.IDLE) == C.EMPTY;
    } else {
      var init, q := qs[..|qs| - 1], qs[|qs| - 1];
      var s := P.ExecAll(world, SerialSteps(init));
      SerialStepsRefineRun(world, init, decode);
      P.PublishedWithinAnswers(world, SerialSteps(init), q.client);
      ExecBackToBack(world, SerialSteps(init), 0, q);
      RequestKeepsAgreement(world, s, init, RunAll(B.OnDdb(map[]), init, decode), q, decode);
      assert qs == init + [q];
    }
  }

  lemma {:induction false} ReportsSnoc(
      s: P.Traffic, end: P.Traffic, qs: seq<Query>, q: Query, outcomes: seq<Outcome>, o: Outcome)
    requires SameReports(s.results, qs, outcomes) && s.jobs == map[]
    requires Reported(s, end, 0, q.client, o.action, !o.err.Fine?)
    ensures SameReports(end.results, qs + [q], outcomes + [o]) && end.jobs == map[]
  {
    assert end.results == s.results + [end.results[|s.results|]];
  }
}
