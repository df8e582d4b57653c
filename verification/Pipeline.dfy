/**
 * Any number of requests in the pipeline at once, on DynamoDB. Every store operation is one atomic
 * step, so the store is the fold of two histories: the limiter attempts and the evaluation steps.
 */
module Pipeline {
  import opened Types
  import opened EdgeFlap
  import opened Keys
  import opened FloodLaws
  import opened CasProtocol
  import opened Rows
  import opened CasLaws
  import L = Limiter
  import opened Flow

  /** The configuration of every client and the hash of every trigger field, fixed for a run. */
  datatype World = World(config: string -> ClientConfig, hash: string -> nat)

  function Flap(world: World): Key -> Option<FlapConfig> {
    (k: Key) => world.config(k.client).flapping
  }

  function KeyOf(world: World, client: string): Key {
    Key(client, ScopeKey(world.hash(world.config(client).fieldExpr)))
  }

  datatype Job = Job(client: string, ip: string, passthrough: bool, selected: Selected)

  /** Where a request is; `encoded` tells whether its payload could be encoded. */
  datatype Stage =
    | AtIp(job: Job)
    | AtClient(job: Job)
    | AtLoad(job: Job)
    | AtWrite(job: Job, encoded: bool)
    | AtTarget(job: Job, action: Action)

  /** `minute` is the bucket the target token came from, where one was taken. */
  datatype Result = Result(client: string, action: Action, err: bool, minute: int)

  datatype Traffic = Traffic(
    attempts: seq<L.Attempt>,
    moves: seq<Move>,
    jobs: map<nat, Stage>,
    results: seq<Result>)

  datatype Step =
    | Arrive(worker: nat, job: Job)
    | TakeIp(worker: nat, now: int, fails: bool)
    | TakeClient(worker: nat, now: int, fails: bool)
    | LoadRow(worker: nat, now: int, payload: Option<string>, fails: bool)
    | WriteRow(worker: nat, io: Io)
    | TakeTarget(worker: nat, now: int, fails: bool)

  const IDLE := Traffic([], [], map[], [])

  function Store(world: World, s: Traffic): CasProtocol.System {
    Exec(Flap(world), s.moves)
  }

  function End(s: Traffic, w: nat, r: Result): Traffic {
    s.(jobs := s.jobs - {w}, results := s.results + [r])
  }

  /** Passes a limiter, or ends the request; `next` is where a request goes that passes. */
  function Limit(s: Traffic, w: nat, client: string, a: L.Attempt, fails: bool, next: Stage): Traffic {
    if a.cap <= 0 then s.(jobs := s.jobs[w := next])
    else if fails then End(s, w, Result(client, NoOp, true, 0))
    else
      var s' := s.(attempts := s.attempts + [a]);
      if L.Admits(L.After(s.attempts), a) then s'.(jobs := s.jobs[w := next])
      else End(s', w, Result(client, NoOp, true, 0))
  }

  /** Past the two entry limiters: requests that are not evaluated end here. */
  function Dispatch(world: World, s: Traffic, w: nat, j: Job): Traffic {
    if w !in s.jobs || s.jobs[w] != AtLoad(j) then s
    else if j.passthrough || world.config(j.client).fieldExpr == "" then
      End(s, w, Result(j.client, ForwardedAsIs, false, 0))
    else
      match j.selected
      case FieldFails => End(s, w, Result(j.client, NoOp, true, 0))
      case Missing => End(s, w, Result(j.client, NoOp, false, 0))
      case Value(_) => s
  }

  function LoadStep(
      world: World, s: Traffic, w: nat, j: Job, now: int, payload: Option<string>, fails: bool): Traffic
  {
    if !j.selected.Value? then s
    else
      var k := KeyOf(world, j.client);
      var ev := EventOf(Notice(j.selected.value, now, payload));
      if fails then End(s.(moves := s.moves + [LoadFails(w, k, ev)]), w, Result(j.client, NoOp, true, 0))
      else s.(moves := s.moves + [Load(w, k, ev)], jobs := s.jobs[w := AtWrite(j, payload.Some?)])
  }

  /** The call of `w` has found a flip, which needs its payload. */
  predicate NeedsPayload(store: CasProtocol.System, w: nat) {
    && w in store.calls
    && store.calls[w].loaded.Some?
    && store.calls[w].loaded.value.edge.lastValue != store.calls[w].ev.value
  }

  /** What the evaluation step answered, if it concluded a call. */
  function ReplyAfter(before: CasProtocol.System, after: CasProtocol.System): Reply {
    if |after.done| > |before.done| then after.done[|after.done| - 1].reply else Reply(NoOp, None, true)
  }

  /** A flip whose payload cannot be encoded is given up before its write. */
  function GiveUp(s: Traffic, w: nat, j: Job): Traffic {
    End(s.(moves := s.moves + [Abandon(w)]), w, Result(j.client, NoOp, true, 0))
  }

  function WriteStep(world: World, s: Traffic, w: nat, j: Job, io: Io): Traffic {
    var s' := s.(moves := s.moves + [Finish(w, io)]);
    var reply := ReplyAfter(Store(world, s), Store(world, s'));
    if reply.err then End(s', w, Result(j.client, reply.action, true, 0))
    else if Publishes(reply.action) then s'.(jobs := s'.jobs[w := AtTarget(j, reply.action)])
    else End(s', w, Result(j.client, reply.action, false, 0))
  }

  function FinishStep(world: World, s: Traffic, w: nat, j: Job, encoded: bool, io: Io): Traffic {
    if !encoded && NeedsPayload(Store(world, s), w) then GiveUp(s, w, j) else WriteStep(world, s, w, j, io)
  }

  function TargetOf(world: World, client: string, now: int): L.Attempt {
    var cc := world.config(client);
    L.Attempt(TargetScope(client, cc.snsArn), cc.snsRPM, now)
  }

  function TargetStep(world: World, s: Traffic, w: nat, j: Job, action: Action, now: int, fails: bool): Traffic {
    var a := TargetOf(world, j.client, now);
    if a.cap <= 0 then End(s, w, Result(j.client, action, false, L.Minute(now)))
    else if fails then End(s, w, Result(j.client, action, true, 0))
    else
      End(s.(attempts := s.attempts + [a]), w,
          if L.Admits(L.After(s.attempts), a) then Result(j.client, action, false, L.Minute(now))
          else Result(j.client, NoOp, false, 0))
  }

  function Apply(world: World, s: Traffic, m: Step): Traffic {
    if m.Arrive? then
      if m.worker in s.jobs then s else s.(jobs := s.jobs[m.worker := AtIp(m.job)])
    else if m.worker !in s.jobs then s
    else
      var w := m.worker;
      match (m, s.jobs[w])
      case (TakeIp(_, now, fails), AtIp(j)) =>
        Limit(s, w, j.client, L.Attempt(IpScope(j.ip), world.config(j.client).ipRPM, now), fails, AtClient(j))
      case (TakeClient(_, now, fails), AtClient(j)) =>
        var a := L.Attempt(ClientScope(j.client), world.config(j.client).clientRPM, now);
        Dispatch(world, Limit(s, w, j.client, a, fails, AtLoad(j)), w, j)
      case (LoadRow(_, now, payload, fails), AtLoad(j)) => LoadStep(world, s, w, j, now, payload, fails)
      case (WriteRow(_, io), AtWrite(j, encoded)) => FinishStep(world, s, w, j, encoded, io)
      case (TakeTarget(_, now, fails), AtTarget(j, action)) => TargetStep(world, s, w, j, action, now, fails)
      case _ => s
  }

  function ExecAll(world: World, steps: seq<Step>): Traffic {
    if steps == [] then IDLE else Apply(world, ExecAll(world, steps[..|steps| - 1]), steps[|steps| - 1])
  }

  // ---------------------------------------------------------------- the target budget

  /** A result of a client that is published without error. */
  predicate IsPublished(r: Result, client: string) {
    r.client == client && Publishes(r.action) && !r.err
  }

  predicate Counts(r: Result, client: string, minute: int) {
    IsPublished(r, client) && r.minute == minute
  }

  /** Results of a client that are published without error with a token of the given minute. */
  function PublishedIn(results: seq<Result>, client: string, minute: int): nat {
    if results == [] then 0
    else
      PublishedIn(results[..|results| - 1], client, minute)
      + (if Counts(results[|results| - 1], client, minute) then 1 else 0)
  }

  function TargetBucket(world: World, client: string, minute: int): L.Bucket {
    L.Bucket(TargetScope(client, world.config(client).snsArn), minute)
  }

  /** Grants to the client's own cap on its target bucket. */
  function TargetGrants(world: World, s: Traffic, client: string, minute: int): nat {
    L.Grants(s.attempts, L.InWithCap(TargetBucket(world, client, minute), world.config(client).snsRPM))
  }

  lemma {:induction false} PublishedSnoc(results: seq<Result>, r: Result, client: string, minute: int)
    ensures PublishedIn(results + [r], client, minute) ==
              PublishedIn(results, client, minute) + (if Counts(r, client, minute) then 1 else 0)
  {
    assert (results + [r])[..|results|] == results;
  }

  lemma {:induction false} GrantsSnoc(attempts: seq<L.Attempt>, a: L.Attempt, p: L.Attempt -> bool)
    ensures L.Grants(attempts + [a], p) ==
      L.Grants(attempts, p) + (if p(a) && L.Admits(L.After(attempts), a) then 1 else 0)
  {
    assert (attempts + [a])[..|attempts|] == attempts;
  }

  /** Steps other than the target limiter publish nothing and lose no grant. */
  ghost predicate Quiet(s: Traffic, s': Traffic) {
    && (s'.attempts == s.attempts || (|s'.attempts| == |s.attempts| + 1 && s'.attempts[..|s.attempts|] == s.attempts))
    && (s'.results == s.results
        || exists r: Result :: s'.results == s.results + [r] && (r.err || !Publishes(r.action)))
  }

  lemma {:induction false} QuietKeepsBudget(world: World, s: Traffic, s': Traffic, client: string, minute: int)
    requires Quiet(s, s') && PublishedIn(s.results, client, minute) <= TargetGrants(world, s, client, minute)
    ensures PublishedIn(s'.results, client, minute) <= TargetGrants(world, s', client, minute)
  {
    var p := L.InWithCap(TargetBucket(world, client, minute), world.config(client).snsRPM);
    if s'.attempts != s.attempts {
      var a := s'.attempts[|s.attempts|];
      assert s'.attempts == s.attempts + [a];
      GrantsSnoc(s.attempts, a, p);
    }
    if s'.results != s.results {
      var r: Result :| s'.results == s.results + [r] && (r.err || !Publishes(r.action));
      PublishedSnoc(s.results, r, client, minute);
    }
  }

  lemma {:induction false} LimitQuiet(s: Traffic, w: nat, client: string, a: L.Attempt, fails: bool, next: Stage)
    ensures Quiet(s, Limit(s, w, client, a, fails, next))
    ensures Limit(s, w, client, a, fails, next).moves == s.moves
    ensures Limit(s, w, client, a, fails, next).results != s.results ==> w !in Limit(s, w, client, a, fails, next).jobs
  {
    var r := Result(client, NoOp, true, 0);
    assert r.err;
  }

  lemma {:induction false} DispatchQuiet(world: World, s: Traffic, s': Traffic, w: nat, j: Job)
    requires Quiet(s, s') && (s'.results != s.results ==> w !in s'.jobs)
    ensures Quiet(s, Dispatch(world, s', w, j))
  {
    var t := Dispatch(world, s', w, j);
    if t.results != s'.results {
      assert s'.results == s.results;
      var r := t.results[|s.results|];
      assert t.results == s.results + [r] && (r.err || !Publishes(r.action));
    }
  }

  lemma {:induction false} StepQuiet(world: World, s: Traffic, m: Step)
    requires !m.TakeTarget?
    ensures Quiet(s, Apply(world, s, m))
  {
    if !m.Arrive? && m.worker in s.jobs {
      var w := m.worker;
      match (m, s.jobs[w])
      case (TakeIp(_, now, fails), AtIp(j)) =>
        LimitQuiet(s, w, j.client, L.Attempt(IpScope(j.ip), world.config(j.client).ipRPM, now), fails, AtClient(j));
      case (TakeClient(_, now, fails), AtClient(j)) =>
        var a := L.Attempt(ClientScope(j.client), world.config(j.client).clientRPM, now);
        LimitQuiet(s, w, j.client, a, fails, AtLoad(j));
        DispatchQuiet(world, s, Limit(s, w, j.client, a, fails, AtLoad(j)), w, j);
      case (LoadRow(_, now, payload, fails), AtLoad(j)) =>
        var r := Result(j.client, NoOp, true, 0);
        assert r.err;
      case (WriteRow(_, io), AtWrite(j, encoded)) =>
        WriteQuiet(world, s, w, j, io);
        GiveUpQuiet(s, w, j);
      case _ =>
    }
  }

  lemma {:induction false} GiveUpQuiet(s: Traffic, w: nat, j: Job)
    ensures Quiet(s, GiveUp(s, w, j))
  {
    var r := Result(j.client, NoOp, true, 0);
    assert r.err;
  }

  lemma {:induction false} WriteQuiet(world: World, s: Traffic, w: nat, j: Job, io: Io)
    ensures Quiet(s, WriteStep(world, s, w, j, io))
  {
    var s' := WriteStep(world, s, w, j, io);
    if s'.results != s.results {
      var r := s'.results[|s.results|];
      assert s'.results == s.results + [r] && (r.err || !Publishes(r.action));
    }
  }

  /** A counted result took an admitted token of the client's bucket at the client's cap. */
  lemma {:induction false} CountedTakesToken(
      world: World, s: Traffic, w: nat, j: Job, action: Action, now: int, fails: bool, client: string, minute: int)
    requires world.config(client).snsRPM > 0
    ensures var s' := TargetStep(world, s, w, j, action, now, fails);
            var a := TargetOf(world, j.client, now);
            && |s'.results| == |s.results| + 1 && s'.results[..|s.results|] == s.results
            && (s'.attempts == s.attempts || s'.attempts == s.attempts + [a])
            && (Counts(s'.results[|s.results|], client, minute) ==>
                  && s'.attempts == s.attempts + [a]
                  && L.Admits(L.After(s.attempts), a)
                  && L.BucketOf(a) == TargetBucket(world, client, minute)
                  && a.cap == world.config(client).snsRPM)
  {
  }

  lemma {:induction false} TargetKeepsBudget(
      world: World, s: Traffic, w: nat, j: Job, action: Action, now: int, fails: bool, client: string, minute: int)
    requires world.config(client).snsRPM > 0
    requires PublishedIn(s.results, client, minute) <= TargetGrants(world, s, client, minute)
    ensures var s' := TargetStep(world, s, w, j, action, now, fails);
            PublishedIn(s'.results, client, minute) <= TargetGrants(world, s', client, minute)
  {
    var s' := TargetStep(world, s, w, j, action, now, fails);
    CountedTakesToken(world, s, w, j, action, now, fails, client, minute);
    TokenKeepsBudget(world, s, s', TargetOf(world, j.client, now), client, minute);
  }

  lemma {:induction false} TokenKeepsBudget(
      world: World, s: Traffic, s': Traffic, a: L.Attempt, client: string, minute: int)
    requires |s'.results| == |s.results| + 1 && s'.results[..|s.results|] == s.results
    requires s'.attempts == s.attempts || s'.attempts == s.attempts + [a]
    requires Counts(s'.results[|s.results|], client, minute) ==>
               && s'.attempts == s.attempts + [a]
               && L.Admits(L.After(s.attempts), a)
               && L.BucketOf(a) == TargetBucket(world, client, minute)
               && a.cap == world.config(client).snsRPM
    requires PublishedIn(s.results, client, minute) <= TargetGrants(world, s, client, minute)
    ensures PublishedIn(s'.results, client, minute) <= TargetGrants(world, s', client, minute)
  {
    GrantsSnoc(s.attempts, a, L.InWithCap(TargetBucket(world, client, minute), world.config(client).snsRPM));
  }

  lemma {:induction false} PublishedWithinGrants(world: World, steps: seq<Step>, client: string, minute: int)
    requires world.config(client).snsRPM > 0
    ensures var s := ExecAll(world, steps);
            PublishedIn(s.results, client, minute) <= TargetGrants(world, s, client, minute)
  {
    if steps != [] {
      var n := |steps| - 1;
      var s, m := ExecAll(world, steps[..n]), steps[n];
      PublishedWithinGrants(world, steps[..n], client, minute);
      if m.TakeTarget? {
        if m.worker in s.jobs && s.jobs[m.worker].AtTarget? {
          TargetKeepsBudget(
            world, s, m.worker, s.jobs[m.worker].job, s.jobs[m.worker].action, m.now, m.fails, client, minute);
        }
      } else {
        StepQuiet(world, s, m);
        QuietKeepsBudget(world, s, Apply(world, s, m), client, minute);
      }
    }
  }

  /**
   * In every interleaving of requests, a client with a positive target rate gets at most that many
   * error-free edge forwards and aggregates per minute, also when other clients share its counter.
   */
  lemma {:induction false} TargetBudget(world: World, steps: seq<Step>, client: string, minute: int)
    requires world.config(client).snsRPM > 0
    ensures PublishedIn(ExecAll(world, steps).results, client, minute) <= world.config(client).snsRPM
  {
    PublishedWithinGrants(world, steps, client, minute);
    L.GrantsUnderOwnCap(
      ExecAll(world, steps).attempts, TargetBucket(world, client, minute), world.config(client).snsRPM);
  }

  // ---------------------------------------------------------------- the flood bound, end to end

  /** All published results of a client. */
  function EverPublished(results: seq<Result>, client: string): nat {
    if results == [] then 0
    else
      EverPublished(results[..|results| - 1], client)
      + (if IsPublished(results[|results| - 1], client) then 1 else 0)
  }

  lemma {:induction false} EverPublishedSnoc(results: seq<Result>, r: Result, client: string)
    ensures EverPublished(results + [r], client) ==
              EverPublished(results, client) + (if IsPublished(r, client) then 1 else 0)
  {
    assert (results + [r])[..|results|] == results;
  }

  /** The requests of a client that evaluation wants published and the target limiter has not seen. */
  function Waiting(jobs: map<nat, Stage>, client: string): set<nat> {
    set w | w in jobs && jobs[w].AtTarget? && jobs[w].job.client == client
  }

  /** Calls in flight belong to requests at their write, on the key of their client. */
  ghost predicate Routed(world: World, s: Traffic) {
    forall w :: w in Store(world, s).calls ==>
      w in s.jobs && s.jobs[w].AtWrite? && Store(world, s).calls[w].key == KeyOf(world, s.jobs[w].job.client)
  }

  ghost predicate Accounted(world: World, s: Traffic, client: string) {
    EverPublished(s.results, client) + |Waiting(s.jobs, client)|
    <= Notified(Store(world, s).done, KeyOf(world, client))
  }

  lemma {:induction false} StoreSnoc(world: World, s: Traffic, s': Traffic, m: Move)
    requires s'.moves == s.moves + [m]
    ensures Store(world, s') == CasProtocol.Apply(Flap(world), Store(world, s), m)
  {
    assert s'.moves[..|s.moves|] == s.moves;
  }

  lemma {:induction false} SizesFollow(a: set<nat>, b: set<nat>, w: nat)
    requires a - {w} == b - {w}
    ensures |b| - |a| == (if w in b then 1 else 0) - (if w in a then 1 else 0)
  {
    assert |a| == |a - {w}| + (if w in a then 1 else 0) by {
      if w !in a {
        assert a - {w} == a;
      }
    }
    assert |b| == |b - {w}| + (if w in b then 1 else 0) by {
      if w !in b {
        assert b - {w} == b;
      }
    }
  }

  lemma {:induction false} WaitingMoves(jobs: map<nat, Stage>, jobs': map<nat, Stage>, w: nat, client: string)
    requires forall v :: v != w ==> (v in jobs <==> v in jobs') && (v in jobs ==> jobs[v] == jobs'[v])
    ensures w in Waiting(jobs, client) && w !in Waiting(jobs', client) ==>
              |Waiting(jobs', client)| == |Waiting(jobs, client)| - 1
    ensures w !in Waiting(jobs, client) && w in Waiting(jobs', client) ==>
              |Waiting(jobs', client)| == |Waiting(jobs, client)| + 1
    ensures (w in Waiting(jobs, client)) == (w in Waiting(jobs', client)) ==>
              |Waiting(jobs', client)| == |Waiting(jobs, client)|
  {
    SizesFollow(Waiting(jobs, client), Waiting(jobs', client), w);
  }

  /** A step before evaluation: the store of rows is untouched and no request joins or leaves the wait. */
  ghost predicate Upstream(s: Traffic, s': Traffic, w: nat) {
    && s'.moves == s.moves
    && OtherJobsSame(s, s', w)
    && (w in s.jobs ==> !s.jobs[w].AtTarget? && !s.jobs[w].AtWrite?)
    && (w in s'.jobs ==> !s'.jobs[w].AtTarget? && !s'.jobs[w].AtWrite?)
    && Quiet(s, s')
  }

  lemma {:induction false} QuietPublishes(s: Traffic, s': Traffic, client: string)
    requires Quiet(s, s')
    ensures EverPublished(s'.results, client) == EverPublished(s.results, client)
  {
    if s'.results != s.results {
      var r: Result :| s'.results == s.results + [r] && (r.err || !Publishes(r.action));
      EverPublishedSnoc(s.results, r, client);
    }
  }

  ghost predicate OtherJobsSame(s: Traffic, s': Traffic, w: nat) {
    forall v :: v != w ==> (v in s.jobs <==> v in s'.jobs) && (v in s.jobs ==> s.jobs[v] == s'.jobs[v])
  }

  /** A step that leaves the rows alone, by a worker that has no call in flight. */
  lemma {:induction false} SameStoreRouted(world: World, s: Traffic, s': Traffic, w: nat)
    requires Routed(world, s) && s'.moves == s.moves && OtherJobsSame(s, s', w)
    requires w in s.jobs ==> !s.jobs[w].AtWrite?
    ensures Routed(world, s')
  {
  }

  lemma {:induction false} SameStoreAccounted(world: World, s: Traffic, s': Traffic, client: string)
    requires Accounted(world, s, client) && s'.moves == s.moves
    requires EverPublished(s'.results, client) + |Waiting(s'.jobs, client)|
          <= EverPublished(s.results, client) + |Waiting(s.jobs, client)|
    ensures Accounted(world, s', client)
  {
  }

  lemma {:induction false} UpstreamKeeps(world: World, s: Traffic, s': Traffic, w: nat, client: string)
    requires Upstream(s, s', w) && Routed(world, s) && Accounted(world, s, client)
    ensures Routed(world, s') && Accounted(world, s', client)
  {
    QuietPublishes(s, s', client);
    WaitingMoves(s.jobs, s'.jobs, w, client);
    SameStoreRouted(world, s, s', w);
    SameStoreAccounted(world, s, s', client);
  }

  lemma {:induction false} LoadKeeps(
      world: World, s: Traffic, w: nat, j: Job, now: int, payload: Option<string>, fails: bool, client: string)
    requires w in s.jobs && s.jobs[w] == AtLoad(j) && Routed(world, s) && Accounted(world, s, client)
    ensures var s' := LoadStep(world, s, w, j, now, payload, fails);
            Routed(world, s') && Accounted(world, s', client)
  {
    var s' := LoadStep(world, s, w, j, now, payload, fails);
    if j.selected.Value? {
      var k, ev := KeyOf(world, j.client), EventOf(Notice(j.selected.value, now, payload));
      WaitingMoves(s.jobs, s'.jobs, w, client);
      if fails {
        StoreSnoc(world, s, s', LoadFails(w, k, ev));
        NotifiedSnoc(Store(world, s).done, Delivery(w, k, ev, Reply(NoOp, None, true), 0), KeyOf(world, client));
        EverPublishedSnoc(s.results, Result(j.client, NoOp, true, 0), client);
      } else {
        StoreSnoc(world, s, s', Load(w, k, ev));
      }
    }
  }

  /** Finishing a call adds one answer, on its key, or nothing when no call was in flight. */
  lemma {:induction false} FinishAnswers(world: World, s: Traffic, w: nat, io: Io)
    ensures var before := Store(world, s);
            var after := CasProtocol.Apply(Flap(world), before, Finish(w, io));
            && after.calls == before.calls - {w}
            && (w !in before.calls ==> after.done == before.done)
            && (w in before.calls ==>
                  && |after.done| == |before.done| + 1
                  && after.done[..|before.done|] == before.done
                  && after.done[|before.done|].key == before.calls[w].key
                  && after.done[|before.done|].reply == ReplyAfter(before, after))
  {
    var before := Store(world, s);
    if w !in before.calls {
      assert before.calls - {w} == before.calls;
    }
  }

  lemma {:induction false} GiveUpKeeps(world: World, s: Traffic, w: nat, j: Job, client: string)
    requires w in s.jobs && s.jobs[w].AtWrite? && Routed(world, s) && Accounted(world, s, client)
    ensures Routed(world, GiveUp(s, w, j)) && Accounted(world, GiveUp(s, w, j), client)
  {
    var s' := GiveUp(s, w, j);
    StoreSnoc(world, s, s', Abandon(w));
    WaitingMoves(s.jobs, s'.jobs, w, client);
    EverPublishedSnoc(s.results, Result(j.client, NoOp, true, 0), client);
  }

  lemma {:induction false} WriteRouted(world: World, s: Traffic, w: nat, j: Job, io: Io)
    requires w in s.jobs && Routed(world, s)
    ensures Routed(world, WriteStep(world, s, w, j, io))
  {
    StoreSnoc(world, s, WriteStep(world, s, w, j, io), Finish(w, io));
    FinishAnswers(world, s, w, io);
  }

  /** The write of a request either ends it unpublished or makes it wait, for its own published answer. */
  lemma {:induction false} WriteSettles(world: World, s: Traffic, w: nat, j: Job, io: Io, client: string, reply: Reply)
    requires w in s.jobs && s.jobs[w].AtWrite? && s.jobs[w].job == j
    requires reply == ReplyAfter(Store(world, s), Store(world, s.(moves := s.moves + [Finish(w, io)])))
    ensures var s' := WriteStep(world, s, w, j, io);
            EverPublished(s'.results, client) + |Waiting(s'.jobs, client)|
            <= EverPublished(s.results, client) + |Waiting(s.jobs, client)|
               + (if j.client == client && !reply.err && Publishes(reply.action) then 1 else 0)
  {
    var s' := WriteStep(world, s, w, j, io);
    WaitingMoves(s.jobs, s'.jobs, w, client);
    WriteQuiet(world, s, w, j, io);
    QuietPublishes(s, s', client);
  }

  /** A published answer of `w` is one more notification on the key of its client. */
  lemma {:induction false} FinishNotifies(world: World, s: Traffic, w: nat, io: Io, client: string)
    requires Routed(world, s)
    ensures var before := Store(world, s);
            var after := CasProtocol.Apply(Flap(world), before, Finish(w, io));
            var reply := ReplyAfter(before, after);
            var k := KeyOf(world, client);
            && Notified(after.done, k) >= Notified(before.done, k)
            && (w in s.jobs && s.jobs[w].AtWrite? && s.jobs[w].job.client == client
                && !reply.err && Publishes(reply.action) ==>
                  Notified(after.done, k) == Notified(before.done, k) + 1)
  {
    var before := Store(world, s);
    var after := CasProtocol.Apply(Flap(world), before, Finish(w, io));
    FinishAnswers(world, s, w, io);
    if w in before.calls {
      var d := after.done[|before.done|];
      assert after.done == before.done + [d];
      NotifiedSnoc(before.done, d, KeyOf(world, client));
    }
  }

  lemma {:induction false} WriteAccounted(world: World, s: Traffic, w: nat, j: Job, io: Io, client: string)
    requires w in s.jobs && s.jobs[w].AtWrite? && s.jobs[w].job == j && Routed(world, s) && Accounted(world, s, client)
    ensures Accounted(world, WriteStep(world, s, w, j, io), client)
  {
    var s' := WriteStep(world, s, w, j, io);
    var moved := s.(moves := s.moves + [Finish(w, io)]);
    StoreSnoc(world, s, moved, Finish(w, io));
    FinishNotifies(world, s, w, io, client);
    WriteSettles(world, s, w, j, io, client, ReplyAfter(Store(world, s), Store(world, moved)));
    assert s'.moves == moved.moves;
  }

  /** The target limiter turns a waiting request into at most one publication. */
  lemma {:induction false} TargetSettles(
      world: World, s: Traffic, w: nat, j: Job, action: Action, now: int, fails: bool, client: string)
    requires w in s.jobs && s.jobs[w] == AtTarget(j, action)
    ensures var s' := TargetStep(world, s, w, j, action, now, fails);
            && s'.moves == s.moves && s'.jobs == s.jobs - {w}
            && EverPublished(s'.results, client) + |Waiting(s'.jobs, client)|
               <= EverPublished(s.results, client) + |Waiting(s.jobs, client)|
  {
    var s' := TargetStep(world, s, w, j, action, now, fails);
    var r := s'.results[|s.results|];
    WaitingMoves(s.jobs, s'.jobs, w, client);
    assert s'.results == s.results + [r] && r.client == j.client;
    EverPublishedSnoc(s.results, r, client);
  }

  lemma {:induction false} TargetKeeps(
      world: World, s: Traffic, w: nat, j: Job, action: Action, now: int, fails: bool, client: string)
    requires w in s.jobs && s.jobs[w] == AtTarget(j, action) && Routed(world, s) && Accounted(world, s, client)
    ensures var s' := TargetStep(world, s, w, j, action, now, fails);
            Routed(world, s') && Accounted(world, s', client)
  {
    var s' := TargetStep(world, s, w, j, action, now, fails);
    TargetSettles(world, s, w, j, action, now, fails, client);
    SameStoreRouted(world, s, s', w);
    SameStoreAccounted(world, s, s', client);
  }

  lemma {:induction false} EntryUpstream(world: World, s: Traffic, m: Step)
    requires m.worker in s.jobs
    requires (m.TakeIp? && s.jobs[m.worker].AtIp?) || (m.TakeClient? && s.jobs[m.worker].AtClient?)
    ensures Upstream(s, Apply(world, s, m), m.worker)
  {
    StepQuiet(world, s, m);
  }

  lemma {:induction false} StepKeeps(world: World, s: Traffic, m: Step, client: string)
    requires Routed(world, s) && Accounted(world, s, client)
    ensures Routed(world, Apply(world, s, m)) && Accounted(world, Apply(world, s, m), client)
  {
    var w := m.worker;
    if m.Arrive? {
      if w !in s.jobs {
        UpstreamKeeps(world, s, Apply(world, s, m), w, client);
      }
    } else if w in s.jobs {
      match (m, s.jobs[w])
      case (TakeIp(_, _, _), AtIp(_)) =>
        EntryUpstream(world, s, m);
        UpstreamKeeps(world, s, Apply(world, s, m), w, client);
      case (TakeClient(_, _, _), AtClient(_)) =>
        EntryUpstream(world, s, m);
        UpstreamKeeps(world, s, Apply(world, s, m), w, client);
      case (LoadRow(_, now, payload, fails), AtLoad(j)) => LoadKeeps(world, s, w, j, now, payload, fails, client);
      case (WriteRow(_, io), AtWrite(j, encoded)) =>
        if !encoded && NeedsPayload(Store(world, s), w) {
          GiveUpKeeps(world, s, w, j, client);
        } else {
          WriteRouted(world, s, w, j, io);
          WriteAccounted(world, s, w, j, io, client);
        }
      case (TakeTarget(_, now, fails), AtTarget(j, action)) =>
        TargetKeeps(world, s, w, j, action, now, fails, client);
      case _ =>
    }
  }

  /** Every published result of a client is a published answer of its evaluation calls. */
  lemma {:induction false} PublishedWithinAnswers(world: World, steps: seq<Step>, client: string)
    ensures Routed(world, ExecAll(world, steps)) && Accounted(world, ExecAll(world, steps), client)
  {
    if steps == [] {
      assert Waiting(map[], client) == {};
    } else {
      var n := |steps| - 1;
      PublishedWithinAnswers(world, steps[..n], client);
      StepKeeps(world, ExecAll(world, steps[..n]), steps[n], client);
    }
  }

  /**
   * End to end: however many requests arrive, over however many workers and interleavings, a client
   * with aggregation, a window and a cooldown is published to no more often than the time span of its
   * evaluation clock readings allows.
   */
  lemma {:induction false} PipelineFloodBound(
      world: World, steps: seq<Step>, client: string, f: FlapConfig, lo: int, hi: int)
    requires world.config(client).flapping == Some(f) && Curbed(f) && lo <= hi
    requires LoadsWithin(ExecAll(world, steps).moves, KeyOf(world, client), lo, hi)
    ensures EverPublished(ExecAll(world, steps).results, client)
            <= FloodCap(f, hi - lo)
  {
    PublishedWithinAnswers(world, steps, client);
    InterleavedFloodBound(Flap(world), ExecAll(world, steps).moves, KeyOf(world, client), f, lo, hi);
  }
}
