/** What the IP limiter lets in, over every interleaving of whole requests. */
module EntryBudgets {
  import opened Types
  import opened Keys
  import L = Limiter
  import P = Pipeline

  /** The step takes a request from `ip` past the IP limiter, for a token of `minute`. */
  predicate PassesIp(world: P.World, s: P.Traffic, m: P.Step, ip: string, minute: int) {
    && m.TakeIp? && m.worker in s.jobs && s.jobs[m.worker].AtIp?
    && s.jobs[m.worker].job.ip == ip && L.Minute(m.now) == minute
    && world.config(s.jobs[m.worker].job.client).ipRPM > 0
    && m.worker in P.Apply(world, s, m).jobs
  }

  /** The requests from `ip` that the IP limiter let in with a token of `minute`. */
  function PassedIp(world: P.World, steps: seq<P.Step>, ip: string, minute: int): nat {
    if steps == [] then 0
    else
      var n := |steps| - 1;
      PassedIp(world, steps[..n], ip, minute)
      + (if PassesIp(world, P.ExecAll(world, steps[..n]), steps[n], ip, minute) then 1 else 0)
  }

  function IpBucket(ip: string, minute: int): L.Bucket {
    L.Bucket("IP:" + ip, minute)
  }

  /** What a step does to the IP limiter's bucket: the attempts it adds, and whether one was let in. */
  ghost predicate BucketStep(s: P.Traffic, s': P.Traffic, b: L.Bucket, cap: nat, passes: bool) {
    || (s'.attempts == s.attempts && !passes)
    || (exists a: L.Attempt :: s'.attempts == s.attempts + [a] && BucketAttempt(s, a, b, cap, passes))
  }

  predicate BucketAttempt(s: P.Traffic, a: L.Attempt, b: L.Bucket, cap: nat, passes: bool) {
    && (passes <==> L.BucketOf(a) == b && L.Admits(L.After(s.attempts), a))
    && (L.BucketOf(a) == b ==> a.cap <= cap)
  }

  lemma {:induction false} SameIp(ip: string, ip': string)
    ensures "IP:" + ip == "IP:" + ip' <==> ip == ip'
  {
    assert ("IP:" + ip)[3..] == ip && ("IP:" + ip')[3..] == ip';
  }

  lemma {:induction false} TakeIpStep(
      world: P.World, s: P.Traffic, m: P.Step, ip: string, minute: int, cap: nat)
    requires m.TakeIp? && m.worker in s.jobs && s.jobs[m.worker].AtIp?
    requires world.config(s.jobs[m.worker].job.client).ipRPM <= cap
    ensures BucketStep(s, P.Apply(world, s, m), IpBucket(ip, minute), cap, PassesIp(world, s, m, ip, minute))
  {
    var j := s.jobs[m.worker].job;
    var a := L.Attempt(IpScope(j.ip), world.config(j.client).ipRPM, m.now);
    SameIp(j.ip, ip);
    if a.cap > 0 && !m.fails {
      assert P.Apply(world, s, m).attempts == s.attempts + [a];
      assert BucketAttempt(s, a, IpBucket(ip, minute), cap, PassesIp(world, s, m, ip, minute));
    }
  }

  lemma {:induction false} OtherStep(world: P.World, s: P.Traffic, m: P.Step, ip: string, minute: int, cap: nat)
    requires !(m.TakeIp? && m.worker in s.jobs && s.jobs[m.worker].AtIp?)
    ensures BucketStep(s, P.Apply(world, s, m), IpBucket(ip, minute), cap, false)
  {
    var s' := P.Apply(world, s, m);
    if s'.attempts != s.attempts {
      var a := s'.attempts[|s.attempts|];
      var client := s.jobs[m.worker].job.client;
      ScopesDistinct(ip, client, client, world.config(client).snsArn);
      assert s'.attempts == s.attempts + [a];
      assert BucketAttempt(s, a, IpBucket(ip, minute), cap, false);
    }
  }

  lemma {:induction false} StepGrants(s: P.Traffic, s': P.Traffic, b: L.Bucket, cap: nat, passes: bool)
    requires BucketStep(s, s', b, cap, passes)
    requires forall i :: 0 <= i < |s.attempts| && L.BucketOf(s.attempts[i]) == b ==> s.attempts[i].cap <= cap
    ensures L.Grants(s'.attempts, L.In(b)) == L.Grants(s.attempts, L.In(b)) + (if passes then 1 else 0)
    ensures forall i :: 0 <= i < |s'.attempts| && L.BucketOf(s'.attempts[i]) == b ==> s'.attempts[i].cap <= cap
  {
    if s'.attempts != s.attempts {
      var a: L.Attempt :| s'.attempts == s.attempts + [a] && BucketAttempt(s, a, b, cap, passes);
      P.GrantsSnoc(s.attempts, a, L.In(b));
    }
  }

  lemma {:induction false} PassedAreGrants(world: P.World, steps: seq<P.Step>, ip: string, minute: int, cap: nat)
    requires forall c :: world.config(c).ipRPM <= cap
    ensures var s, b := P.ExecAll(world, steps), IpBucket(ip, minute);
            && PassedIp(world, steps, ip, minute) == L.Grants(s.attempts, L.In(b))
            && forall i :: 0 <= i < |s.attempts| && L.BucketOf(s.attempts[i]) == b ==> s.attempts[i].cap <= cap
  {
    if steps != [] {
      var n := |steps| - 1;
      var s, m := P.ExecAll(world, steps[..n]), steps[n];
      PassedAreGrants(world, steps[..n], ip, minute, cap);
      if m.TakeIp? && m.worker in s.jobs && s.jobs[m.worker].AtIp? {
        TakeIpStep(world, s, m, ip, minute, cap);
      } else {
        OtherStep(world, s, m, ip, minute, cap);
      }
      StepGrants(s, P.Apply(world, s, m), IpBucket(ip, minute), cap, PassesIp(world, s, m, ip, minute));
    }
  }

  /**
   * In every interleaving of requests of any clients, at most as many requests from one IP address get past
   * the IP limiter in a minute as the largest IP rate of any client allows.
   */
  lemma {:induction false} IpBudget(world: P.World, steps: seq<P.Step>, ip: string, minute: int, cap: nat)
    requires forall c :: world.config(c).ipRPM <= cap
    ensures PassedIp(world, steps, ip, minute) <= cap
  {
    PassedAreGrants(world, steps, ip, minute, cap);
    L.GrantsUnderLargestCap(P.ExecAll(world, steps).attempts, IpBucket(ip, minute), cap);
  }
}
