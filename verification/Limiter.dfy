/** The minute-bucketed rate limiter on DynamoDB, where taking a token is one conditional increment. */
module Limiter {
  import opened Types
  import opened Arithmetic

  /** A call of Acquire as the store sees it; `now` is the clock reading that selects the bucket. */
  datatype Attempt = Attempt(scope: string, cap: int, now: int)

  /** Seconds to minutes, rounding towards zero. */
  function Minute(now: int): int {
    if now >= 0 then now / 60 else -((-now) / 60)
  }

  datatype Bucket = Bucket(scope: string, minute: int)

  type Counters = map<Bucket, nat>

  function BucketOf(a: Attempt): Bucket {
    Bucket(a.scope, Minute(a.now))
  }

  function CountAt(c: Counters, b: Bucket): nat {
    if b in c then c[b] else 0
  }

  /** The condition of the increment; a cap of 0 or less never reaches the store. */
  predicate Admits(c: Counters, a: Attempt) {
    a.cap > 0 && (BucketOf(a) !in c || c[BucketOf(a)] < a.cap)
  }

  function Acquire(c: Counters, a: Attempt): Counters {
    if Admits(c, a) then c[BucketOf(a) := CountAt(c, BucketOf(a)) + 1] else c
  }

  /** The counters after a sequence of attempts by any callers. */
  function After(trace: seq<Attempt>): Counters {
    if trace == [] then map[] else Acquire(After(trace[..|trace| - 1]), trace[|trace| - 1])
  }

  /** The granted attempts of a trace that satisfy `p`. */
  function Grants(trace: seq<Attempt>, p: Attempt -> bool): nat {
    if trace == [] then 0
    else
      var n := |trace| - 1;
      Grants(trace[..n], p) + (if p(trace[n]) && Admits(After(trace[..n]), trace[n]) then 1 else 0)
  }

  function Attempts(trace: seq<Attempt>, p: Attempt -> bool): nat {
    if trace == [] then 0 else Attempts(trace[..|trace| - 1], p) + (if p(trace[|trace| - 1]) then 1 else 0)
  }

  function In(b: Bucket): Attempt -> bool {
    (a: Attempt) => BucketOf(a) == b
  }

  function InWithCap(b: Bucket, cap: int): Attempt -> bool {
    (a: Attempt) => BucketOf(a) == b && a.cap == cap
  }

  function Between(scope: string, from: int, to: int): Attempt -> bool {
    (a: Attempt) => a.scope == scope && from <= a.now < to
  }

  // ---------------------------------------------------------------- one bucket

  /** One more attempt adds one token to its own bucket if it is admitted, and nothing else. */
  lemma {:induction false} AfterSnoc(trace: seq<Attempt>, a: Attempt, b: Bucket)
    ensures Admits(After(trace), a) <==> a.cap > 0 && CountAt(After(trace), BucketOf(a)) < a.cap
    ensures CountAt(After(trace + [a]), b) == CountAt(After(trace), b)
              + (if b == BucketOf(a) && Admits(After(trace), a) then 1 else 0)
  {
    assert (trace + [a])[..|trace|] == trace;
  }

  /** In every interleaving the counter of a bucket is the number of grants made from it. */
  lemma {:induction false} CounterIsGrants(trace: seq<Attempt>, b: Bucket)
    ensures CountAt(After(trace), b) == Grants(trace, In(b))
  {
    if trace != [] {
      CounterIsGrants(trace[..|trace| - 1], b);
    }
  }

  /** With one positive cap, a bucket grants the first attempts up to the cap and no others. */
  lemma {:induction false} GrantsExactly(trace: seq<Attempt>, b: Bucket, cap: nat)
    requires cap > 0
    requires forall i :: 0 <= i < |trace| && BucketOf(trace[i]) == b ==> trace[i].cap == cap
    ensures Grants(trace, In(b)) == Min(Attempts(trace, In(b)), cap)
  {
    if trace != [] {
      var n := |trace| - 1;
      GrantsExactly(trace[..n], b, cap);
      CounterIsGrants(trace[..n], b);
    }
  }

  /** When callers share a bucket under different caps, grants never exceed the largest. */
  lemma {:induction false} GrantsUnderLargestCap(trace: seq<Attempt>, b: Bucket, cap: nat)
    requires forall i :: 0 <= i < |trace| && BucketOf(trace[i]) == b ==> trace[i].cap <= cap
    ensures Grants(trace, In(b)) <= cap
  {
    if trace != [] {
      var n := |trace| - 1;
      GrantsUnderLargestCap(trace[..n], b, cap);
      CounterIsGrants(trace[..n], b);
    }
  }

  /** Whoever else uses the bucket and with whatever caps, callers with cap `cap` get at most `cap` grants. */
  lemma {:induction false} GrantsUnderOwnCap(trace: seq<Attempt>, b: Bucket, cap: int)
    ensures Grants(trace, InWithCap(b, cap)) <= Grants(trace, In(b))
    ensures Grants(trace, InWithCap(b, cap)) <= if cap > 0 then cap else 0
  {
    if trace != [] {
      var n := |trace| - 1;
      GrantsUnderOwnCap(trace[..n], b, cap);
      CounterIsGrants(trace[..n], b);
    }
  }

  // ---------------------------------------------------------------- a span of time

  /** The grants of a scope in the minutes from `lo` up to but not including `hi`. */
  function GrantsOver(trace: seq<Attempt>, scope: string, lo: int, hi: int): nat
    decreases hi - lo
  {
    if lo >= hi then 0 else GrantsOver(trace, scope, lo, hi - 1) + Grants(trace, In(Bucket(scope, hi - 1)))
  }

  lemma {:induction false} GrantsOverSnoc(trace: seq<Attempt>, a: Attempt, scope: string, lo: int, hi: int)
    ensures GrantsOver(trace + [a], scope, lo, hi) ==
              GrantsOver(trace, scope, lo, hi)
              + (if a.scope == scope && lo <= Minute(a.now) < hi && Admits(After(trace), a) then 1 else 0)
    decreases hi - lo
  {
    assert (trace + [a])[..|trace|] == trace;
    if lo < hi {
      GrantsOverSnoc(trace, a, scope, lo, hi - 1);
    }
  }

  lemma {:induction false} GrantsOverNil(scope: string, lo: int, hi: int)
    ensures GrantsOver([], scope, lo, hi) == 0
    decreases hi - lo
  {
    if lo < hi {
      GrantsOverNil(scope, lo, hi - 1);
    }
  }

  /** Two clock readings in the same minute bucket are less than two minutes apart. */
  lemma {:induction false} SameMinute(s: int, t: int)
    requires Minute(s) == Minute(t)
    ensures s - t < 120
  {
  }

  /** Minutes are whole, and rounded towards the epoch. */
  lemma {:induction false} MinuteExactly(now: int)
    ensures now >= 0 ==> 60 * Minute(now) <= now < 60 * Minute(now) + 60
    ensures now <= 0 ==> 60 * Minute(now) - 60 < now <= 60 * Minute(now)
  {
  }

  lemma {:induction false} MinuteMonotone(s: int, t: int)
    requires 0 <= s <= t
    ensures 0 <= Minute(s) <= Minute(t)
  {
  }

  /** A grant in a span of seconds is a grant in the minutes that the span touches. */
  lemma {:induction false} SpanWithinMinutes(trace: seq<Attempt>, scope: string, from: int, to: int)
    requires 0 <= from < to
    ensures Grants(trace, Between(scope, from, to)) <= GrantsOver(trace, scope, Minute(from), Minute(to - 1) + 1)
  {
    if trace == [] {
      GrantsOverNil(scope, Minute(from), Minute(to - 1) + 1);
    } else {
      var n := |trace| - 1;
      var a := trace[n];
      SpanWithinMinutes(trace[..n], scope, from, to);
      assert trace == trace[..n] + [a];
      GrantsOverSnoc(trace[..n], a, scope, Minute(from), Minute(to - 1) + 1);
      if from <= a.now < to {
        MinuteMonotone(from, a.now);
        MinuteMonotone(a.now, to - 1);
      }
    }
  }

  lemma {:induction false} GrantsOverBound(trace: seq<Attempt>, scope: string, cap: nat, lo: int, hi: int)
    requires lo <= hi
    requires forall i :: 0 <= i < |trace| && trace[i].scope == scope ==> trace[i].cap <= cap
    ensures GrantsOver(trace, scope, lo, hi) <= cap * (hi - lo)
    decreases hi - lo
  {
    if lo < hi {
      GrantsOverBound(trace, scope, cap, lo, hi - 1);
      GrantsUnderLargestCap(trace, Bucket(scope, hi - 1), cap);
      assert cap * (hi - lo) == cap * (hi - 1 - lo) + cap;
    }
  }

  /** Any `seconds` consecutive seconds touch at most this many minutes. */
  lemma {:induction false} MinutesTouched(from: int, seconds: int)
    requires 0 <= from && seconds >= 1
    ensures Minute(from + seconds - 1) + 1 - Minute(from) <= (seconds - 1) / 60 + 2
  {
  }

  lemma {:induction false} ScaledBound(cap: nat, n: int, m: int)
    requires n <= m
    ensures cap * n <= cap * m
  {
    MulNonNegative(m - n, cap);
  }

  /**
   * In any span of `seconds` consecutive seconds a scope gets at most `cap` grants per minute touched,
   * so at most twice the cap in any sixty seconds.
   */
  lemma {:induction false} SpanBound(trace: seq<Attempt>, scope: string, cap: nat, from: int, seconds: int)
    requires 0 <= from && seconds >= 1
    requires forall i :: 0 <= i < |trace| && trace[i].scope == scope ==> trace[i].cap <= cap
    ensures Grants(trace, Between(scope, from, from + seconds)) <= cap * ((seconds - 1) / 60 + 2)
    ensures seconds == 60 ==> Grants(trace, Between(scope, from, from + seconds)) <= 2 * cap
  {
    var lo, hi := Minute(from), Minute(from + seconds - 1) + 1;
    MinuteMonotone(from, from + seconds - 1);
    SpanWithinMinutes(trace, scope, from, from + seconds);
    GrantsOverBound(trace, scope, cap, lo, hi);
    MinutesTouched(from, seconds);
    ScaledBound(cap, hi - lo, (seconds - 1) / 60 + 2);
  }

  // ---------------------------------------------------------------- the span bound is reached

  /** `n` attempts at the same second. */
  function Volley(scope: string, cap: int, now: int, n: nat): seq<Attempt> {
    seq(n, i => Attempt(scope, cap, now))
  }

  /** A full volley in the last second of a minute and another in the first second of the next. */
  function Burst(scope: string, cap: nat, n: nat): seq<Attempt> {
    Volley(scope, cap, 59, cap) + Volley(scope, cap, 60, n)
  }

  lemma {:induction false} VolleyGrants(scope: string, cap: nat, n: nat)
    requires n <= cap
    ensures Grants(Volley(scope, cap, 59, n), Between(scope, 59, 61)) == n
    ensures After(Volley(scope, cap, 59, n)) == if n == 0 then map[] else map[Bucket(scope, 0) := n]
  {
    if n > 0 {
      assert Volley(scope, cap, 59, n)[..n - 1] == Volley(scope, cap, 59, n - 1);
      VolleyGrants(scope, cap, n - 1);
    }
  }

  lemma {:induction false} BurstNext(scope: string, cap: nat, n: nat, t: seq<Attempt>)
    requires n < cap && CountAt(After(t), Bucket(scope, 1)) == n
    ensures var t' := t + [Attempt(scope, cap, 60)];
            && Grants(t', Between(scope, 59, 61)) == Grants(t, Between(scope, 59, 61)) + 1
            && CountAt(After(t'), Bucket(scope, 1)) == n + 1
  {
    assert (t + [Attempt(scope, cap, 60)])[..|t|] == t;
  }

  lemma {:induction false} BurstGrants(scope: string, cap: nat, n: nat)
    requires n <= cap && cap > 0
    ensures Grants(Burst(scope, cap, n), Between(scope, 59, 61)) == cap + n
    ensures CountAt(After(Burst(scope, cap, n)), Bucket(scope, 1)) == n
  {
    if n == 0 {
      assert Burst(scope, cap, 0) == Volley(scope, cap, 59, cap);
      VolleyGrants(scope, cap, cap);
    } else {
      assert Burst(scope, cap, n) == Burst(scope, cap, n - 1) + [Attempt(scope, cap, 60)];
      BurstGrants(scope, cap, n - 1);
      BurstNext(scope, cap, n - 1, Burst(scope, cap, n - 1));
    }
  }

  /** The bound is reached for every cap: twice the cap within two seconds. */
  lemma {:induction false} SpanBoundReached(scope: string, cap: nat)
    requires cap > 0
    ensures Grants(Burst(scope, cap, cap), Between(scope, 59, 59 + 2)) == 2 * cap == cap * ((2 - 1) / 60 + 2)
  {
    BurstGrants(scope, cap, cap);
  }
}
