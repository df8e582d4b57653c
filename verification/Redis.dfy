/**
 * The Redis store: hashes under string keys. Each operation is a sequence of commands; this module
 * models them run back to back, RedisProtocol and RedisLimiter model them interleaved.
 */
module Redis {
  import opened Types
  import opened Keys
  import opened Rows
  import opened Limiter

  datatype Hash =
    | EdgeHash(scopeKey: string, edge: Edge, version: int)
    | WindowHash(count: nat, expiresAt: Option<int>)

  type Table = map<string, Hash>

  datatype Stored = Stored(table: Table, ok: bool)

  ghost predicate WellTyped(t: Table) {
    forall k :: k in t ==> (t[k].WindowHash? <==> "_enoti_rwin_" <= k)
  }

  /** Loading takes the scope key from the caller, not from the hash. */
  function RowAt(t: Table, client: string, scope: string): Option<Row> {
    var k := DataKey(client, scope);
    if k in t && t[k].EdgeHash? then Some(Row(scope, t[k].edge, t[k].version)) else None
  }

  /** The counter of a bucket, expired or not. */
  function TokensAt(t: Table, b: Bucket): nat {
    var k := WindowKey(b.scope, b.minute);
    if k in t && t[k].WindowHash? then t[k].count else 0
  }

  /** A key with an expiry is gone once the clock reaches it. */
  predicate Live(h: Hash, now: int) {
    h.WindowHash? ==> h.expiresAt.None? || now < h.expiresAt.value
  }

  /** Version 0 writes unconditionally; otherwise the version is read, compared and then written. */
  function Upserted(t: Table, client: string, scope: string, prev: int, next: Edge): Stored {
    var k := DataKey(client, scope);
    if prev == 0 then Stored(t[k := EdgeHash(scope, next, 1)], true)
    else if k in t && t[k].EdgeHash? && t[k].version == prev then
      Stored(t[k := EdgeHash(t[k].scopeKey, next, t[k].version + 1)], true)
    else Stored(t, false)
  }

  /**
   * Which command of taking a token fails: the read, the increment without effect, the increment after
   * taking effect, or the expiry of a new counter.
   */
  datatype Fault = Healthy | ReadFails | IncrementFails | IncrementReplyLost | ExpiryFails

  datatype Taken = Taken(table: Table, ok: bool, err: bool)

  function Acquired(t: Table, a: Attempt, window: int, fault: Fault): Taken {
    var k := WindowKey(a.scope, Minute(a.now));
    if a.cap <= 0 then Taken(t, false, false)
    else if fault.ReadFails? then Taken(t, false, true)
    else if !(k in t && t[k].WindowHash? && Live(t[k], a.now)) then
      match fault
      case IncrementFails => Taken(t, false, true)
      case IncrementReplyLost => Taken(t[k := WindowHash(1, None)], false, true)
      case ExpiryFails => Taken(t[k := WindowHash(1, None)], false, true)
      case _ => Taken(t[k := WindowHash(1, Some(a.now + 2 * window))], true, false)
    else if t[k].count >= a.cap then Taken(t, false, false)
    else if fault.IncrementFails? then Taken(t, false, true)
    else
      var t' := t[k := t[k].(count := t[k].count + 1)];
      if fault.IncrementReplyLost? then Taken(t', false, true) else Taken(t', true, false)
  }

  // ---------------------------------------------------------------- rows

  /** Run back to back, the write agrees with the conditional write unless it creates over a row. */
  lemma {:induction false} UpsertIsCasExactly(t: Table, client: string, hash: nat, prev: int, next: Edge)
    ensures var scope := ScopeKey(hash);
            var r := Upserted(t, client, scope, prev, next);
            var row := RowAt(t, client, scope);
            Written(RowAt(r.table, client, scope), r.ok) == Cas(row, scope, prev, next)
            <==> !(prev == 0 && row.Some?)
  {
  }

  /** A write touches only its own row. */
  lemma {:induction false} UpsertFrame(t: Table, client: string, hash: nat, prev: int, next: Edge)
    requires WellTyped(t)
    ensures var r := Upserted(t, client, ScopeKey(hash), prev, next);
            && WellTyped(r.table)
            && (forall c, h :: c != client || h != hash ==>
                  RowAt(r.table, c, ScopeKey(h)) == RowAt(t, c, ScopeKey(h)))
            && (forall b :: TokensAt(r.table, b) == TokensAt(t, b))
  {
    var r := Upserted(t, client, ScopeKey(hash), prev, next);
    RedisFamiliesDisjoint(client, ScopeKey(hash), "", 0);
    forall c, h | c != client || h != hash
      ensures RowAt(r.table, c, ScopeKey(h)) == RowAt(t, c, ScopeKey(h))
    {
      if DataKey(c, ScopeKey(h)) == DataKey(client, ScopeKey(hash)) {
        DataKeysInjective(c, h, client, hash);
      }
    }
    forall b: Bucket
      ensures TokensAt(r.table, b) == TokensAt(t, b)
    {
      RedisFamiliesDisjoint(client, ScopeKey(hash), b.scope, b.minute);
    }
  }

  // ---------------------------------------------------------------- counters

  /** No counter expires while the clock is still in its minute. */
  ghost predicate Durable(t: Table) {
    forall b: Bucket, now: int :: WindowKey(b.scope, b.minute) in t && Minute(now) == b.minute ==>
      Live(t[WindowKey(b.scope, b.minute)], now)
  }

  lemma {:induction false} UpsertDurable(t: Table, client: string, scope: string, prev: int, next: Edge)
    requires WellTyped(t) && Durable(t)
    ensures Durable(Upserted(t, client, scope, prev, next).table)
  {
    var t' := Upserted(t, client, scope, prev, next).table;
    forall b: Bucket, now: int | WindowKey(b.scope, b.minute) in t' && Minute(now) == b.minute
      ensures Live(t'[WindowKey(b.scope, b.minute)], now)
    {
      RedisFamiliesDisjoint(client, scope, b.scope, b.minute);
    }
  }

  /** With one-minute windows, a counter created in its minute outlives the minute. */
  lemma {:induction false} AcquireDurable(t: Table, a: Attempt, fault: Fault)
    requires WellTyped(t) && Durable(t)
    ensures Durable(Acquired(t, a, 60, fault).table)
    ensures var t' := Acquired(t, a, 60, fault).table;
            forall k :: k in t' && k !in t ==>
              t'[k] == WindowHash(1, if fault.Healthy? then Some(a.now + 120) else None)
  {
    var t' := Acquired(t, a, 60, fault).table;
    forall b: Bucket, now: int | WindowKey(b.scope, b.minute) in t' && Minute(now) == b.minute
      ensures Live(t'[WindowKey(b.scope, b.minute)], now)
    {
      var k := WindowKey(a.scope, Minute(a.now));
      if WindowKey(b.scope, b.minute) == k {
        WindowKeysInjective(b.scope, b.minute, a.scope, Minute(a.now));
        SameMinute(now, a.now);
        assert k in t ==> Live(t[k], now);
      }
    }
  }

  /** A fault that hits: every one but a failing expiry when the counter already exists. */
  predicate Hits(t: Table, a: Attempt, fault: Fault) {
    !fault.Healthy? && (fault.ExpiryFails? ==> WindowKey(a.scope, Minute(a.now)) !in t)
  }

  /**
   * Run back to back, taking a token admits exactly while the counter is below the cap and nothing
   * fails. A command that fails after the increment costs a token and admits nobody, and no fault ever lifts
   * a counter above the cap.
   */
  lemma {:induction false} AcquireIsAdmission(t: Table, a: Attempt, fault: Fault)
    requires WellTyped(t) && Durable(t)
    ensures var r := Acquired(t, a, 60, fault);
            var room := a.cap > 0 && TokensAt(t, BucketOf(a)) < a.cap;
            && WellTyped(r.table)
            && (r.ok <==> room && !Hits(t, a, fault))
            && (r.err <==> a.cap > 0 && (fault.ReadFails? || (room && Hits(t, a, fault))))
            && TokensAt(r.table, BucketOf(a)) == TokensAt(t, BucketOf(a))
                 + (if room && !fault.ReadFails? && !fault.IncrementFails? then 1 else 0)
  {
    var k := WindowKey(a.scope, Minute(a.now));
    RedisFamiliesDisjoint("", "", a.scope, Minute(a.now));
    assert k == WindowKey(BucketOf(a).scope, BucketOf(a).minute);
    assert k in t ==> Live(t[k], a.now);
  }

  /** Taking a token touches only its own counter. */
  lemma {:induction false} AcquireFrame(t: Table, a: Attempt, window: int, fault: Fault)
    ensures var r := Acquired(t, a, window, fault);
            && (forall b :: b != BucketOf(a) ==> TokensAt(r.table, b) == TokensAt(t, b))
            && (forall c, s :: RowAt(r.table, c, s) == RowAt(t, c, s))
  {
    var r := Acquired(t, a, window, fault);
    forall b: Bucket | b != BucketOf(a)
      ensures TokensAt(r.table, b) == TokensAt(t, b)
    {
      if WindowKey(b.scope, b.minute) == WindowKey(a.scope, Minute(a.now)) {
        WindowKeysInjective(b.scope, b.minute, a.scope, Minute(a.now));
      }
    }
    forall c, s
      ensures RowAt(r.table, c, s) == RowAt(t, c, s)
    {
      RedisFamiliesDisjoint(c, s, a.scope, Minute(a.now));
    }
  }

  /** What every operation of the store keeps. */
  ghost predicate Valid(t: Table) {
    WellTyped(t) && Durable(t)
  }

  /** The store as an object. */
  class DataStore {
    var hashes: Table

    constructor ()
      ensures hashes == map[] && Valid(hashes)
    {
      hashes := map[];
    }

    method Load(client: string, scope: string) returns (row: Option<Row>)
      ensures row == RowAt(hashes, client, scope)
    {
      var k := DataKey(client, scope);
      row := None;
      if k in hashes && hashes[k].EdgeHash? {
        row := Some(Row(scope, hashes[k].edge, hashes[k].version));
      }
    }

    method UpsertCAS(client: string, scope: string, prev: int, next: Edge) returns (ok: bool)
      requires Valid(hashes)
      modifies this
      ensures Stored(hashes, ok) == Upserted(old(hashes), client, scope, prev, next)
      ensures Valid(hashes)
    {
      UpsertDurable(hashes, client, scope, prev, next);
      RedisFamiliesDisjoint(client, scope, "", 0);
      var k := DataKey(client, scope);
      if prev == 0 {
        hashes := hashes[k := EdgeHash(scope, next, 1)];
        return true;
      }
      if !(k in hashes && hashes[k].EdgeHash?) {
        return false;
      }
      var current := hashes[k].version;
      if current != prev {
        return false;
      }
      hashes := hashes[k := EdgeHash(hashes[k].scopeKey, next, current + 1)];
      return true;
    }

    /** Windows are one minute long wherever the limiter is used. */
    method Acquire(a: Attempt, fault: Fault) returns (ok: bool, err: bool)
      requires Valid(hashes)
      modifies this
      ensures Taken(hashes, ok, err) == Acquired(old(hashes), a, 60, fault)
      ensures Valid(hashes)
      ensures fault.Healthy? ==> (ok <==> a.cap > 0 && TokensAt(old(hashes), BucketOf(a)) < a.cap)
      ensures ok ==> TokensAt(hashes, BucketOf(a)) == TokensAt(old(hashes), BucketOf(a)) + 1 <= a.cap
    {
      AcquireIsAdmission(hashes, a, fault);
      AcquireDurable(hashes, a, fault);
      if a.cap <= 0 {
        return false, false;
      }
      if fault.ReadFails? {
        return false, true;
      }
      var k := WindowKey(a.scope, Minute(a.now));
      if !(k in hashes && hashes[k].WindowHash? && Live(hashes[k], a.now)) {
        if fault.IncrementFails? {
          return false, true;
        }
        hashes := hashes[k := WindowHash(1, None)];
        if fault.IncrementReplyLost? || fault.ExpiryFails? {
          return false, true;
        }
        hashes := hashes[k := WindowHash(1, Some(a.now + 120))];
        return true, false;
      }
      if hashes[k].count >= a.cap {
        return false, false;
      }
      if fault.IncrementFails? {
        return false, true;
      }
      hashes := hashes[k := hashes[k].(count := hashes[k].count + 1)];
      if fault.IncrementReplyLost? {
        return false, true;
      }
      return true, false;
    }
  }
}
