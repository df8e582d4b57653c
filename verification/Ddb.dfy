/** The DynamoDB store: one table of items, each operation one atomic conditional request. */
module Ddb {
  import opened Types
  import opened Keys
  import opened Rows
  import opened Limiter

  datatype Item = EdgeItem(row: Row) | RateItem(count: nat, ttl: int)

  type Table = map<ItemKey, Item>

  datatype Stored = Stored(table: Table, ok: bool)

  /** Counters and rows are told apart by their partition key. */
  ghost predicate WellTyped(t: Table) {
    forall k :: k in t ==> (t[k].RateItem? <==> "RATE#" <= k.pk)
  }

  function RowAt(t: Table, client: string, scope: string): Option<Row> {
    var k := EdgeItemKey(client, scope);
    if k in t && t[k].EdgeItem? then Some(t[k].row) else None
  }

  function TokensAt(t: Table, b: Bucket): nat {
    var k := RateItemKey(b.scope, b.minute);
    if k in t && t[k].RateItem? then t[k].count else 0
  }

  function Upserted(t: Table, client: string, scope: string, prev: int, next: Edge): Stored {
    var k := EdgeItemKey(client, scope);
    if prev == 0 then
      if k in t then Stored(t, false) else Stored(t[k := EdgeItem(Row(scope, next, 1))], true)
    else if k in t && t[k].EdgeItem? && t[k].row.version == prev then
      Stored(t[k := EdgeItem(Row(t[k].row.scopeKey, next, prev + 1))], true)
    else
      Stored(t, false)
  }

  /** `ttl` is set when the item is created: the window and two minutes of grace. */
  function Acquired(t: Table, a: Attempt, window: int): Stored {
    var k := RateItemKey(a.scope, Minute(a.now));
    if a.cap <= 0 then Stored(t, false)
    else if k !in t then Stored(t[k := RateItem(1, a.now + window + 120)], true)
    else if t[k].RateItem? && t[k].count < a.cap then Stored(t[k := t[k].(count := t[k].count + 1)], true)
    else Stored(t, false)
  }

  /** A write is the row-level conditional write of its own row, and touches nothing else. */
  lemma {:induction false} UpsertIsCas(t: Table, client: string, scope: string, prev: int, next: Edge)
    requires WellTyped(t)
    ensures var r := Upserted(t, client, scope, prev, next);
            && WellTyped(r.table)
            && Written(RowAt(r.table, client, scope), r.ok) == Cas(RowAt(t, client, scope), scope, prev, next)
            && (forall c, s :: c != client || s != scope ==> RowAt(r.table, c, s) == RowAt(t, c, s))
            && (forall b :: TokensAt(r.table, b) == TokensAt(t, b))
  {
    var r := Upserted(t, client, scope, prev, next);
    DdbFamiliesDisjoint(client, scope, "", 0);
    forall c, s | c != client || s != scope
      ensures RowAt(r.table, c, s) == RowAt(t, c, s)
    {
      if EdgeItemKey(c, s) == EdgeItemKey(client, scope) {
        EdgeItemKeysInjective(c, s, client, scope);
      }
    }
    forall b: Bucket
      ensures TokensAt(r.table, b) == TokensAt(t, b)
    {
      DdbFamiliesDisjoint(client, scope, b.scope, b.minute);
    }
  }

  /** Taking a token admits exactly while the counter is below the cap, and touches only that counter. */
  lemma {:induction false} AcquireIsAdmission(t: Table, a: Attempt, window: int)
    requires WellTyped(t)
    ensures var r := Acquired(t, a, window);
            && WellTyped(r.table)
            && (r.ok <==> a.cap > 0 && TokensAt(t, BucketOf(a)) < a.cap)
            && TokensAt(r.table, BucketOf(a)) == TokensAt(t, BucketOf(a)) + (if r.ok then 1 else 0)
            && (forall b :: b != BucketOf(a) ==> TokensAt(r.table, b) == TokensAt(t, b))
            && (forall c, s :: RowAt(r.table, c, s) == RowAt(t, c, s))
  {
    var r := Acquired(t, a, window);
    DdbFamiliesDisjoint("", "", a.scope, Minute(a.now));
    forall b: Bucket | b != BucketOf(a)
      ensures TokensAt(r.table, b) == TokensAt(t, b)
    {
      if RateItemKey(b.scope, b.minute) == RateItemKey(a.scope, Minute(a.now)) {
        RateItemKeysInjective(b.scope, b.minute, a.scope, Minute(a.now));
      }
    }
    forall c, s
      ensures RowAt(r.table, c, s) == RowAt(t, c, s)
    {
      DdbFamiliesDisjoint(c, s, a.scope, Minute(a.now));
    }
  }

  /** Every counter stays for more than a minute after any moment of the minute it counts. */
  ghost predicate Durable(t: Table) {
    forall b: Bucket, now: int :: RateItemKey(b.scope, b.minute) in t && Minute(now) == b.minute ==>
      Kept(t[RateItemKey(b.scope, b.minute)], now)
  }

  predicate Kept(i: Item, now: int) {
    i.RateItem? ==> now + 60 < i.ttl
  }

  /** With one-minute windows, a counter outlives its minute, and later tokens do not move its expiry. */
  lemma {:induction false} AcquireDurable(t: Table, a: Attempt)
    requires WellTyped(t) && Durable(t)
    ensures var t' := Acquired(t, a, 60).table;
            && Durable(t')
            && (forall k :: k in t && t[k].RateItem? ==> k in t' && t'[k].RateItem? && t'[k].ttl == t[k].ttl)
            && (forall k :: k in t' && k !in t ==> t'[k] == RateItem(1, a.now + 180))
  {
    var t' := Acquired(t, a, 60).table;
    var k := RateItemKey(a.scope, Minute(a.now));
    forall b: Bucket, now: int | RateItemKey(b.scope, b.minute) in t' && Minute(now) == b.minute
      ensures Kept(t'[RateItemKey(b.scope, b.minute)], now)
    {
      if RateItemKey(b.scope, b.minute) == k {
        RateItemKeysInjective(b.scope, b.minute, a.scope, Minute(a.now));
        SameMinute(now, a.now);
        assert k in t ==> Kept(t[k], now);
      }
    }
  }

  /** The store as an object. */
  class DataStore {
    var items: Table

    constructor ()
      ensures items == map[] && WellTyped(items)
    {
      items := map[];
    }

    method Load(client: string, scope: string) returns (row: Option<Row>)
      ensures row == RowAt(items, client, scope)
    {
      var k := EdgeItemKey(client, scope);
      row := None;
      if k in items && items[k].EdgeItem? {
        row := Some(items[k].row);
      }
    }

    method UpsertCAS(client: string, scope: string, prev: int, next: Edge) returns (ok: bool)
      requires WellTyped(items)
      modifies this
      ensures Stored(items, ok) == Upserted(old(items), client, scope, prev, next)
      ensures WellTyped(items)
      ensures Written(RowAt(items, client, scope), ok) == Cas(RowAt(old(items), client, scope), scope, prev, next)
      ensures forall c, s :: c != client || s != scope ==> RowAt(items, c, s) == RowAt(old(items), c, s)
      ensures forall b :: TokensAt(items, b) == TokensAt(old(items), b)
    {
      UpsertIsCas(items, client, scope, prev, next);
      var k := EdgeItemKey(client, scope);
      ok := false;
      if prev == 0 {
        if k !in items {
          items := items[k := EdgeItem(Row(scope, next, 1))];
          ok := true;
        }
      } else if k in items && items[k].EdgeItem? && items[k].row.version == prev {
        items := items[k := EdgeItem(Row(items[k].row.scopeKey, next, prev + 1))];
        ok := true;
      }
    }

    method Acquire(a: Attempt, window: int) returns (ok: bool)
      requires WellTyped(items)
      modifies this
      ensures Stored(items, ok) == Acquired(old(items), a, window)
      ensures WellTyped(items)
      ensures ok <==> a.cap > 0 && TokensAt(old(items), BucketOf(a)) < a.cap
      ensures TokensAt(items, BucketOf(a)) == TokensAt(old(items), BucketOf(a)) + (if ok then 1 else 0)
      ensures forall b :: b != BucketOf(a) ==> TokensAt(items, b) == TokensAt(old(items), b)
      ensures forall c, s :: RowAt(items, c, s) == RowAt(old(items), c, s)
    {
      AcquireIsAdmission(items, a, window);
      if a.cap <= 0 {
        return false;
      }
      var k := RateItemKey(a.scope, Minute(a.now));
      ok := false;
      if k !in items {
        items := items[k := RateItem(1, a.now + window + 120)];
        ok := true;
      } else if items[k].RateItem? && items[k].count < a.cap {
        items := items[k := items[k].(count := items[k].count + 1)];
        ok := true;
      }
    }
  }
}
