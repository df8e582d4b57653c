/** The store interface: one of the two backends, as a value and as an object. */
module Store {
  import opened Types
  import opened Rows
  import opened Limiter
  import Ddb
  import Redis

  datatype Backend = OnDdb(ddb: Ddb.Table) | OnRedis(redis: Redis.Table)

  datatype Stored = Stored(backend: Backend, ok: bool)

  ghost predicate Sound(b: Backend) {
    match b
    case OnDdb(t) => Ddb.WellTyped(t)
    case OnRedis(t) => Redis.Valid(t)
  }

  function RowAt(b: Backend, client: string, scope: string): Option<Row> {
    match b
    case OnDdb(t) => Ddb.RowAt(t, client, scope)
    case OnRedis(t) => Redis.RowAt(t, client, scope)
  }

  function TokensAt(b: Backend, bucket: Bucket): nat {
    match b
    case OnDdb(t) => Ddb.TokensAt(t, bucket)
    case OnRedis(t) => Redis.TokensAt(t, bucket)
  }

  function Upserted(b: Backend, client: string, scope: string, prev: int, next: Edge): Stored {
    match b
    case OnDdb(t) => var r := Ddb.Upserted(t, client, scope, prev, next); Stored(OnDdb(r.table), r.ok)
    case OnRedis(t) => var r := Redis.Upserted(t, client, scope, prev, next); Stored(OnRedis(r.table), r.ok)
  }

  /** Every limiter of the program uses one-minute windows. */
  function Acquired(b: Backend, a: Attempt): Stored {
    match b
    case OnDdb(t) => var r := Ddb.Acquired(t, a, 60); Stored(OnDdb(r.table), r.ok)
    case OnRedis(t) => var r := Redis.Acquired(t, a, 60, Redis.Healthy); Stored(OnRedis(r.table), r.ok)
  }

  datatype DataStore = ViaDdb(ddb: Ddb.DataStore) | ViaRedis(redis: Redis.DataStore) {

    ghost function Objects(): set<object> {
      match this
      case ViaDdb(d) => {d}
      case ViaRedis(r) => {r}
    }

    /** What the store holds. */
    ghost function View(): Backend
      reads Objects()
    {
      match this
      case ViaDdb(d) => OnDdb(d.items)
      case ViaRedis(r) => OnRedis(r.hashes)
    }

    method Load(client: string, scope: string) returns (row: Option<Row>)
      ensures row == RowAt(View(), client, scope)
    {
      match this
      case ViaDdb(d) => row := d.Load(client, scope);
      case ViaRedis(r) => row := r.Load(client, scope);
    }

    method UpsertCAS(client: string, scope: string, prev: int, next: Edge) returns (ok: bool)
      requires Sound(View())
      modifies Objects()
      ensures Sound(View())
      ensures Stored(View(), ok) == Upserted(old(View()), client, scope, prev, next)
    {
      match this
      case ViaDdb(d) => ok := d.UpsertCAS(client, scope, prev, next);
      case ViaRedis(r) => ok := r.UpsertCAS(client, scope, prev, next);
    }

    method Acquire(a: Attempt) returns (ok: bool)
      requires Sound(View())
      modifies Objects()
      ensures Sound(View())
      ensures Stored(View(), ok) == Acquired(old(View()), a)
      ensures ok <==> a.cap > 0 && TokensAt(old(View()), BucketOf(a)) < a.cap
    {
      match this
      case ViaDdb(d) => ok := d.Acquire(a, 60);
      case ViaRedis(r) =>
        var err;
        ok, err := r.Acquire(a, Redis.Healthy);
    }
  }

  // ---------------------------------------------------------------- what the two backends share

  /** Taking a token, on either backend: admitted below the cap, nothing else touched. */
  lemma {:induction false} AcquireSpec(b: Backend, a: Attempt)
    requires Sound(b)
    ensures var r := Acquired(b, a);
            && Sound(r.backend)
            && (r.ok <==> a.cap > 0 && TokensAt(b, BucketOf(a)) < a.cap)
            && TokensAt(r.backend, BucketOf(a)) == TokensAt(b, BucketOf(a)) + (if r.ok then 1 else 0)
            && (forall x :: x != BucketOf(a) ==> TokensAt(r.backend, x) == TokensAt(b, x))
            && (forall c, s :: RowAt(r.backend, c, s) == RowAt(b, c, s))
  {
    match b
    case OnDdb(t) => Ddb.AcquireIsAdmission(t, a, 60);
    case OnRedis(t) =>
      Redis.AcquireIsAdmission(t, a, Redis.Healthy);
      Redis.AcquireDurable(t, a, Redis.Healthy);
      Redis.AcquireFrame(t, a, 60, Redis.Healthy);
  }
}
