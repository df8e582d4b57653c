/** The data that the stores persist and the configuration that drives evaluation. */
module Types {

  datatype Option<+T> = None | Some(value: T)

  function Get<K, V>(m: map<K, V>, k: K): Option<V> {
    if k in m then Some(m[k]) else None
  }

  /** The cap on the log of recent flips kept in a row. */
  const HARD_LIMIT_RECENT_ITEMS: nat := 128

  const CLIENT_KEY_MIN_LENGTH: nat := 8
  const MIN_WINDOW_SIZE_SECONDS: nat := 10

  /** One observed change of the trigger value; `payload` is the encoded notification. */
  datatype Flip = Flip(at: int, from: string, to: string, payload: string)

  /** The part of a persisted row that evaluation reads and rewrites. `recent` is oldest first. */
  datatype Edge = Edge(
    lastValue: string,
    lastChangeTS: int,
    windowStart: int,
    flipCount: int,
    recent: seq<Flip>,
    aggUntilTS: int)

  /** A persisted row: the scope key and the version are maintained by the store, not by evaluation. */
  datatype Row = Row(scopeKey: string, edge: Edge, version: int)

  datatype FlapConfig = FlapConfig(
    windowSeconds: int,
    suppressBelow: int,
    aggregateAt: int,
    aggregateMaxItems: int,
    aggregateCooldownSeconds: int)

  datatype ClientConfig = ClientConfig(
    clientID: string,
    clientName: string,
    clientKey: string,
    ipRPM: int,
    clientRPM: int,
    fieldExpr: string,
    snsArn: string,
    snsRPM: int,
    flapping: Option<FlapConfig>)

  /** The chain of checks a configuration passes before it is stored. */
  predicate Validate(c: ClientConfig) {
    && c.clientID != ""
    && c.clientName != ""
    && c.clientKey != ""
    && |c.clientKey| >= CLIENT_KEY_MIN_LENGTH
    && c.ipRPM >= 0
    && c.clientRPM >= 0
    && (c.flapping.Some? ==>
          && c.flapping.value.windowSeconds >= MIN_WINDOW_SIZE_SECONDS
          && 0 <= c.flapping.value.suppressBelow <= c.flapping.value.windowSeconds)
  }

  function Min(a: int, b: int): int { if a <= b then a else b }

  /** The longest suffix of `s` that has at most `n` elements. */
  function LastN<T>(s: seq<T>, n: nat): seq<T> {
    if |s| <= n then s else s[|s| - n..]
  }

  /** Appending to a bounded suffix of a log gives the bounded suffix of the longer log. */
  lemma {:induction false} LastNSnoc<T>(s: seq<T>, x: T, n: nat)
    requires n > 0
    ensures LastN(LastN(s, n) + [x], n) == LastN(s + [x], n)
  {
  }

  /** Appends to the slice and drops the oldest entries above `cap`. */
  method AppendRecent(rs: seq<Flip>, f: Flip, cap: nat) returns (out: seq<Flip>)
    ensures out == LastN(rs + [f], cap)
    ensures |out| == Min(|rs| + 1, cap)
    ensures cap > 0 ==> out[|out| - 1] == f
  {
    out := rs + [f];
    if |out| > cap {
      out := out[|out| - cap..];
    }
  }
}
