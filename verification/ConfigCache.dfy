/** The in-process cache of client configs, and how stale an answer from it can be. */
module ConfigCache {
  import opened Types

  /** Nanoseconds, the resolution of the clock. */
  const CONFIG_TTL := 300_000_000_000

  datatype Entry<V> = Entry(val: V, exp: int)

  /** An entry is still good at the very instant it expires. */
  predicate Good<V>(e: Option<Entry<V>>, now: int) {
    e.Some? && now <= e.value.exp
  }

  /** Expired entries stay in the map until they are overwritten. */
  class TTL<K(==), V> {
    var data: map<K, Entry<V>>

    constructor ()
      ensures data == map[]
    {
      data := map[];
    }

    method Get(k: K, now: int) returns (r: Option<V>)
      ensures r.Some? <==> k in data && now <= data[k].exp
      ensures r.Some? ==> r.value == data[k].val
    {
      if k !in data || now > data[k].exp {
        r := None;
      } else {
        r := Some(data[k].val);
      }
    }

    method Set(k: K, v: V, ttl: int, now: int)
      modifies this
      ensures data == old(data)[k := Entry(v, now + ttl)]
    {
      data := data[k := Entry(v, now + ttl)];
    }
  }

  /**
   * A load of a config: `fetched` is what the store would answer (None for an error, which includes an
   * unknown client), `now` and `later` the clock at the lookup and after the store has answered.
   */
  method LoadCachedClientConfig(
    cache: TTL<string, ClientConfig>, id: string, now: int, fetched: Option<ClientConfig>, later: int)
    returns (r: Option<ClientConfig>)
    modifies cache
    ensures var hit := id in old(cache.data) && now <= old(cache.data)[id].exp;
            && r == (if hit then Some(old(cache.data)[id].val) else fetched)
            && cache.data == (if hit || r.None? then old(cache.data)
                              else old(cache.data)[id := Entry(r.value, later + 300_000_000_000)])
    ensures r.Some? && now <= later ==>
              id in cache.data && cache.data[id].val == r.value && now <= cache.data[id].exp
  {
    r := cache.Get(id, now);
    if r.None? {
      r := fetched;
      if fetched.Some? {
        cache.Set(id, fetched.value, CONFIG_TTL, later);
      }
    }
  }

  // ---------------------------------------------------------------- interleaved loads

  /** Where a load has got to; `since` is the clock when the store answered. */
  datatype Stage =
    | Peeked(id: string, entry: Option<Entry<ClientConfig>>)
    | Missed(id: string)
    | Fetched(id: string, cfg: ClientConfig, since: int)

  datatype Move =
    | Peek(worker: nat, id: string)
    | Judge(worker: nat)
    | Fetch(worker: nat, answered: bool)
    | Fill(worker: nat)
    | Put(id: string, cfg: ClientConfig)
    | Delete(id: string)

  /** A step and the clock at it. */
  datatype Step = Step(at: int, move: Move)

  datatype State = State(
    store: map<string, ClientConfig>,
    cache: map<string, Entry<ClientConfig>>,
    loads: map<nat, Stage>)

  const COLD := State(map[], map[], map[])

  function Apply(s: State, step: Step): State {
    match step.move
    case Peek(w, id) => if w in s.loads then s else s.(loads := s.loads[w := Peeked(id, Get(s.cache, id))])
    case Judge(w) =>
      if w in s.loads && s.loads[w].Peeked? then
        if Good(s.loads[w].entry, step.at) then s.(loads := s.loads - {w})
        else s.(loads := s.loads[w := Missed(s.loads[w].id)])
      else s
    case Fetch(w, answered) =>
      if w in s.loads && s.loads[w].Missed? then
        var id := s.loads[w].id;
        if answered && id in s.store then s.(loads := s.loads[w := Fetched(id, s.store[id], step.at)])
        else s.(loads := s.loads - {w})
      else s
    case Fill(w) =>
      if w in s.loads && s.loads[w].Fetched? then
        var l := s.loads[w];
        s.(cache := s.cache[l.id := Entry(l.cfg, step.at + CONFIG_TTL)], loads := s.loads - {w})
      else s
    case Put(id, cfg) => s.(store := s.store[id := cfg])
    case Delete(id) => s.(store := s.store - {id})
  }

  function Exec(steps: seq<Step>): State {
    if steps == [] then COLD else Apply(Exec(steps[..|steps| - 1]), steps[|steps| - 1])
  }

  datatype Served = Served(id: string, cfg: ClientConfig)

  /** The config a step hands to its caller, if it does. */
  function Serves(s: State, step: Step): Option<Served> {
    match step.move
    case Judge(w) =>
      if w in s.loads && s.loads[w].Peeked? && Good(s.loads[w].entry, step.at) then
        Some(Served(s.loads[w].id, s.loads[w].entry.value.val))
      else None
    case Fill(w) =>
      if w in s.loads && s.loads[w].Fetched? then Some(Served(s.loads[w].id, s.loads[w].cfg)) else None
    case _ => None
  }

  function StoreAt(steps: seq<Step>, i: nat, id: string): Option<ClientConfig>
    requires i <= |steps|
  {
    Get(Exec(steps[..i]).store, id)
  }

  predicate Monotone(steps: seq<Step>) {
    forall i, j :: 0 <= i <= j < |steps| ==> steps[i].at <= steps[j].at
  }

  /** Every load fills the cache within `delay` of the store's answer. */
  predicate FillsWithin(steps: seq<Step>, delay: int) {
    forall j :: 0 <= j < |steps| ==> FillDelay(Exec(steps[..j]), steps[j], delay)
  }

  predicate FillDelay(s: State, step: Step, delay: int) {
    step.move.Fill? && step.move.worker in s.loads && s.loads[step.move.worker].Fetched? ==>
      step.at - s.loads[step.move.worker].since <= delay
  }

  // ---------------------------------------------------------------- provenance

  /** The store held `cfg` for `id` when step `i` read it, at time `since`. */
  predicate ReadAt(steps: seq<Step>, i: int, id: string, cfg: ClientConfig, since: int) {
    0 <= i < |steps| && steps[i].at == since && StoreAt(steps, i, id) == Some(cfg)
  }

  /** Step `j` filled an entry that expires at `exp`. */
  predicate FilledAt(steps: seq<Step>, j: int, exp: int) {
    0 <= j < |steps| && steps[j].at + CONFIG_TTL == exp
  }

  /** The entry comes from a read at step `i` that a fill at step `j` cached within `delay`. */
  predicate ComesFrom(
    steps: seq<Step>, i: int, j: int, id: string, e: Entry<ClientConfig>, delay: int)
  {
    && 0 <= i < j < |steps|
    && ReadAt(steps, i, id, e.val, steps[i].at)
    && FilledAt(steps, j, e.exp)
    && steps[j].at - steps[i].at <= delay
  }

  ghost predicate EntryTraced(steps: seq<Step>, id: string, e: Entry<ClientConfig>, delay: int) {
    exists i, j :: ComesFrom(steps, i, j, id, e, delay)
  }

  ghost predicate StageTraced(steps: seq<Step>, l: Stage, delay: int) {
    && (l.Peeked? && l.entry.Some? ==> EntryTraced(steps, l.id, l.entry.value, delay))
    && (l.Fetched? ==> exists i :: ReadAt(steps, i, l.id, l.cfg, l.since))
  }

  ghost predicate Traced(steps: seq<Step>, s: State, delay: int) {
    && (forall id :: id in s.cache ==> EntryTraced(steps, id, s.cache[id], delay))
    && (forall w :: w in s.loads ==> StageTraced(steps, s.loads[w], delay))
  }

  lemma {:induction false} ReadStays(
    steps: seq<Step>, x: Step, i: int, id: string, cfg: ClientConfig, since: int)
    requires ReadAt(steps, i, id, cfg, since)
    ensures ReadAt(steps + [x], i, id, cfg, since)
  {
    assert (steps + [x])[..i] == steps[..i];
  }

  lemma {:induction false} EntryStays(
    steps: seq<Step>, x: Step, id: string, e: Entry<ClientConfig>, delay: int)
    requires EntryTraced(steps, id, e, delay)
    ensures EntryTraced(steps + [x], id, e, delay)
  {
    var i, j :| ComesFrom(steps, i, j, id, e, delay);
    ReadStays(steps, x, i, id, e.val, steps[i].at);
    assert ComesFrom(steps + [x], i, j, id, e, delay);
  }

  lemma {:induction false} StageStays(steps: seq<Step>, x: Step, l: Stage, delay: int)
    requires StageTraced(steps, l, delay)
    ensures StageTraced(steps + [x], l, delay)
  {
    if l.Peeked? && l.entry.Some? {
      EntryStays(steps, x, l.id, l.entry.value, delay);
    }
    if l.Fetched? {
      var i :| ReadAt(steps, i, l.id, l.cfg, l.since);
      ReadStays(steps, x, i, l.id, l.cfg, l.since);
    }
  }

  /** A fill caches what its own load read, however long ago. */
  lemma {:induction false} FillTraced(steps: seq<Step>, x: Step, w: nat, delay: int)
    requires var s := Exec(steps);
             w in s.loads && s.loads[w].Fetched? && StageTraced(steps, s.loads[w], delay)
    requires x.at - Exec(steps).loads[w].since <= delay
    ensures var l := Exec(steps).loads[w];
            EntryTraced(steps + [x], l.id, Entry(l.cfg, x.at + CONFIG_TTL), delay)
  {
    var l := Exec(steps).loads[w];
    var i :| ReadAt(steps, i, l.id, l.cfg, l.since);
    ReadStays(steps, x, i, l.id, l.cfg, l.since);
    assert ComesFrom(steps + [x], i, |steps|, l.id, Entry(l.cfg, x.at + CONFIG_TTL), delay);
  }

  lemma {:induction false} StepTraced(steps: seq<Step>, x: Step, delay: int)
    requires Traced(steps, Exec(steps), delay) && FillDelay(Exec(steps), x, delay)
    ensures Traced(steps + [x], Apply(Exec(steps), x), delay)
  {
    var s := Exec(steps);
    var s' := Apply(s, x);
    forall id | id in s'.cache
      ensures EntryTraced(steps + [x], id, s'.cache[id], delay)
    {
      if id in s.cache && s'.cache[id] == s.cache[id] {
        EntryStays(steps, x, id, s.cache[id], delay);
      } else {
        assert StageTraced(steps, s.loads[x.move.worker], delay);
        FillTraced(steps, x, x.move.worker, delay);
      }
    }
    forall w | w in s'.loads
      ensures StageTraced(steps + [x], s'.loads[w], delay)
    {
      LoadTraced(steps, x, w, delay);
    }
  }

  lemma {:induction false} FetchTraced(steps: seq<Step>, x: Step, id: string)
    requires id in Exec(steps).store
    ensures ReadAt(steps + [x], |steps|, id, Exec(steps).store[id], x.at)
  {
    assert (steps + [x])[..|steps|] == steps;
  }

  lemma {:induction false} PeekTraced(steps: seq<Step>, x: Step, id: string, delay: int)
    requires Traced(steps, Exec(steps), delay)
    ensures StageTraced(steps + [x], Peeked(id, Get(Exec(steps).cache, id)), delay)
  {
    if id in Exec(steps).cache {
      EntryStays(steps, x, id, Exec(steps).cache[id], delay);
    }
  }

  lemma {:induction false} LoadTraced(steps: seq<Step>, x: Step, w: nat, delay: int)
    requires Traced(steps, Exec(steps), delay) && w in Apply(Exec(steps), x).loads
    ensures StageTraced(steps + [x], Apply(Exec(steps), x).loads[w], delay)
  {
    var s := Exec(steps);
    var l := Apply(s, x).loads[w];
    if w in s.loads && l == s.loads[w] {
      assert StageTraced(steps, s.loads[w], delay);
      StageStays(steps, x, l, delay);
    } else if l.Peeked? {
      PeekTraced(steps, x, l.id, delay);
    } else if l.Fetched? {
      FetchTraced(steps, x, l.id);
    }
  }

  lemma {:induction false} ExecSnoc(steps: seq<Step>, x: Step)
    ensures Exec(steps + [x]) == Apply(Exec(steps), x)
  {
    assert (steps + [x])[..|steps|] == steps;
  }

  lemma {:induction false} FillsWithinPrefix(steps: seq<Step>, n: nat, delay: int)
    requires n <= |steps| && FillsWithin(steps, delay)
    ensures FillsWithin(steps[..n], delay)
  {
    var init := steps[..n];
    forall j | 0 <= j < n
      ensures FillDelay(Exec(init[..j]), init[j], delay)
    {
      assert init[..j] == steps[..j];
    }
  }

  lemma {:induction false} ExecTraced(steps: seq<Step>, delay: int)
    requires FillsWithin(steps, delay)
    ensures Traced(steps, Exec(steps), delay)
  {
    if steps != [] {
      var n := |steps| - 1;
      var init, x := steps[..n], steps[n];
      FillsWithinPrefix(steps, n, delay);
      ExecTraced(init, delay);
      assert FillDelay(Exec(init), x, delay);
      StepTraced(init, x, delay);
      ExecSnoc(init, x);
      assert steps == init + [x];
    }
  }

  // ---------------------------------------------------------------- staleness

  /**
   * A config served by step `n` was read from the store by some step `i`, cached by some step `j`
   * within `delay` of that, and is served no later than the lifetime after `j`.
   */
  lemma {:induction false} ServedWasStored(steps: seq<Step>, n: nat, delay: int) returns (i: nat, j: nat)
    requires n < |steps| && Monotone(steps) && FillsWithin(steps, delay)
    requires Serves(Exec(steps[..n]), steps[n]).Some?
    ensures i < j <= n
    ensures var r := Serves(Exec(steps[..n]), steps[n]).value;
            StoreAt(steps, i, r.id) == Some(r.cfg)
    ensures steps[i].at <= steps[j].at <= steps[n].at <= steps[j].at + 300_000_000_000
    ensures steps[j].at <= steps[i].at + delay
  {
    var init := steps[..n];
    var l := Exec(init).loads[steps[n].move.worker];
    FillsWithinPrefix(steps, n, delay);
    ExecTraced(init, delay);
    assert StageTraced(init, l, delay);
    if l.Peeked? {
      i, j :| ComesFrom(init, i, j, l.id, l.entry.value, delay);
    } else {
      i :| ReadAt(init, i, l.id, l.cfg, l.since);
      j := n;
      assert FillDelay(Exec(steps[..n]), steps[n], delay);
    }
    assert init[..i] == steps[..i];
  }

  /** A deleted config that is not stored again stays out of the store. */
  lemma {:induction false} StaysDeleted(steps: seq<Step>, k: nat, i: nat, id: string)
    requires k < i <= |steps| && steps[k].move == Delete(id)
    requires forall p :: k < p < i && steps[p].move.Put? ==> steps[p].move.id != id
    ensures StoreAt(steps, i, id) == None
    decreases i
  {
    assert steps[..i][..i - 1] == steps[..i - 1];
    if k < i - 1 {
      StaysDeleted(steps, k, i - 1, id);
    }
  }

  /** A deleted config is not served once its lifetime and the longest fill delay have passed. */
  lemma {:induction false} DeletedIsForgotten(steps: seq<Step>, k: nat, n: nat, delay: int, id: string)
    requires k < n < |steps| && Monotone(steps) && FillsWithin(steps, delay) && steps[k].move == Delete(id)
    requires forall p :: k < p < n && steps[p].move.Put? ==> steps[p].move.id != id
    requires steps[n].at > steps[k].at + 300_000_000_000 + delay
    ensures var r := Serves(Exec(steps[..n]), steps[n]);
            r.Some? ==> r.value.id != id
  {
    var r := Serves(Exec(steps[..n]), steps[n]);
    if r.Some? && r.value.id == id {
      var i, j := ServedWasStored(steps, n, delay);
      if i > k {
        StaysDeleted(steps, k, i, id);
      }
    }
  }

  /** In the last lifetime plus `delay` before `t`, and now, the store held `now` for the client. */
  ghost predicate Settled(steps: seq<Step>, t: int, delay: int, id: string, now: Option<ClientConfig>) {
    && Get(Exec(steps).store, id) == now
    && forall i: nat :: i < |steps| && t - 300_000_000_000 - delay <= steps[i].at ==> StoreAt(steps, i, id) == now
  }

  /**
   * A client whose stored config (or its absence) has not changed for the lifetime plus the longest
   * fill delay is served exactly that config (or none).
   */
  lemma {:induction false} SettledConfigIsServed(
    steps: seq<Step>, n: nat, delay: int, id: string, now: Option<ClientConfig>)
    requires n < |steps| && Monotone(steps) && FillsWithin(steps, delay)
    requires Settled(steps[..n], steps[n].at, delay, id, now)
    ensures var r := Serves(Exec(steps[..n]), steps[n]);
            r.Some? && r.value.id == id ==> now == Some(r.value.cfg)
  {
    var r := Serves(Exec(steps[..n]), steps[n]);
    if r.Some? && r.value.id == id {
      var i, j := ServedWasStored(steps, n, delay);
      assert steps[..n][..i] == steps[..i] && steps[..n][i] == steps[i];
    }
  }

  /** Other steps than a fill keep to any fill delay. */
  lemma {:induction false} OtherStepFillsWithin(steps: seq<Step>, x: Step, delay: int)
    requires FillsWithin(steps, delay) && !x.move.Fill?
    ensures FillsWithin(steps + [x], delay)
  {
    var all := steps + [x];
    forall j | 0 <= j < |all|
      ensures FillDelay(Exec(all[..j]), all[j], delay)
    {
      if j < |steps| {
        assert all[..j] == steps[..j];
      }
    }
  }

  /** A load of a missing or expired entry that the store answers at once serves what the store holds. */
  lemma {:induction false} MissServesStore(steps: seq<Step>, w: nat, t: int, id: string)
    requires var s := Exec(steps); w in s.loads && s.loads[w] == Missed(id) && id in s.store
    ensures Serves(Exec(steps + [Step(t, Fetch(w, true))]), Step(t, Fill(w)))
         == Some(Served(id, Exec(steps).store[id]))
  {
    ExecSnoc(steps, Step(t, Fetch(w, true)));
  }

  /**
   * A load that nothing interrupts returns a config that exists and is settled: from the cache at its
   * expiry check, or else from the store at its fill.
   */
  lemma {:induction false} SettledConfigIsReturned(
    steps: seq<Step>, w: nat, t: int, delay: int, id: string, cfg: ClientConfig)
    requires Monotone(steps) && (steps != [] ==> steps[|steps| - 1].at <= t)
    requires FillsWithin(steps, delay) && Settled(steps, t, delay, id, Some(cfg))
    requires w !in Exec(steps).loads
    ensures var peeked := steps + [Step(t, Peek(w, id))];
            var missed := peeked + [Step(t, Judge(w))];
            var fetched := missed + [Step(t, Fetch(w, true))];
            var atJudge := Serves(Exec(peeked), Step(t, Judge(w)));
            var atFill := Serves(Exec(fetched), Step(t, Fill(w)));
            atJudge == Some(Served(id, cfg)) || (atJudge == None && atFill == Some(Served(id, cfg)))
  {
    var peek, judge := Step(t, Peek(w, id)), Step(t, Judge(w));
    var peeked := steps + [peek];
    ExecSnoc(steps, peek);
    ExecSnoc(peeked, judge);
    if Serves(Exec(peeked), judge).Some? {
      OtherStepFillsWithin(steps, peek, delay);
      OtherStepFillsWithin(peeked, judge, delay);
      SettledAfterPeek(steps, peek, delay, id, Some(cfg));
      assert (peeked + [judge])[..|peeked|] == peeked;
      SettledConfigIsServed(peeked + [judge], |peeked|, delay, id, Some(cfg));
    } else {
      MissServesStore(peeked + [judge], w, t, id);
    }
  }

  lemma {:induction false} SettledAfterPeek(
    steps: seq<Step>, peek: Step, delay: int, id: string, now: Option<ClientConfig>)
    requires Settled(steps, peek.at, delay, id, now) && peek.move.Peek?
    ensures Settled(steps + [peek], peek.at, delay, id, now)
  {
    var all := steps + [peek];
    ExecSnoc(steps, peek);
    forall i: nat | i < |all| && peek.at - 300_000_000_000 - delay <= all[i].at
      ensures StoreAt(all, i, id) == now
    {
      assert all[..i] == steps[..i];
      if i == |steps| {
        assert steps[..i] == steps;
      }
    }
  }

  /** A config stored and loaded at once. */
  function Warm(id: string, cfg: ClientConfig, t: int): seq<Step> {
    [Step(t, Put(id, cfg))] + [Step(t, Peek(0, id))] + [Step(t, Judge(0))]
    + [Step(t, Fetch(0, true))] + [Step(t, Fill(0))]
  }

  lemma {:induction false} WarmCaches(id: string, cfg: ClientConfig, t: int)
    ensures Exec(Warm(id, cfg, t))
         == State(map[id := cfg], map[id := Entry(cfg, t + CONFIG_TTL)], map[])
  {
    var s1 := [Step(t, Put(id, cfg))];
    var s2 := s1 + [Step(t, Peek(0, id))];
    var s3 := s2 + [Step(t, Judge(0))];
    var s4 := s3 + [Step(t, Fetch(0, true))];
    assert [] + s1 == s1;
    ExecSnoc([], s1[0]);
    ExecSnoc(s1, Step(t, Peek(0, id)));
    ExecSnoc(s2, Step(t, Judge(0)));
    ExecSnoc(s3, Step(t, Fetch(0, true)));
    ExecSnoc(s4, Step(t, Fill(0)));
  }

  /** The bound is reached: a replaced config is served to the last instant, and not one longer. */
  lemma {:induction false} StalenessReached(
    id: string, was: ClientConfig, becomes: ClientConfig, t: int, late: int)
    requires t <= late
    ensures
      var steps := Warm(id, was, t) + [Step(t, Put(id, becomes))] + [Step(late, Peek(1, id))];
      && StoreAt(steps, 7, id) == Some(becomes)
      && Serves(Exec(steps), Step(late, Judge(1)))
         == (if late <= t + 300_000_000_000 then Some(Served(id, was)) else None)
  {
    var filled := Warm(id, was, t);
    var replaced := filled + [Step(t, Put(id, becomes))];
    var steps := replaced + [Step(late, Peek(1, id))];
    WarmCaches(id, was, t);
    ExecSnoc(filled, Step(t, Put(id, becomes)));
    ExecSnoc(replaced, Step(late, Peek(1, id)));
    assert steps[..7] == steps;
  }
}
