/**
 * Any number of workers evaluating notifications against the DynamoDB store. A load and a conditional
 * write are one atomic step each; a run is any sequence of such steps by any workers on any keys.
 */
module CasProtocol {
  import opened Types
  import opened EdgeFlap
  import opened EdgeRuns
  import opened Rows

  datatype Key = Key(client: string, scope: string)

  /** A call between its load and its write; `since` is the step of the load. */
  datatype Call = Call(key: Key, ev: Event, loaded: Option<Row>, since: nat)

  /** A call that has returned; `version` is the version it committed, or 0. */
  datatype Delivery = Delivery(worker: nat, key: Key, ev: Event, reply: Reply, version: nat)

  /** `logs` records, per key, the events whose writes took effect, in the order they took effect. */
  datatype System = System(
    time: nat,
    rows: map<Key, Row>,
    calls: map<nat, Call>,
    logs: map<Key, seq<Event>>,
    done: seq<Delivery>)

  datatype Move =
    | Load(worker: nat, key: Key, ev: Event)
    | LoadFails(worker: nat, key: Key, ev: Event)
    | Finish(worker: nat, io: Io)
    | Abandon(worker: nat)

  function LogAt(s: System, k: Key): seq<Event> {
    if k in s.logs then s.logs[k] else []
  }

  const EMPTY := System(0, map[], map[], map[], [])

  function Verdict(flap: Key -> Option<FlapConfig>, c: Call): Decision {
    Decide(EdgeOf(c.loaded), c.ev, flap(c.key))
  }

  function Attempt(flap: Key -> Option<FlapConfig>, s: System, c: Call): Written
    requires Verdict(flap, c).Write?
  {
    Cas(Get(s.rows, c.key), c.key.scope, Version(c.loaded), Verdict(flap, c).next)
  }

  /** True when finishing the call now writes its row. */
  predicate Lands(flap: Key -> Option<FlapConfig>, s: System, c: Call, io: Io) {
    Verdict(flap, c).Write? && !io.RequestLost? && Attempt(flap, s, c).ok
  }

  function Conclude(flap: Key -> Option<FlapConfig>, s: System, worker: nat, c: Call, io: Io): System {
    var d := Verdict(flap, c);
    var rest := s.(calls := s.calls - {worker});
    var reply :=
      Answer(d, if !io.Clean? then Failed else if Lands(flap, s, c, io) then Committed else Refused);
    if Lands(flap, s, c, io) then
      var w := Attempt(flap, s, c);
      rest.(rows := s.rows[c.key := w.row.value],
            logs := s.logs[c.key := LogAt(s, c.key) + [c.ev]],
            done := s.done + [Delivery(worker, c.key, c.ev, reply, |LogAt(s, c.key)| + 1)])
    else
      rest.(done := s.done + [Delivery(worker, c.key, c.ev, reply, 0)])
  }

  /** What a step does. A step that the worker cannot take does nothing. */
  function Effect(flap: Key -> Option<FlapConfig>, s: System, m: Move): System {
    match m
    case Load(w, k, ev) =>
      if w in s.calls then s else s.(calls := s.calls[w := Call(k, ev, Get(s.rows, k), s.time)])
    case LoadFails(w, k, ev) =>
      if w in s.calls then s else s.(done := s.done + [Delivery(w, k, ev, Reply(NoOp, None, true), 0)])
    case Finish(w, io) =>
      if w in s.calls then Conclude(flap, s, w, s.calls[w], io) else s
    case Abandon(w) => s.(calls := s.calls - {w})
  }

  function Apply(flap: Key -> Option<FlapConfig>, s: System, m: Move): System {
    Effect(flap, s, m).(time := s.time + 1)
  }

  function Exec(flap: Key -> Option<FlapConfig>, moves: seq<Move>): System {
    if moves == [] then EMPTY
    else Apply(flap, Exec(flap, moves[..|moves| - 1]), moves[|moves| - 1])
  }

  // ---------------------------------------------------------------- linearizability

  /** The row that a log of committed events stands for. */
  function RowOf(f: Option<FlapConfig>, scope: string, log: seq<Event>): Option<Row> {
    if log == [] then None else Some(Row(scope, Play(f, log).edge.value, |log|))
  }

  ghost predicate RowsFollowLogs(flap: Key -> Option<FlapConfig>, s: System) {
    forall k: Key :: Get(s.rows, k) == RowOf(flap(k), k.scope, LogAt(s, k))
  }

  /** A call in flight holds the row as it was at some point of its log. */
  ghost predicate CallFollowsLog(flap: Key -> Option<FlapConfig>, s: System, c: Call) {
    var log := LogAt(s, c.key);
    && 0 <= Version(c.loaded) <= |log|
    && c.loaded == RowOf(flap(c.key), c.key.scope, log[..Version(c.loaded)])
  }

  ghost predicate Inv(flap: Key -> Option<FlapConfig>, s: System) {
    && RowsFollowLogs(flap, s)
    && forall w :: w in s.calls ==> CallFollowsLog(flap, s, s.calls[w])
  }

  lemma {:induction false} RowHoldsFold(f: Option<FlapConfig>, scope: string, log: seq<Event>)
    ensures EdgeOf(RowOf(f, scope, log)) == Play(f, log).edge
    ensures Version(RowOf(f, scope, log)) == |log|
  {
  }

  lemma {:induction false} DecisionIsStep(e: Option<Edge>, ev: Event, f: Option<FlapConfig>)
    requires Decide(e, ev, f).Write?
    ensures Step(e, ev, f).next == Decide(e, ev, f).next
  {
  }

  /** The row of a log with one more event is the row that the event's decision writes. */
  lemma {:induction false} RowOfSnoc(f: Option<FlapConfig>, scope: string, log: seq<Event>, ev: Event)
    requires Decide(Play(f, log).edge, ev, f).Write?
    ensures RowOf(f, scope, log + [ev]) == Some(Row(scope, Decide(Play(f, log).edge, ev, f).next, |log| + 1))
  {
    DecisionIsStep(Play(f, log).edge, ev, f);
    assert (log + [ev])[..|log|] == log;
  }

  /** A write lands exactly when the row has not moved since the load, and then it extends the fold. */
  lemma {:induction false} LandingExtendsFold(flap: Key -> Option<FlapConfig>, s: System, c: Call)
    requires RowsFollowLogs(flap, s) && CallFollowsLog(flap, s, c) && Verdict(flap, c).Write?
    ensures Attempt(flap, s, c).ok <==> Version(c.loaded) == |LogAt(s, c.key)|
    ensures Attempt(flap, s, c).ok ==>
              && c.loaded == Get(s.rows, c.key)
              && Attempt(flap, s, c).row == RowOf(flap(c.key), c.key.scope, LogAt(s, c.key) + [c.ev])
  {
    var f, log := flap(c.key), LogAt(s, c.key);
    assert Get(s.rows, c.key) == RowOf(f, c.key.scope, log);
    if Attempt(flap, s, c).ok {
      assert log[..|log|] == log;
      RowHoldsFold(f, c.key.scope, log);
      RowOfSnoc(f, c.key.scope, log, c.ev);
    }
  }

  lemma {:induction false} LandingKeepsRows(flap: Key -> Option<FlapConfig>, s: System, w: nat, io: Io)
    requires Inv(flap, s) && w in s.calls && Lands(flap, s, s.calls[w], io)
    ensures RowsFollowLogs(flap, Conclude(flap, s, w, s.calls[w], io))
  {
    var s' := Conclude(flap, s, w, s.calls[w], io);
    assert CallFollowsLog(flap, s, s.calls[w]);
    LandingExtendsFold(flap, s, s.calls[w]);
    forall k: Key
      ensures Get(s'.rows, k) == RowOf(flap(k), k.scope, LogAt(s', k))
    {
      assert Get(s.rows, k) == RowOf(flap(k), k.scope, LogAt(s, k));
    }
  }

  /** A call in flight still follows a log that has grown. */
  lemma {:induction false} GrownLogFollowed(flap: Key -> Option<FlapConfig>, s: System, s': System, c: Call)
    requires CallFollowsLog(flap, s, c) && LogAt(s, c.key) <= LogAt(s', c.key)
    ensures CallFollowsLog(flap, s', c)
  {
    assert LogAt(s', c.key)[..Version(c.loaded)] == LogAt(s, c.key)[..Version(c.loaded)];
  }

  lemma {:induction false} LandingKeepsInv(flap: Key -> Option<FlapConfig>, s: System, w: nat, io: Io)
    requires Inv(flap, s) && w in s.calls && Lands(flap, s, s.calls[w], io)
    ensures Inv(flap, Conclude(flap, s, w, s.calls[w], io))
  {
    var s' := Conclude(flap, s, w, s.calls[w], io);
    LandingKeepsRows(flap, s, w, io);
    forall v | v in s'.calls
      ensures CallFollowsLog(flap, s', s'.calls[v])
    {
      assert CallFollowsLog(flap, s, s.calls[v]);
      GrownLogFollowed(flap, s, s', s.calls[v]);
    }
  }

  lemma {:induction false} ConcludeKeepsInv(flap: Key -> Option<FlapConfig>, s: System, w: nat, io: Io)
    requires Inv(flap, s) && w in s.calls
    ensures Inv(flap, Conclude(flap, s, w, s.calls[w], io))
  {
    if Lands(flap, s, s.calls[w], io) {
      LandingKeepsInv(flap, s, w, io);
    } else {
      SameRowsKeepInv(flap, s, Conclude(flap, s, w, s.calls[w], io));
    }
  }

  lemma {:induction false} SameRowsKeepInv(flap: Key -> Option<FlapConfig>, s: System, s': System)
    requires Inv(flap, s) && s'.rows == s.rows && s'.logs == s.logs
    requires forall w :: w in s'.calls ==> w in s.calls && s'.calls[w] == s.calls[w]
    ensures Inv(flap, s')
  {
    forall k: Key
      ensures Get(s'.rows, k) == RowOf(flap(k), k.scope, LogAt(s', k))
    {
      assert Get(s.rows, k) == RowOf(flap(k), k.scope, LogAt(s, k));
    }
    forall w | w in s'.calls
      ensures CallFollowsLog(flap, s', s'.calls[w])
    {
      assert CallFollowsLog(flap, s, s.calls[w]);
    }
  }

  lemma {:induction false} LoadFollowsLog(flap: Key -> Option<FlapConfig>, s: System, c: Call)
    requires RowsFollowLogs(flap, s) && c.loaded == Get(s.rows, c.key)
    ensures CallFollowsLog(flap, s, c)
  {
    var log := LogAt(s, c.key);
    assert Get(s.rows, c.key) == RowOf(flap(c.key), c.key.scope, log);
    assert log[..|log|] == log;
  }

  lemma {:induction false} LoadKeepsInv(flap: Key -> Option<FlapConfig>, s: System, w: nat, k: Key, ev: Event)
    requires Inv(flap, s) && w !in s.calls
    ensures Inv(flap, s.(calls := s.calls[w := Call(k, ev, Get(s.rows, k), s.time)]))
  {
    var c := Call(k, ev, Get(s.rows, k), s.time);
    var s' := s.(calls := s.calls[w := c]);
    LoadFollowsLog(flap, s, c);
    forall v | v in s'.calls
      ensures CallFollowsLog(flap, s', s'.calls[v])
    {
      assert v != w ==> CallFollowsLog(flap, s, s.calls[v]);
    }
    SameRowsFollowLogs(flap, s, s');
  }

  lemma {:induction false} SameRowsFollowLogs(flap: Key -> Option<FlapConfig>, s: System, s': System)
    requires RowsFollowLogs(flap, s) && s'.rows == s.rows && s'.logs == s.logs
    ensures RowsFollowLogs(flap, s')
  {
    forall k: Key
      ensures Get(s'.rows, k) == RowOf(flap(k), k.scope, LogAt(s', k))
    {
      assert Get(s.rows, k) == RowOf(flap(k), k.scope, LogAt(s, k));
    }
  }

  lemma {:induction false} EffectKeepsInv(flap: Key -> Option<FlapConfig>, s: System, m: Move)
    requires Inv(flap, s)
    ensures Inv(flap, Effect(flap, s, m))
  {
    if m.Load? && m.worker !in s.calls {
      LoadKeepsInv(flap, s, m.worker, m.key, m.ev);
    } else if m.Finish? && m.worker in s.calls {
      ConcludeKeepsInv(flap, s, m.worker, m.io);
    } else {
      SameRowsKeepInv(flap, s, Effect(flap, s, m));
    }
  }

  lemma {:induction false} ApplyKeepsInv(flap: Key -> Option<FlapConfig>, s: System, m: Move)
    requires Inv(flap, s)
    ensures Inv(flap, Apply(flap, s, m))
  {
    EffectKeepsInv(flap, s, m);
    SameRowsKeepInv(flap, Effect(flap, s, m), Apply(flap, s, m));
  }

  lemma {:induction false} ExecInv(flap: Key -> Option<FlapConfig>, moves: seq<Move>)
    ensures Inv(flap, Exec(flap, moves))
  {
    if moves != [] {
      var n := |moves| - 1;
      ExecInv(flap, moves[..n]);
      ApplyKeepsInv(flap, Exec(flap, moves[..n]), moves[n]);
    }
  }

  /**
   * In every interleaving, every row is the fold of the single-call transition over the events
   * committed to its key, in commit order, and its version is their number.
   */
  lemma {:induction false} Linearizable(flap: Key -> Option<FlapConfig>, moves: seq<Move>, k: Key)
    ensures var s := Exec(flap, moves);
            Get(s.rows, k) == RowOf(flap(k), k.scope, LogAt(s, k))
  {
    ExecInv(flap, moves);
  }
}
