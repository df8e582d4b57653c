/** What every interleaving of evaluation calls guarantees, from linearizability. */
module CasLaws {
  import opened Types
  import opened EdgeFlap
  import opened EdgeRuns
  import opened EdgeLaws
  import opened WindowLaws
  import opened FloodLaws
  import opened AnswerLaws
  import opened StutterLaws
  import opened Rows
  import opened CasProtocol

  // ---------------------------------------------------------------- committed events are never undone

  lemma {:induction false} ApplyExtendsLog(flap: Key -> Option<FlapConfig>, s: System, m: Move, k: Key)
    ensures LogAt(s, k) <= LogAt(Apply(flap, s, m), k)
    ensures |LogAt(Apply(flap, s, m), k)| <= |LogAt(s, k)| + 1
  {
  }

  /** The log of a key only grows: no later step removes or reorders a committed event. */
  lemma {:induction false} LogsAppendOnly(flap: Key -> Option<FlapConfig>, moves: seq<Move>, i: nat, k: Key)
    requires i <= |moves|
    ensures LogAt(Exec(flap, moves[..i]), k) <= LogAt(Exec(flap, moves), k)
  {
    if i < |moves| {
      var n := |moves| - 1;
      LogsAppendOnly(flap, moves[..n], i, k);
      assert moves[..n][..i] == moves[..i];
      ApplyExtendsLog(flap, Exec(flap, moves[..n]), moves[n], k);
    } else {
      assert moves[..i] == moves;
    }
  }

  // ---------------------------------------------------------------- notifications have their own version

  /** A delivery that claims a version holds that place in the log; a published action is that place's action. */
  ghost predicate Grounded(flap: Key -> Option<FlapConfig>, log: seq<Event>, d: Delivery) {
    && d.version <= |log|
    && (d.version > 0 ==> log[d.version - 1] == d.ev)
    && (Publishes(d.reply.action) ==>
          && d.version > 0
          && d.reply.action == Step(Play(flap(d.key), log[..d.version - 1]).edge, d.ev, flap(d.key)).action)
  }

  predicate SameKeyCommits(d: Delivery, d': Delivery) {
    d.key == d'.key && d.version > 0 && d'.version > 0
  }

  ghost predicate DeliveriesGrounded(flap: Key -> Option<FlapConfig>, s: System) {
    && (forall i :: 0 <= i < |s.done| ==> Grounded(flap, LogAt(s, s.done[i].key), s.done[i]))
    && (forall i, j :: 0 <= i < j < |s.done| && SameKeyCommits(s.done[i], s.done[j]) ==>
          s.done[i].version < s.done[j].version)
  }

  lemma {:induction false} GroundedGrows(
      flap: Key -> Option<FlapConfig>, log: seq<Event>, log': seq<Event>, d: Delivery)
    requires Grounded(flap, log, d) && log <= log'
    ensures Grounded(flap, log', d)
  {
    if d.version > 0 {
      assert log'[..d.version - 1] == log[..d.version - 1];
    }
  }

  lemma {:induction false} PublishNeedsCommit(d: Decision, c: CasOutcome)
    ensures Publishes(Answer(d, c).action) ==> d.Write? && c.Committed?
  {
  }

  /** The answer to the next event of a log is grounded in the longer log. */
  lemma {:induction false} NextGrounded(flap: Key -> Option<FlapConfig>, log: seq<Event>, d: Delivery)
    requires d.version == |log| + 1
    requires Publishes(d.reply.action) ==>
               d.reply == Answer(Decide(Play(flap(d.key), log).edge, d.ev, flap(d.key)), Committed)
    ensures Grounded(flap, log + [d.ev], d)
  {
    StepAnswers(Play(flap(d.key), log).edge, d.ev, flap(d.key));
    assert (log + [d.ev])[..|log|] == log;
  }

  /** A call whose write lands decided on the state that its log folds to. */
  lemma {:induction false} LandsOnFold(flap: Key -> Option<FlapConfig>, s: System, c: Call, io: Io)
    requires RowsFollowLogs(flap, s) && CallFollowsLog(flap, s, c) && Lands(flap, s, c, io)
    ensures Verdict(flap, c) == Decide(Play(flap(c.key), LogAt(s, c.key)).edge, c.ev, flap(c.key))
  {
    LandingExtendsFold(flap, s, c);
    assert Get(s.rows, c.key) == RowOf(flap(c.key), c.key.scope, LogAt(s, c.key));
    RowHoldsFold(flap(c.key), c.key.scope, LogAt(s, c.key));
  }

  lemma {:induction false} StepAnswers(e: Option<Edge>, ev: Event, f: Option<FlapConfig>)
    ensures Step(e, ev, f).action == Answer(Decide(e, ev, f), Committed).action
  {
  }

  /** Only a landed write with a delivered answer publishes, and it publishes what the fold would. */
  lemma {:induction false} AnswerGrounded(flap: Key -> Option<FlapConfig>, s: System, w: nat, io: Io)
    requires Inv(flap, s) && w in s.calls
    ensures var c := s.calls[w];
            var s' := Conclude(flap, s, w, c, io);
            && |s'.done| == |s.done| + 1
            && s'.done[|s.done|].key == c.key
            && (s'.done[|s.done|].version == 0 || s'.done[|s.done|].version == |LogAt(s, c.key)| + 1)
            && Grounded(flap, LogAt(s', c.key), s'.done[|s.done|])
  {
    var c := s.calls[w];
    var s' := Conclude(flap, s, w, c, io);
    var d := s'.done[|s.done|];
    var outcome := if !io.Clean? then Failed else if Lands(flap, s, c, io) then Committed else Refused;
    assert d.reply == Answer(Verdict(flap, c), outcome);
    PublishNeedsCommit(Verdict(flap, c), outcome);
    assert CallFollowsLog(flap, s, c);
    if Lands(flap, s, c, io) {
      LandsOnFold(flap, s, c, io);
      NextGrounded(flap, LogAt(s, c.key), d);
    }
  }

  lemma {:induction false} DoneKept(flap: Key -> Option<FlapConfig>, s: System, s': System)
    requires DeliveriesGrounded(flap, s) && s.done <= s'.done && |s'.done| <= |s.done| + 1
    requires forall k: Key :: LogAt(s, k) <= LogAt(s', k)
    requires |s'.done| == |s.done| + 1 ==>
               var d := s'.done[|s.done|];
               Grounded(flap, LogAt(s', d.key), d) && (d.version == 0 || d.version == |LogAt(s, d.key)| + 1)
    ensures DeliveriesGrounded(flap, s')
  {
    forall i | 0 <= i < |s'.done|
      ensures Grounded(flap, LogAt(s', s'.done[i].key), s'.done[i])
    {
      if i < |s.done| {
        GroundedGrows(flap, LogAt(s, s.done[i].key), LogAt(s', s.done[i].key), s.done[i]);
      }
    }
    forall i, j | 0 <= i < j < |s'.done| && SameKeyCommits(s'.done[i], s'.done[j])
      ensures s'.done[i].version < s'.done[j].version
    {
      assert Grounded(flap, LogAt(s, s.done[i].key), s.done[i]);
    }
  }

  lemma {:induction false} ExecGrounded(flap: Key -> Option<FlapConfig>, moves: seq<Move>)
    ensures DeliveriesGrounded(flap, Exec(flap, moves))
  {
    if moves != [] {
      var n := |moves| - 1;
      var s, m := Exec(flap, moves[..n]), moves[n];
      ExecGrounded(flap, moves[..n]);
      ExecInv(flap, moves[..n]);
      forall k: Key
        ensures LogAt(s, k) <= LogAt(Apply(flap, s, m), k)
      {
        ApplyExtendsLog(flap, s, m, k);
      }
      if m.Finish? && m.worker in s.calls {
        AnswerGrounded(flap, s, m.worker, m.io);
      }
      DoneKept(flap, s, Apply(flap, s, m));
    }
  }

  /**
   * In every interleaving, every published answer holds a version of its row, its event is the one
   * committed there, and it is the answer of the fold at that version.
   */
  lemma {:induction false} NotificationOwnsVersion(flap: Key -> Option<FlapConfig>, moves: seq<Move>, i: nat)
    requires i < |Exec(flap, moves).done| && Publishes(Exec(flap, moves).done[i].reply.action)
    ensures var s := Exec(flap, moves);
            var d := s.done[i];
            var log := LogAt(s, d.key);
            && 1 <= d.version <= |log|
            && log[d.version - 1] == d.ev
            && d.reply.action == Step(Play(flap(d.key), log[..d.version - 1]).edge, d.ev, flap(d.key)).action
  {
    ExecGrounded(flap, moves);
    var s := Exec(flap, moves);
    assert Grounded(flap, LogAt(s, s.done[i].key), s.done[i]);
  }

  /** In every interleaving, no two published answers on a key share a version, and later ones have later versions. */
  lemma {:induction false} NotificationsDistinct(flap: Key -> Option<FlapConfig>, moves: seq<Move>, i: nat, j: nat)
    requires i < j < |Exec(flap, moves).done|
    requires Publishes(Exec(flap, moves).done[i].reply.action) && Publishes(Exec(flap, moves).done[j].reply.action)
    requires Exec(flap, moves).done[i].key == Exec(flap, moves).done[j].key
    ensures Exec(flap, moves).done[i].version < Exec(flap, moves).done[j].version
  {
    ExecGrounded(flap, moves);
    NotificationOwnsVersion(flap, moves, i);
    NotificationOwnsVersion(flap, moves, j);
    var s := Exec(flap, moves);
    assert SameKeyCommits(s.done[i], s.done[j]);
  }

  // ---------------------------------------------------------------- every answer, whatever becomes of the write

  /** What becomes of a call's write when it concludes. */
  function Fate(flap: Key -> Option<FlapConfig>, s: System, c: Call, io: Io): CasOutcome {
    if !io.Clean? then Failed else if Lands(flap, s, c, io) then Committed else Refused
  }

  lemma {:induction false} ConcludeTold(flap: Key -> Option<FlapConfig>, s: System, w: nat, io: Io)
    requires Inv(flap, s) && w in s.calls
    ensures var c := s.calls[w];
            var reply := Answer(Verdict(flap, c), Fate(flap, s, c, io));
            && 0 <= Version(c.loaded) <= |LogAt(s, c.key)|
            && Conclude(flap, s, w, c, io).done[..|s.done|] == s.done
            && Told(reply.action, reply.err)
               == EventTold(flap(c.key), LogAt(s, c.key)[..Version(c.loaded)], c.ev, Fate(flap, s, c, io))
  {
    var c := s.calls[w];
    assert CallFollowsLog(flap, s, c);
    var past := LogAt(s, c.key)[..Version(c.loaded)];
    RowHoldsFold(flap(c.key), c.key.scope, past);
    AnswerReadsLog(flap(c.key), past, c.ev, Fate(flap, s, c, io));
  }

  /**
   * In every interleaving, a call that concludes, won, lost or failed, is told what the log it loaded
   * says, given the fate of its write; a failing load is told as an error and nothing else.
   */
  lemma {:induction false} AnswersReadLog(flap: Key -> Option<FlapConfig>, moves: seq<Move>, w: nat, io: Io)
    requires w in Exec(flap, moves).calls
    ensures var s := Exec(flap, moves);
            var c := s.calls[w];
            var s' := Exec(flap, moves + [Finish(w, io)]);
            && 0 <= Version(c.loaded) <= |LogAt(s, c.key)|
            && |s'.done| == |s.done| + 1 && s'.done[..|s.done|] == s.done
            && var d := s'.done[|s.done|];
               && d.worker == w && d.key == c.key && d.ev == c.ev
               && Told(d.reply.action, d.reply.err)
                  == EventTold(flap(c.key), LogAt(s, c.key)[..Version(c.loaded)], c.ev, Fate(flap, s, c, io))
  {
    ExecInv(flap, moves);
    ConcludeTold(flap, Exec(flap, moves), w, io);
    ExecAppends(flap, moves, Finish(w, io));
  }

  lemma {:induction false} ExecAppends(flap: Key -> Option<FlapConfig>, moves: seq<Move>, m: Move)
    ensures Exec(flap, moves + [m]) == Apply(flap, Exec(flap, moves), m)
  {
    assert (moves + [m])[..|moves|] == moves;
  }

  lemma {:induction false} FailedLoadTold(flap: Key -> Option<FlapConfig>, moves: seq<Move>, w: nat, k: Key, ev: Event)
    requires w !in Exec(flap, moves).calls
    ensures var s := Exec(flap, moves);
            var s' := Exec(flap, moves + [LoadFails(w, k, ev)]);
            && s'.rows == s.rows && s'.logs == s.logs && s'.calls == s.calls
            && s'.done == s.done + [Delivery(w, k, ev, Reply(NoOp, None, true), 0)]
  {
    ExecAppends(flap, moves, LoadFails(w, k, ev));
  }

  // ---------------------------------------------------------------- a refused write has a cause

  lemma {:induction false} CallStep(flap: Key -> Option<FlapConfig>, s: System, m: Move, w: nat)
    requires w in Apply(flap, s, m).calls
    ensures var c := Apply(flap, s, m).calls[w];
            if w in s.calls then c == s.calls[w]
            else m == Load(w, c.key, c.ev) && c.loaded == Get(s.rows, c.key) && c.since == s.time
  {
  }

  /** `w` has been in flight with call `c` since the step after its load. */
  ghost predicate InFlightSince(flap: Key -> Option<FlapConfig>, moves: seq<Move>, w: nat, c: Call) {
    forall i :: c.since < i <= |moves| ==>
      w in Exec(flap, moves[..i]).calls && Exec(flap, moves[..i]).calls[w] == c
  }

  lemma {:induction false} InFlightExtends(flap: Key -> Option<FlapConfig>, moves: seq<Move>, w: nat, c: Call)
    requires moves != [] && w in Exec(flap, moves).calls && Exec(flap, moves).calls[w] == c
    requires c.since == |moves| - 1 || InFlightSince(flap, moves[..|moves| - 1], w, c)
    ensures InFlightSince(flap, moves, w, c)
  {
    var init := moves[..|moves| - 1];
    forall i | c.since < i <= |moves|
      ensures w in Exec(flap, moves[..i]).calls && Exec(flap, moves[..i]).calls[w] == c
    {
      if i < |moves| {
        assert moves[..i] == init[..i];
      } else {
        assert moves[..i] == moves;
      }
    }
  }

  /** The call of `w` is what its load left, and it has been in flight ever since. */
  lemma {:induction false} CallSince(flap: Key -> Option<FlapConfig>, moves: seq<Move>, w: nat)
    requires w in Exec(flap, moves).calls
    ensures var c := Exec(flap, moves).calls[w];
            && c.since < |moves|
            && moves[c.since] == Load(w, c.key, c.ev)
            && c.loaded == Get(Exec(flap, moves[..c.since]).rows, c.key)
            && InFlightSince(flap, moves, w, c)
  {
    var n := |moves| - 1;
    var init := moves[..n];
    var c := Exec(flap, moves).calls[w];
    CallStep(flap, Exec(flap, init), moves[n], w);
    TimeIsLength(flap, init);
    if w in Exec(flap, init).calls {
      CallSince(flap, init, w);
      assert init[..c.since] == moves[..c.since];
    }
    InFlightExtends(flap, moves, w, c);
  }

  lemma {:induction false} TimeIsLength(flap: Key -> Option<FlapConfig>, moves: seq<Move>)
    ensures Exec(flap, moves).time == |moves|
  {
    if moves != [] {
      TimeIsLength(flap, moves[..|moves| - 1]);
    }
  }

  /** The `i`th step commits an event to `k`. */
  ghost predicate CommitsAt(flap: Key -> Option<FlapConfig>, moves: seq<Move>, i: nat, k: Key)
    requires i < |moves|
  {
    |LogAt(Exec(flap, moves[..i + 1]), k)| > |LogAt(Exec(flap, moves[..i]), k)|
  }

  lemma {:induction false} RiseHasStep(lens: seq<nat>, lo: nat, hi: nat) returns (i: nat)
    requires lo <= hi < |lens| && lens[lo] < lens[hi]
    ensures lo <= i < hi && lens[i] < lens[i + 1]
    decreases hi
  {
    i := hi - 1;
    if lens[hi - 1] >= lens[hi] {
      i := RiseHasStep(lens, lo, hi - 1);
    }
  }

  /** The length of the log of `k` after each number of steps. */
  function LogLengths(flap: Key -> Option<FlapConfig>, moves: seq<Move>, k: Key): (lens: seq<nat>)
    ensures |lens| == |moves| + 1
    ensures forall n :: 0 <= n <= |moves| ==> lens[n] == |LogAt(Exec(flap, moves[..n]), k)|
  {
    seq(|moves| + 1, n requires 0 <= n <= |moves| => |LogAt(Exec(flap, moves[..n]), k)|)
  }

  /** A log that is longer later grew at some step in between. */
  lemma {:induction false} GrowthHasStep(
      flap: Key -> Option<FlapConfig>, moves: seq<Move>, lo: nat, hi: nat, k: Key) returns (i: nat)
    requires lo <= hi <= |moves|
    requires |LogAt(Exec(flap, moves[..lo]), k)| < |LogAt(Exec(flap, moves[..hi]), k)|
    ensures lo <= i < hi && CommitsAt(flap, moves, i, k)
  {
    var lens := LogLengths(flap, moves, k);
    i := RiseHasStep(lens, lo, hi);
  }

  /** Only the finish of a call on a key commits to it. */
  lemma {:induction false} CommitterFinishes(flap: Key -> Option<FlapConfig>, moves: seq<Move>, i: nat, k: Key)
    requires i < |moves| && CommitsAt(flap, moves, i, k)
    ensures var s := Exec(flap, moves[..i]);
            && moves[i].Finish?
            && moves[i].worker in s.calls
            && s.calls[moves[i].worker].key == k
            && moves[i].worker !in Exec(flap, moves[..i + 1]).calls
  {
    assert moves[..i + 1][..i] == moves[..i];
  }

  /** A write is refused only if the log of its key has grown since the load. */
  lemma {:induction false} RefusedAfterGrowth(flap: Key -> Option<FlapConfig>, s: System, s0: System, c: Call)
    requires Inv(flap, s) && Inv(flap, s0) && CallFollowsLog(flap, s, c)
    requires c.loaded == Get(s0.rows, c.key) && LogAt(s0, c.key) <= LogAt(s, c.key)
    requires Verdict(flap, c).Write? && !Attempt(flap, s, c).ok
    ensures |LogAt(s0, c.key)| < |LogAt(s, c.key)|
  {
    LandingExtendsFold(flap, s, c);
    assert Get(s0.rows, c.key) == RowOf(flap(c.key), c.key.scope, LogAt(s0, c.key));
  }

  lemma {:induction false} RefusedSinceLoad(flap: Key -> Option<FlapConfig>, moves: seq<Move>, w: nat, since: nat)
    requires var s := Exec(flap, moves);
             w in s.calls && Verdict(flap, s.calls[w]).Write? && !Attempt(flap, s, s.calls[w]).ok
    requires var c := Exec(flap, moves).calls[w];
             since <= |moves| && c.loaded == Get(Exec(flap, moves[..since]).rows, c.key)
    ensures var k := Exec(flap, moves).calls[w].key;
            |LogAt(Exec(flap, moves[..since]), k)| < |LogAt(Exec(flap, moves), k)|
  {
    var s, s0 := Exec(flap, moves), Exec(flap, moves[..since]);
    ExecInv(flap, moves);
    ExecInv(flap, moves[..since]);
    LogsAppendOnly(flap, moves, since, s.calls[w].key);
    RefusedAfterGrowth(flap, s, s0, s.calls[w]);
  }

  /** The worker that commits at a step is not one that stays in flight over it. */
  lemma {:induction false} CommitterIsOther(
      flap: Key -> Option<FlapConfig>, moves: seq<Move>, i: nat, w: nat, c: Call)
    requires w in Exec(flap, moves).calls && c == Exec(flap, moves).calls[w]
    requires c.since <= i < |moves| && CommitsAt(flap, moves, i, c.key)
    ensures moves[i].Finish? && moves[i].worker != w
  {
    CallSince(flap, moves, w);
    CommitterFinishes(flap, moves, i, c.key);
    assert w in Exec(flap, moves[..i + 1]).calls;
  }

  lemma {:induction false} CallLoaded(flap: Key -> Option<FlapConfig>, moves: seq<Move>, w: nat)
    requires w in Exec(flap, moves).calls
    ensures var c := Exec(flap, moves).calls[w];
            && c.since < |moves|
            && moves[c.since].Load?
            && c.loaded == Get(Exec(flap, moves[..c.since]).rows, c.key)
  {
    CallSince(flap, moves, w);
  }

  lemma {:induction false} GrowthWindow(
      flap: Key -> Option<FlapConfig>, moves: seq<Move>, w: nat, c: Call) returns (i: nat)
    requires var s := Exec(flap, moves);
             w in s.calls && s.calls[w] == c && Verdict(flap, c).Write? && !Attempt(flap, s, c).ok
    requires c.since <= |moves| && c.loaded == Get(Exec(flap, moves[..c.since]).rows, c.key)
    ensures c.since <= i < |moves| && CommitsAt(flap, moves, i, c.key)
  {
    RefusedSinceLoad(flap, moves, w, c.since);
    assert moves[..|moves|] == moves;
    i := GrowthHasStep(flap, moves, c.since, |moves|, c.key);
  }

  lemma {:induction false} RefusalWindow(
      flap: Key -> Option<FlapConfig>, moves: seq<Move>, w: nat, c: Call) returns (i: nat)
    requires var s := Exec(flap, moves);
             w in s.calls && s.calls[w] == c && Verdict(flap, c).Write? && !Attempt(flap, s, c).ok
    requires c.since < |moves| && moves[c.since].Load?
    requires c.loaded == Get(Exec(flap, moves[..c.since]).rows, c.key)
    ensures c.since < i < |moves| && CommitsAt(flap, moves, i, c.key)
    ensures moves[i].Finish? && moves[i].worker != w
  {
    i := GrowthWindow(flap, moves, w, c);
    CommitterIsOther(flap, moves, i, w, c);
  }

  /**
   * A write is refused only if another worker committed to the same key between this worker's load
   * and its write.
   */
  lemma {:induction false} RefusalHasCause(flap: Key -> Option<FlapConfig>, moves: seq<Move>, w: nat) returns (i: nat)
    requires var s := Exec(flap, moves);
             w in s.calls && Verdict(flap, s.calls[w]).Write? && !Attempt(flap, s, s.calls[w]).ok
    ensures var c := Exec(flap, moves).calls[w];
            && c.since < i < |moves|
            && CommitsAt(flap, moves, i, c.key)
            && moves[i].Finish? && moves[i].worker != w
  {
    CallLoaded(flap, moves, w);
    i := RefusalWindow(flap, moves, w, Exec(flap, moves).calls[w]);
  }

  // ---------------------------------------------------------------- the flood bound, for any interleaving

  /** The published answers on a key. */
  function Notified(done: seq<Delivery>, k: Key): nat {
    if done == [] then 0
    else
      var d := done[|done| - 1];
      Notified(done[..|done| - 1], k) + (if d.key == k && Publishes(d.reply.action) then 1 else 0)
  }

  lemma {:induction false} NotifiedSnoc(done: seq<Delivery>, d: Delivery, k: Key)
    ensures Notified(done + [d], k) ==
              Notified(done, k) + (if d.key == k && Publishes(d.reply.action) then 1 else 0)
  {
    assert (done + [d])[..|done|] == done;
  }

  /** What the fold over the log of `k` publishes. */
  function FoldPublishes(flap: Key -> Option<FlapConfig>, s: System, k: Key): nat {
    Published(Play(flap(k), LogAt(s, k)).actions)
  }

  /** A write that lands adds to the fold's notifications what its committed answer publishes. */
  lemma {:induction false} LandingPublishes(flap: Key -> Option<FlapConfig>, s: System, c: Call, io: Io)
    requires RowsFollowLogs(flap, s) && CallFollowsLog(flap, s, c) && Lands(flap, s, c, io)
    ensures var f, log := flap(c.key), LogAt(s, c.key);
            Published(Play(f, log + [c.ev]).actions) == Published(Play(f, log).actions)
              + (if Publishes(Answer(Verdict(flap, c), Committed).action) then 1 else 0)
  {
    LandsOnFold(flap, s, c, io);
    EventPublishes(flap(c.key), LogAt(s, c.key), c.ev);
  }

  /** The step lands a write on `k` that publishes, and loses the answer. */
  predicate LosesPublication(flap: Key -> Option<FlapConfig>, s: System, m: Move, k: Key) {
    && m.Finish? && m.worker in s.calls && s.calls[m.worker].key == k && m.io.ReplyLost?
    && Lands(flap, s, s.calls[m.worker], m.io)
    && Publishes(Answer(Verdict(flap, s.calls[m.worker]), Committed).action)
  }

  /** The publications on `k` that were committed but whose answers were lost. */
  function LostPublications(flap: Key -> Option<FlapConfig>, moves: seq<Move>, k: Key): nat {
    if moves == [] then 0
    else
      var n := |moves| - 1;
      LostPublications(flap, moves[..n], k)
      + (if LosesPublication(flap, Exec(flap, moves[..n]), moves[n], k) then 1 else 0)
  }

  lemma {:induction false} ConcludeLogs(flap: Key -> Option<FlapConfig>, s: System, w: nat, io: Io, k: Key)
    requires w in s.calls
    ensures LogAt(Conclude(flap, s, w, s.calls[w], io), k) == LogAt(s, k)
              + (if s.calls[w].key == k && Lands(flap, s, s.calls[w], io) then [s.calls[w].ev] else [])
  {
  }

  lemma {:induction false} LogPublishes(
      flap: Key -> Option<FlapConfig>, s: System, c: Call, io: Io, k: Key, log': seq<Event>)
    requires RowsFollowLogs(flap, s) && CallFollowsLog(flap, s, c)
    requires log' == LogAt(s, k) + (if c.key == k && Lands(flap, s, c, io) then [c.ev] else [])
    ensures var published := Lands(flap, s, c, io) && Publishes(Answer(Verdict(flap, c), Committed).action);
            Published(Play(flap(k), log').actions)
            == Published(Play(flap(k), LogAt(s, k)).actions) + (if c.key == k && published then 1 else 0)
  {
    if c.key == k && Lands(flap, s, c, io) {
      LandingPublishes(flap, s, c, io);
    } else {
      assert log' == LogAt(s, k);
    }
  }

  lemma {:induction false} ConcludePublishes(flap: Key -> Option<FlapConfig>, s: System, w: nat, io: Io, k: Key)
    requires Inv(flap, s) && w in s.calls
    ensures var c := s.calls[w];
            var published := Lands(flap, s, c, io) && Publishes(Answer(Verdict(flap, c), Committed).action);
            FoldPublishes(flap, Conclude(flap, s, w, c, io), k)
            == FoldPublishes(flap, s, k) + (if c.key == k && published then 1 else 0)
  {
    assert CallFollowsLog(flap, s, s.calls[w]);
    ConcludeLogs(flap, s, w, io, k);
    LogPublishes(flap, s, s.calls[w], io, k, LogAt(Conclude(flap, s, w, s.calls[w], io), k));
  }

  /** What one concluded call adds to the fold's notifications: its own publication, answered or lost. */
  lemma {:induction false} ConcludeNotifies(flap: Key -> Option<FlapConfig>, s: System, w: nat, io: Io, k: Key)
    requires Inv(flap, s) && w in s.calls
    ensures var s' := Conclude(flap, s, w, s.calls[w], io);
            FoldPublishes(flap, s', k) - FoldPublishes(flap, s, k)
            == Notified(s'.done, k) - Notified(s.done, k)
               + (if LosesPublication(flap, s, Finish(w, io), k) then 1 else 0)
  {
    ConcludeAnswers(flap, s, w, io, k);
    ConcludePublishes(flap, s, w, io, k);
  }

  /** Concluding a call adds one published answer exactly when its landed write publishes and is reported. */
  lemma {:induction false} ConcludeAnswers(flap: Key -> Option<FlapConfig>, s: System, w: nat, io: Io, k: Key)
    requires w in s.calls
    ensures var c := s.calls[w];
            var published := Lands(flap, s, c, io) && Publishes(Answer(Verdict(flap, c), Committed).action);
            Notified(Conclude(flap, s, w, c, io).done, k)
            == Notified(s.done, k) + (if c.key == k && io.Clean? && published then 1 else 0)
  {
    var c := s.calls[w];
    var s' := Conclude(flap, s, w, c, io);
    var d := s'.done[|s.done|];
    var outcome := if !io.Clean? then Failed else if Lands(flap, s, c, io) then Committed else Refused;
    assert s'.done == s.done + [d] && d.reply == Answer(Verdict(flap, c), outcome);
    NotifiedSnoc(s.done, d, k);
    PublishNeedsCommit(Verdict(flap, c), outcome);
  }

  /** Steps other than a finish commit nothing and publish nothing. */
  lemma {:induction false} OtherStepQuiet(flap: Key -> Option<FlapConfig>, s: System, m: Move, k: Key)
    requires !(m.Finish? && m.worker in s.calls)
    ensures var s' := Apply(flap, s, m);
            LogAt(s', k) == LogAt(s, k) && Notified(s'.done, k) == Notified(s.done, k)
  {
    if m.LoadFails? && m.worker !in s.calls {
      NotifiedSnoc(s.done, Delivery(m.worker, m.key, m.ev, Reply(NoOp, None, true), 0), k);
    }
  }

  lemma {:induction false} ApplyNotifies(flap: Key -> Option<FlapConfig>, s: System, m: Move, k: Key)
    requires Inv(flap, s)
    ensures var s' := Apply(flap, s, m);
            FoldPublishes(flap, s', k) - FoldPublishes(flap, s, k)
            == Notified(s'.done, k) - Notified(s.done, k) + (if LosesPublication(flap, s, m, k) then 1 else 0)
  {
    if m.Finish? && m.worker in s.calls {
      ConcludeNotifies(flap, s, m.worker, m.io, k);
    } else {
      OtherStepQuiet(flap, s, m, k);
    }
  }

  /**
   * In every interleaving, the published answers on a key and the committed publications whose answers
   * were lost are together exactly what the fold of its committed events publishes.
   */
  lemma {:induction false} NotificationsConserved(flap: Key -> Option<FlapConfig>, moves: seq<Move>, k: Key)
    ensures Notified(Exec(flap, moves).done, k) + LostPublications(flap, moves, k)
         == FoldPublishes(flap, Exec(flap, moves), k)
  {
    if moves != [] {
      var n := |moves| - 1;
      NotificationsConserved(flap, moves[..n], k);
      ExecInv(flap, moves[..n]);
      ApplyNotifies(flap, Exec(flap, moves[..n]), moves[n], k);
    }
  }

  /** The clock readings of the calls on `k` lie between `lo` and `hi`. */
  ghost predicate LoadsWithin(moves: seq<Move>, k: Key, lo: int, hi: int) {
    forall i :: 0 <= i < |moves| && moves[i].Load? && moves[i].key == k ==> lo <= moves[i].ev.now <= hi
  }

  lemma {:induction false} ApplyWithin(
      flap: Key -> Option<FlapConfig>, s: System, m: Move, k: Key, lo: int, hi: int)
    requires Within(LogAt(s, k), lo, hi)
    requires forall w :: w in s.calls && s.calls[w].key == k ==> lo <= s.calls[w].ev.now <= hi
    requires m.Load? && m.key == k ==> lo <= m.ev.now <= hi
    ensures var s' := Apply(flap, s, m);
            && Within(LogAt(s', k), lo, hi)
            && (forall w :: w in s'.calls && s'.calls[w].key == k ==> lo <= s'.calls[w].ev.now <= hi)
  {
  }

  lemma {:induction false} LogWithin(flap: Key -> Option<FlapConfig>, moves: seq<Move>, k: Key, lo: int, hi: int)
    requires LoadsWithin(moves, k, lo, hi)
    ensures var s := Exec(flap, moves);
            && Within(LogAt(s, k), lo, hi)
            && (forall w :: w in s.calls && s.calls[w].key == k ==> lo <= s.calls[w].ev.now <= hi)
  {
    if moves != [] {
      var n := |moves| - 1;
      LogWithin(flap, moves[..n], k, lo, hi);
      ApplyWithin(flap, Exec(flap, moves[..n]), moves[n], k, lo, hi);
    }
  }

  /**
   * However many events and workers there are and however they interleave, calls on one key whose
   * clock readings span `hi - lo` seconds publish no more often than the span allows.
   */
  lemma {:induction false} InterleavedFloodBound(
      flap: Key -> Option<FlapConfig>, moves: seq<Move>, k: Key, f: FlapConfig, lo: int, hi: int)
    requires flap(k) == Some(f) && Curbed(f) && lo <= hi && LoadsWithin(moves, k, lo, hi)
    ensures Notified(Exec(flap, moves).done, k)
            <= FloodCap(f, hi - lo)
  {
    NotificationsConserved(flap, moves, k);
    LogWithin(flap, moves, k, lo, hi);
    FloodBound(f, LogAt(Exec(flap, moves), k), lo, hi);
  }

  // ---------------------------------------------------------------- what every reachable row satisfies

  /** In every interleaving the buffer of every row is a chained suffix of the flips committed to its key. */
  lemma {:induction false} InterleavedBuffer(flap: Key -> Option<FlapConfig>, moves: seq<Move>, k: Key)
    requires k in Exec(flap, moves).rows
    ensures var s := Exec(flap, moves);
            var e := s.rows[k].edge;
            var log := Flips(LogAt(s, k));
            && |e.recent| <= HARD_LIMIT_RECENT_ITEMS && |e.recent| <= |log|
            && e.recent == log[|log| - |e.recent|..]
            && Chained(e.recent)
            && (e.recent != [] ==> e.recent[|e.recent| - 1].to == e.lastValue)
  {
    Linearizable(flap, moves, k);
    var log := LogAt(Exec(flap, moves), k);
    ReachableChain(flap(k), log);
    BufferIsSuffix(flap(k), log);
  }

  /** When the committed clock readings of a key do not go backwards, its row accounts for its window. */
  lemma {:induction false} InterleavedWindow(
      flap: Key -> Option<FlapConfig>, moves: seq<Move>, k: Key, f: FlapConfig)
    requires k in Exec(flap, moves).rows && flap(k) == Some(f) && f.windowSeconds > 0
    requires Ordered(LogAt(Exec(flap, moves), k))
    ensures var s := Exec(flap, moves);
            var e := s.rows[k].edge;
            && e.flipCount == CountSince(Flips(LogAt(s, k)), e.windowStart)
            && e.windowStart <= e.lastChangeTS <= e.windowStart + f.windowSeconds
            && (forall i :: 0 <= i < |e.recent| ==>
                  e.windowStart <= e.recent[i].at <= e.windowStart + f.windowSeconds)
            && |e.recent| <= Min(e.flipCount, HARD_LIMIT_RECENT_ITEMS)
  {
    Linearizable(flap, moves, k);
    WindowAccounting(f, LogAt(Exec(flap, moves), k));
  }

  // ---------------------------------------------------------------- calls that do not overlap

  /**
   * A step that neither lets two calls on `k` overlap nor lets one of them fail or be abandoned. What
   * happens on other keys is unrestricted.
   */
  ghost predicate SerialStep(s: System, m: Move, k: Key) {
    match m
    case Load(w, k', _) => w !in s.calls && k' == k ==> forall v :: v in s.calls ==> s.calls[v].key != k
    case LoadFails(w, k', _) => w !in s.calls ==> k' != k
    case Finish(w, io) => w in s.calls && s.calls[w].key == k ==> io.Clean?
    case Abandon(w) => w in s.calls ==> s.calls[w].key != k
  }

  ghost predicate SerialOn(flap: Key -> Option<FlapConfig>, moves: seq<Move>, k: Key) {
    moves != [] ==>
      && SerialOn(flap, moves[..|moves| - 1], k)
      && SerialStep(Exec(flap, moves[..|moves| - 1]), moves[|moves| - 1], k)
  }

  /** The events of the calls on `k` that were accepted, in the order of their loads. */
  function EventsOn(flap: Key -> Option<FlapConfig>, moves: seq<Move>, k: Key): seq<Event> {
    if moves == [] then []
    else
      var n := |moves| - 1;
      var m := moves[n];
      EventsOn(flap, moves[..n], k)
      + (if m.Load? && m.key == k && m.worker !in Exec(flap, moves[..n]).calls then [m.ev] else [])
  }

  /** The answers given on `k`. */
  function AnswersOn(done: seq<Delivery>, k: Key): seq<Action> {
    if done == [] then []
    else
      var d := done[|done| - 1];
      AnswersOn(done[..|done| - 1], k) + (if d.key == k then [d.reply.action] else [])
  }

  lemma {:induction false} AnswersSnoc(done: seq<Delivery>, d: Delivery, k: Key)
    ensures AnswersOn(done + [d], k) == AnswersOn(done, k) + (if d.key == k then [d.reply.action] else [])
  {
    assert (done + [d])[..|done|] == done;
  }

  lemma {:induction false} FreshLoadLands(flap: Key -> Option<FlapConfig>, s: System, c: Call)
    requires Inv(flap, s) && c.loaded == Get(s.rows, c.key)
    ensures Verdict(flap, c) == Decide(Play(flap(c.key), LogAt(s, c.key)).edge, c.ev, flap(c.key))
    ensures Lands(flap, s, c, Clean) <==> Verdict(flap, c).Write?
  {
    assert Get(s.rows, c.key) == RowOf(flap(c.key), c.key.scope, LogAt(s, c.key));
    RowHoldsFold(flap(c.key), c.key.scope, LogAt(s, c.key));
    LoadFollowsLog(flap, s, c);
    if Verdict(flap, c).Write? {
      LandingExtendsFold(flap, s, c);
    }
  }

  /** A call whose row has not moved since its load commits exactly when it decides to write. */
  lemma {:induction false} UnracedCall(flap: Key -> Option<FlapConfig>, s: System, w: nat)
    requires Inv(flap, s) && w in s.calls && s.calls[w].loaded == Get(s.rows, s.calls[w].key)
    ensures var c := s.calls[w];
            var s' := Conclude(flap, s, w, c, Clean);
            var d := Decide(Play(flap(c.key), LogAt(s, c.key)).edge, c.ev, flap(c.key));
            && LogAt(s', c.key) == (if d.Write? then LogAt(s, c.key) + [c.ev] else LogAt(s, c.key))
            && |s'.done| == |s.done| + 1 && s'.done[..|s.done|] == s.done
            && s'.done[|s.done|].key == c.key
            && s'.done[|s.done|].reply == Answer(d, Committed)
  {
    FreshLoadLands(flap, s, s.calls[w]);
  }

  predicate OnKey(s: System, v: nat, k: Key) {
    v in s.calls && s.calls[v].key == k
  }

  /**
   * The state of `k` in a run that is serial on it: `answered` are the events of its finished calls,
   * `pending` that of the one in flight.
   */
  ghost predicate SerialState(
      flap: Key -> Option<FlapConfig>, s: System, k: Key, answered: seq<Event>, pending: Option<Event>)
  {
    && (forall v :: OnKey(s, v, k) ==> pending == Some(s.calls[v].ev) && s.calls[v].loaded == Get(s.rows, k))
    && (forall v, w :: OnKey(s, v, k) && OnKey(s, w, k) ==> v == w)
    && (pending.Some? ==> exists v :: OnKey(s, v, k))
    && LogAt(s, k) == Destutter(answered)
    && AnswersOn(s.done, k) == Play(flap(k), answered).actions
  }

  /** A step that leaves the calls, the row, the log and the answers of `k` alone. */
  ghost predicate SameOn(s: System, s': System, k: Key) {
    && (forall v :: OnKey(s, v, k) <==> OnKey(s', v, k))
    && (forall v :: OnKey(s, v, k) ==> s'.calls[v] == s.calls[v])
    && Get(s'.rows, k) == Get(s.rows, k)
    && LogAt(s', k) == LogAt(s, k)
    && AnswersOn(s'.done, k) == AnswersOn(s.done, k)
  }

  lemma {:induction false} SameKeepsSerial(
      flap: Key -> Option<FlapConfig>, s: System, s': System, k: Key, answered: seq<Event>, pending: Option<Event>)
    requires SerialState(flap, s, k, answered, pending) && SameOn(s, s', k)
    ensures SerialState(flap, s', k, answered, pending)
  {
    if pending.Some? {
      var v :| OnKey(s, v, k);
      assert OnKey(s', v, k);
    }
  }

  /** An accepted load on `k`, or the finish of a call on it. */
  predicate Touches(s: System, m: Move, k: Key) {
    (m.Load? && m.key == k && m.worker !in s.calls) || (m.Finish? && OnKey(s, m.worker, k))
  }

  lemma {:induction false} QuietElsewhere(flap: Key -> Option<FlapConfig>, s: System, m: Move, k: Key)
    requires SerialStep(s, m, k) && !Touches(s, m, k) && !(m.Finish? && m.worker in s.calls)
    ensures SameOn(s, Apply(flap, s, m), k)
  {
    if m.LoadFails? && m.worker !in s.calls {
      AnswersSnoc(s.done, Delivery(m.worker, m.key, m.ev, Reply(NoOp, None, true), 0), k);
    }
  }

  lemma {:induction false} ElsewhereSame(flap: Key -> Option<FlapConfig>, s: System, m: Move, k: Key)
    requires SerialStep(s, m, k) && !Touches(s, m, k)
    ensures SameOn(s, Apply(flap, s, m), k)
  {
    var s' := Apply(flap, s, m);
    if m.Finish? && m.worker in s.calls {
      FinishElsewhere(flap, s, m.worker, m.io, k);
      assert s'.calls == Conclude(flap, s, m.worker, s.calls[m.worker], m.io).calls;
    } else {
      QuietElsewhere(flap, s, m, k);
    }
  }

  lemma {:induction false} FinishElsewhere(flap: Key -> Option<FlapConfig>, s: System, w: nat, io: Io, k: Key)
    requires w in s.calls && s.calls[w].key != k
    ensures SameOn(s, Conclude(flap, s, w, s.calls[w], io), k)
  {
    var s' := Conclude(flap, s, w, s.calls[w], io);
    assert s'.done == s.done + [s'.done[|s.done|]];
    AnswersSnoc(s.done, s'.done[|s.done|], k);
  }

  lemma {:induction false} LoadKeepsSerial(
      flap: Key -> Option<FlapConfig>, s: System, m: Move, k: Key, answered: seq<Event>, pending: Option<Event>)
    requires SerialState(flap, s, k, answered, pending) && SerialStep(s, m, k)
    requires m.Load? && m.key == k && m.worker !in s.calls
    ensures pending == None && SerialState(flap, Apply(flap, s, m), k, answered, Some(m.ev))
  {
    assert forall v :: !OnKey(s, v, k);
    assert OnKey(Apply(flap, s, m), m.worker, k);
  }

  /** Committing a flip, and only a flip, keeps the log destuttered and the answers those of the run. */
  lemma {:induction false} FlipExtends(f: Option<FlapConfig>, answered: seq<Event>, ev: Event)
    ensures var d := Decide(Play(f, Destutter(answered)).edge, ev, f);
            && Destutter(answered + [ev]) == (if d.Write? then Destutter(answered) + [ev] else Destutter(answered))
            && Play(f, answered + [ev]).actions == Play(f, answered).actions + [Answer(d, Committed).action]
  {
    DestutterSameEdge(f, answered);
    PlayExtend(f, answered, ev);
    StepAnswers(Play(f, answered).edge, ev, f);
    DestutterExtend(f, answered, ev);
  }

  lemma {:induction false} LastCallLeaves(flap: Key -> Option<FlapConfig>, s: System, w: nat, k: Key)
    requires OnKey(s, w, k) && forall v :: OnKey(s, v, k) ==> v == w
    ensures forall v :: !OnKey(Conclude(flap, s, w, s.calls[w], Clean), v, k)
  {
    var s' := Conclude(flap, s, w, s.calls[w], Clean);
    assert s'.calls == s.calls - {w};
    forall v
      ensures !OnKey(s', v, k)
    {
      assert OnKey(s', v, k) ==> OnKey(s, v, k);
    }
  }

  lemma {:induction false} FinishKeepsSerial(
      flap: Key -> Option<FlapConfig>, s: System, w: nat, k: Key, answered: seq<Event>, pending: Option<Event>)
    requires Inv(flap, s) && SerialState(flap, s, k, answered, pending) && OnKey(s, w, k)
    ensures pending == Some(s.calls[w].ev)
    ensures SerialState(flap, Conclude(flap, s, w, s.calls[w], Clean), k, answered + [s.calls[w].ev], None)
  {
    var s' := Conclude(flap, s, w, s.calls[w], Clean);
    assert OnKey(s, w, k);
    LastCallLeaves(flap, s, w, k);
    UnracedCall(flap, s, w);
    var d := s'.done[|s.done|];
    assert s'.done == s.done + [d];
    AnswersSnoc(s.done, d, k);
    FlipExtends(flap(k), answered, s.calls[w].ev);
  }

  lemma {:induction false} DestutterSameEdge(f: Option<FlapConfig>, evs: seq<Event>)
    ensures Play(f, Destutter(evs)).edge == Play(f, evs).edge
  {
    DestutterPreserves(f, evs);
  }

  lemma {:induction false} DestutterExtend(f: Option<FlapConfig>, evs: seq<Event>, ev: Event)
    ensures Destutter(evs + [ev]) ==
              if Decide(Play(f, evs).edge, ev, f).Write? then Destutter(evs) + [ev] else Destutter(evs)
  {
    if evs != [] {
      DestutterSnoc(evs, ev);
      LastValueTracked(f, evs);
    }
  }

  function PendingEvents(pending: Option<Event>): seq<Event> {
    if pending.Some? then [pending.value] else []
  }

  /**
   * When calls on a key do not overlap and none of them fails, every flip is committed, on the
   * suppressed path too, whatever happens on other keys: the log of the key is its destuttered input, its
   * answers are those of the unraced run, and no accepted call is left out of either.
   */
  lemma {:induction false} SerialCommitsEveryFlip(flap: Key -> Option<FlapConfig>, moves: seq<Move>, k: Key)
    returns (answered: seq<Event>, pending: Option<Event>)
    requires SerialOn(flap, moves, k)
    ensures EventsOn(flap, moves, k) == answered + PendingEvents(pending)
    ensures var s := Exec(flap, moves);
            && (pending.Some? <==> exists v :: OnKey(s, v, k))
            && LogAt(s, k) == Destutter(answered)
            && AnswersOn(s.done, k) == Play(flap(k), answered).actions
  {
    answered, pending := SerialRun(flap, moves, k);
  }

  lemma {:induction false} SerialRun(flap: Key -> Option<FlapConfig>, moves: seq<Move>, k: Key)
    returns (answered: seq<Event>, pending: Option<Event>)
    requires SerialOn(flap, moves, k)
    ensures EventsOn(flap, moves, k) == answered + PendingEvents(pending)
    ensures SerialState(flap, Exec(flap, moves), k, answered, pending)
  {
    answered, pending := [], None;
    if moves != [] {
      var n := |moves| - 1;
      answered, pending := SerialRun(flap, moves[..n], k);
      ExecInv(flap, moves[..n]);
      answered, pending := SerialApply(flap, Exec(flap, moves[..n]), moves[n], k, answered, pending);
    }
  }

  lemma {:induction false} SerialFinish(
      flap: Key -> Option<FlapConfig>, s: System, w: nat, k: Key, answered: seq<Event>, pending: Option<Event>)
    requires Inv(flap, s) && SerialState(flap, s, k, answered, pending) && OnKey(s, w, k)
    ensures pending == Some(s.calls[w].ev)
    ensures SerialState(flap, Apply(flap, s, Finish(w, Clean)), k, answered + [s.calls[w].ev], None)
  {
    FinishKeepsSerial(flap, s, w, k, answered, pending);
    SameKeepsSerial(flap, Conclude(flap, s, w, s.calls[w], Clean), Apply(flap, s, Finish(w, Clean)), k,
                    answered + [s.calls[w].ev], None);
  }

  lemma {:induction false} SerialApply(
      flap: Key -> Option<FlapConfig>, s: System, m: Move, k: Key, answered: seq<Event>, pending: Option<Event>)
    returns (answered': seq<Event>, pending': Option<Event>)
    requires Inv(flap, s) && SerialState(flap, s, k, answered, pending) && SerialStep(s, m, k)
    ensures SerialState(flap, Apply(flap, s, m), k, answered', pending')
    ensures answered' + PendingEvents(pending') == answered + PendingEvents(pending)
              + (if m.Load? && m.key == k && m.worker !in s.calls then [m.ev] else [])
  {
    answered', pending' := answered, pending;
    if !Touches(s, m, k) {
      ElsewhereSame(flap, s, m, k);
      SameKeepsSerial(flap, s, Apply(flap, s, m), k, answered, pending);
    } else if m.Load? {
      LoadKeepsSerial(flap, s, m, k, answered, pending);
      pending' := Some(m.ev);
    } else {
      SerialFinish(flap, s, m.worker, k, answered, pending);
      answered', pending' := answered + [s.calls[m.worker].ev], None;
    }
  }
}
