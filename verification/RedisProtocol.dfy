/**
 * Evaluation calls interleaving on one Redis row. Unlike DynamoDB's conditional write, a write here is
 * a version check followed by a separate set, and the first write of a row is not checked at all.
 */
module RedisProtocol {
  import opened Types
  import opened EdgeFlap
  import opened EdgeRuns
  import opened Rows
  import C = CasProtocol

  /**
   * A call in flight. `seen` is the number of sets on the row when the call last looked at it: at its
   * version check, or at its load.
   */
  datatype Call = Call(ev: Event, loaded: Option<Row>, checked: bool, seen: nat)

  /** A call that has returned; `position` is the place of its set in the log, or 0. */
  datatype Returned = Returned(worker: nat, ev: Event, reply: Reply, position: nat)

  /** `log` records the events whose sets took effect, in order. */
  datatype State = State(row: Option<Row>, calls: map<nat, Call>, log: seq<Event>, done: seq<Returned>)

  datatype Move =
    | Load(worker: nat, ev: Event)
    | Check(worker: nat)
    | Set(worker: nat, io: Io)
    | Abandon(worker: nat)

  const FRESH := State(None, map[], [], [])

  function Verdict(f: Option<FlapConfig>, c: Call): Decision {
    Decide(EdgeOf(c.loaded), c.ev, f)
  }

  function Return(s: State, worker: nat, ev: Event, reply: Reply, position: nat): State {
    s.(calls := s.calls - {worker}, done := s.done + [Returned(worker, ev, reply, position)])
  }

  /** True when the worker's next command is the set: its check has passed, or it skips the check. */
  predicate ReadyToSet(f: Option<FlapConfig>, s: State, worker: nat) {
    && worker in s.calls
    && Verdict(f, s.calls[worker]).Write?
    && (s.calls[worker].checked || Version(s.calls[worker].loaded) == 0)
  }

  /** The set stores the version after the loaded one, whatever the row holds by now. */
  function SetRow(f: Option<FlapConfig>, scope: string, s: State, worker: nat, io: Io): State
    requires ReadyToSet(f, s, worker)
  {
    var c := s.calls[worker];
    var d := Verdict(f, c);
    var reply := Answer(d, if io.Clean? then Committed else Failed);
    if io.RequestLost? then Return(s, worker, c.ev, reply, 0)
    else
      Return(s, worker, c.ev, reply, |s.log| + 1).(
        row := Some(Row(scope, d.next, Version(c.loaded) + 1)), log := s.log + [c.ev])
  }

  function Apply(f: Option<FlapConfig>, scope: string, s: State, m: Move): State {
    match m
    case Load(w, ev) =>
      var c := Call(ev, s.row, false, |s.log|);
      if w in s.calls then s
      else if Verdict(f, c).Stable? then Return(s, w, ev, Answer(Stable, Committed), 0)
      else s.(calls := s.calls[w := c])
    case Check(w) =>
      if w !in s.calls || s.calls[w].checked || Version(s.calls[w].loaded) == 0 then s
      else if Version(s.row) == Version(s.calls[w].loaded) then
        s.(calls := s.calls[w := s.calls[w].(checked := true, seen := |s.log|)])
      else Return(s, w, s.calls[w].ev, Answer(Verdict(f, s.calls[w]), Refused), 0)
    case Set(w, io) => if ReadyToSet(f, s, w) then SetRow(f, scope, s, w, io) else s
    case Abandon(w) => s.(calls := s.calls - {w})
  }

  function Exec(f: Option<FlapConfig>, scope: string, moves: seq<Move>): State {
    if moves == [] then FRESH
    else Apply(f, scope, Exec(f, scope, moves[..|moves| - 1]), moves[|moves| - 1])
  }

  /** A step is clean unless it sets a row that was set since the worker last looked at it. */
  predicate CleanStep(f: Option<FlapConfig>, s: State, m: Move) {
    m.Set? && ReadyToSet(f, s, m.worker) && !m.io.RequestLost? ==> s.calls[m.worker].seen == |s.log|
  }

  predicate CleanRun(f: Option<FlapConfig>, scope: string, moves: seq<Move>) {
    moves != [] ==>
      && CleanRun(f, scope, moves[..|moves| - 1])
      && CleanStep(f, Exec(f, scope, moves[..|moves| - 1]), moves[|moves| - 1])
  }

  // ---------------------------------------------------------------- versions count clean sets only

  /** No call holds a version above the sets it saw; after an unclean set every call is behind. */
  predicate CallBehind(s: State, clean: bool, c: Call) {
    && 0 <= Version(c.loaded) <= c.seen <= |s.log|
    && (!clean ==> Version(c.loaded) < |s.log|)
  }

  ghost predicate Behind(s: State, clean: bool) {
    && 0 <= Version(s.row) <= |s.log|
    && (clean <==> Version(s.row) == |s.log|)
    && forall w :: w in s.calls ==> CallBehind(s, clean, s.calls[w])
  }

  /** Once the version falls behind the number of sets it never catches up. */
  lemma {:induction false} StepStaysBehind(
    f: Option<FlapConfig>, scope: string, s: State, clean: bool, m: Move)
    requires Behind(s, clean)
    requires clean && CleanStep(f, s, m) ==> CleanSetIsCurrent(f, s, m)
    ensures Behind(Apply(f, scope, s, m), clean && CleanStep(f, s, m))
  {
    var s', clean' := Apply(f, scope, s, m), clean && CleanStep(f, s, m);
    if m.worker in s.calls {
      assert CallBehind(s, clean, s.calls[m.worker]);
    }
    forall w | w in s'.calls
      ensures CallBehind(s', clean', s'.calls[w])
    {
      if w in s.calls {
        assert CallBehind(s, clean, s.calls[w]);
      }
    }
  }

  /** A call that sets cleanly loaded the version the row still has. */
  predicate CleanSetIsCurrent(f: Option<FlapConfig>, s: State, m: Move) {
    m.Set? && ReadyToSet(f, s, m.worker) && !m.io.RequestLost? ==>
      Version(s.calls[m.worker].loaded) == Version(s.row)
  }

  // ---------------------------------------------------------------- clean runs are linearizable

  /** A call holds the row of the prefix it loaded; what it saw since tells how far that prefix reached. */
  ghost predicate CallFolds(f: Option<FlapConfig>, scope: string, s: State, c: Call) {
    && 0 <= Version(c.loaded) <= c.seen <= |s.log|
    && c.loaded == C.RowOf(f, scope, s.log[..Version(c.loaded)])
    && (c.checked || Version(c.loaded) == 0 ==> c.seen == Version(c.loaded))
  }

  ghost predicate Folds(f: Option<FlapConfig>, scope: string, s: State) {
    && s.row == C.RowOf(f, scope, s.log)
    && forall w :: w in s.calls ==> CallFolds(f, scope, s, s.calls[w])
  }

  lemma {:induction false} CleanSetFolds(f: Option<FlapConfig>, scope: string, s: State, c: Call)
    requires CallFolds(f, scope, s, c) && Verdict(f, c).Write? && Version(c.loaded) == |s.log|
    ensures Some(Row(scope, Verdict(f, c).next, Version(c.loaded) + 1))
         == C.RowOf(f, scope, s.log + [c.ev])
  {
    assert s.log[..|s.log|] == s.log;
    C.RowHoldsFold(f, scope, s.log);
    C.RowOfSnoc(f, scope, s.log, c.ev);
  }

  lemma {:induction false} SetFolds(f: Option<FlapConfig>, scope: string, s: State, w: nat, io: Io)
    requires Folds(f, scope, s) && ReadyToSet(f, s, w) && !io.RequestLost?
    requires s.calls[w].seen == |s.log|
    ensures Version(s.calls[w].loaded) == Version(s.row)
    ensures Folds(f, scope, SetRow(f, scope, s, w, io))
  {
    var s' := SetRow(f, scope, s, w, io);
    assert CallFolds(f, scope, s, s.calls[w]);
    CleanSetFolds(f, scope, s, s.calls[w]);
    forall v | v in s'.calls
      ensures CallFolds(f, scope, s', s'.calls[v])
    {
      var c := s.calls[v];
      assert CallFolds(f, scope, s, c);
      assert s'.log[..Version(c.loaded)] == s.log[..Version(c.loaded)];
    }
  }

  /** A load takes the row of the whole log; a check that passes finds that row still there. */
  lemma {:induction false} LookFolds(f: Option<FlapConfig>, scope: string, s: State, ev: Event, c: Call)
    requires Folds(f, scope, s)
    ensures CallFolds(f, scope, s, Call(ev, s.row, false, |s.log|))
    ensures CallFolds(f, scope, s, c) && Version(s.row) == Version(c.loaded) ==>
              CallFolds(f, scope, s, c.(checked := true, seen := |s.log|))
  {
    assert s.log[..|s.log|] == s.log;
  }

  lemma {:induction false} CleanStepFolds(f: Option<FlapConfig>, scope: string, s: State, m: Move)
    requires Folds(f, scope, s) && CleanStep(f, s, m)
    ensures CleanSetIsCurrent(f, s, m)
    ensures Folds(f, scope, Apply(f, scope, s, m))
  {
    if m.Set? && ReadyToSet(f, s, m.worker) && !m.io.RequestLost? {
      SetFolds(f, scope, s, m.worker, m.io);
    } else {
      var s' := Apply(f, scope, s, m);
      forall v | v in s'.calls
        ensures CallFolds(f, scope, s', s'.calls[v])
      {
        if v in s.calls {
          assert CallFolds(f, scope, s, s.calls[v]);
          LookFolds(f, scope, s, s.calls[v].ev, s.calls[v]);
        } else {
          LookFolds(f, scope, s, m.ev, Call(m.ev, None, false, 0));
        }
      }
    }
  }

  lemma {:induction false} ExecInvariants(f: Option<FlapConfig>, scope: string, moves: seq<Move>)
    ensures Behind(Exec(f, scope, moves), CleanRun(f, scope, moves))
    ensures CleanRun(f, scope, moves) ==> Folds(f, scope, Exec(f, scope, moves))
  {
    if moves != [] {
      var init, m := moves[..|moves| - 1], moves[|moves| - 1];
      ExecInvariants(f, scope, init);
      if CleanRun(f, scope, moves) {
        CleanStepFolds(f, scope, Exec(f, scope, init), m);
      }
      StepStaysBehind(f, scope, Exec(f, scope, init), CleanRun(f, scope, init), m);
    }
  }

  /**
   * The stored row is the fold of the events set so far exactly when every set was clean. After one
   * unclean set it never is again: the version stays below the number of sets for good.
   */
  lemma {:induction false} LinearizableExactly(f: Option<FlapConfig>, scope: string, moves: seq<Move>)
    ensures Version(Exec(f, scope, moves).row) <= |Exec(f, scope, moves).log|
    ensures Version(Exec(f, scope, moves).row) == |Exec(f, scope, moves).log|
       <==> CleanRun(f, scope, moves)
    ensures Exec(f, scope, moves).row == C.RowOf(f, scope, Exec(f, scope, moves).log)
       <==> CleanRun(f, scope, moves)
  {
    ExecInvariants(f, scope, moves);
  }

  // ---------------------------------------------------------------- when runs are clean

  predicate Alone(s: State) {
    forall v, w :: v in s.calls && w in s.calls ==> v == w
  }

  /** No two calls on the row are ever in flight together. */
  ghost predicate OneAtATime(f: Option<FlapConfig>, scope: string, moves: seq<Move>) {
    forall i | 0 <= i <= |moves| :: Alone(Exec(f, scope, moves[..i]))
  }

  lemma {:induction false} OneAtATimeIsClean(f: Option<FlapConfig>, scope: string, moves: seq<Move>)
    requires OneAtATime(f, scope, moves)
    ensures CleanRun(f, scope, moves)
    ensures forall w :: w in Exec(f, scope, moves).calls ==>
              Exec(f, scope, moves).calls[w].seen == |Exec(f, scope, moves).log|
  {
    if moves != [] {
      var n := |moves| - 1;
      var init, m := moves[..n], moves[n];
      forall i | 0 <= i <= n
        ensures init[..i] == moves[..i]
      {
      }
      OneAtATimeIsClean(f, scope, init);
      var s, s' := Exec(f, scope, init), Exec(f, scope, moves);
      forall w | w in s'.calls
        ensures s'.calls[w].seen == |s'.log|
      {
        if w in s.calls && m.worker in s.calls {
          assert w == m.worker;
        }
      }
    }
  }

  /**
   * Two observations of a fresh row that overlap: both are answered as the first, both are forwarded,
   * and the row keeps only the later one, at version 1.
   */
  lemma {:induction false} OverlappingFirstsBothForward(
    f: Option<FlapConfig>, scope: string, a: Event, b: Event)
    ensures
      var moves := [Load(0, a), Load(1, b), Set(0, Clean), Set(1, Clean)];
      var s := Exec(f, scope, moves);
      && s.log == [a, b] && s.row == Some(Row(scope, FirstEdge(b), 1))
      && s.done == [Returned(0, a, Reply(EdgeTriggeredForward, None, false), 1),
                    Returned(1, b, Reply(EdgeTriggeredForward, None, false), 2)]
      && !CleanRun(f, scope, moves)
  {
    var one := [Load(0, a)];
    var two := one + [Load(1, b)];
    var three := two + [Set(0, Clean)];
    var four := three + [Set(1, Clean)];
    assert one[..0] == [] && two[..1] == one && three[..2] == two && four[..3] == three;
    assert Exec(f, scope, one) == State(None, map[0 := Call(a, None, false, 0)], [], []);
    var s := Exec(f, scope, two);
    assert s.calls[0] == Call(a, None, false, 0) && s.calls[1] == Call(b, None, false, 0);
    assert four == [Load(0, a), Load(1, b), Set(0, Clean), Set(1, Clean)];
  }
}
