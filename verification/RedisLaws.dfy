/** What the replies of every interleaving on a Redis row mean. */
module RedisLaws {
  import opened Types
  import opened EdgeFlap
  import opened EdgeRuns
  import opened WindowLaws
  import opened AnswerLaws
  import opened Rows
  import C = CasProtocol
  import opened RedisProtocol

  // ---------------------------------------------------------------- replies have their own place in the log

  /** A reply that claims a place holds it with its own event, and a published reply claims one. */
  predicate Placed(log: seq<Event>, r: Returned) {
    && r.position <= |log|
    && (r.position > 0 ==> log[r.position - 1] == r.ev)
    && (Publishes(r.reply.action) ==> r.position > 0)
  }

  predicate BothPlaced(r: Returned, r': Returned) {
    r.position > 0 && r'.position > 0
  }

  ghost predicate RepliesPlaced(s: State) {
    && (forall i :: 0 <= i < |s.done| ==> Placed(s.log, s.done[i]))
    && (forall i, j :: 0 <= i < j < |s.done| && BothPlaced(s.done[i], s.done[j]) ==>
          s.done[i].position < s.done[j].position)
  }

  /** A step adds at most one event and at most one reply; a reply that claims a place claims that of the event. */
  ghost predicate StepReplies(s: State, s': State) {
    && s.log <= s'.log && s.done <= s'.done && |s'.done| <= |s.done| + 1
    && (|s'.done| > |s.done| ==>
          && Placed(s'.log, s'.done[|s.done|])
          && (s'.done[|s.done|].position == 0 || s'.done[|s.done|].position == |s.log| + 1))
  }

  lemma {:induction false} QuietAnswers(d: Decision, fate: CasOutcome)
    ensures Publishes(Answer(d, fate).action) ==> d.Write? && fate.Committed?
  {
  }

  lemma {:induction false} ApplyReplies(f: Option<FlapConfig>, scope: string, s: State, m: Move)
    ensures StepReplies(s, Apply(f, scope, s, m))
  {
    if m.Check? && m.worker in s.calls {
      QuietAnswers(Verdict(f, s.calls[m.worker]), Refused);
    } else if m.Set? && ReadyToSet(f, s, m.worker) {
      QuietAnswers(Verdict(f, s.calls[m.worker]), Failed);
    } else if m.Load? {
      QuietAnswers(Stable, Committed);
    }
  }

  lemma {:induction false} RepliesStayPlaced(s: State, s': State)
    requires RepliesPlaced(s) && StepReplies(s, s')
    ensures RepliesPlaced(s')
  {
    forall i | 0 <= i < |s'.done|
      ensures Placed(s'.log, s'.done[i])
    {
      assert i < |s.done| ==> s'.done[i] == s.done[i] && Placed(s.log, s.done[i]);
    }
    forall i, j | 0 <= i < j < |s'.done| && BothPlaced(s'.done[i], s'.done[j])
      ensures s'.done[i].position < s'.done[j].position
    {
      assert s'.done[i] == s.done[i] && Placed(s.log, s.done[i]);
    }
  }

  lemma {:induction false} ExecReplies(f: Option<FlapConfig>, scope: string, moves: seq<Move>)
    ensures RepliesPlaced(Exec(f, scope, moves))
  {
    if moves != [] {
      var init := moves[..|moves| - 1];
      ExecReplies(f, scope, init);
      ApplyReplies(f, scope, Exec(f, scope, init), moves[|moves| - 1]);
      RepliesStayPlaced(Exec(f, scope, init), Exec(f, scope, moves));
    }
  }

  /**
   * In every interleaving, clean or not, a published reply belongs to a set that took effect: its own
   * event stands in the log at its place.
   */
  lemma {:induction false} PublishedWasSet(f: Option<FlapConfig>, scope: string, moves: seq<Move>, i: nat)
    requires i < |Exec(f, scope, moves).done| && Publishes(Exec(f, scope, moves).done[i].reply.action)
    ensures var s := Exec(f, scope, moves);
            var r := s.done[i];
            1 <= r.position <= |s.log| && s.log[r.position - 1] == r.ev
  {
    ExecReplies(f, scope, moves);
    assert Placed(Exec(f, scope, moves).log, Exec(f, scope, moves).done[i]);
  }

  /** No two published replies share a place. */
  lemma {:induction false} PublishedAreDistinct(f: Option<FlapConfig>, scope: string, moves: seq<Move>, i: nat, j: nat)
    requires i < j < |Exec(f, scope, moves).done|
    requires Publishes(Exec(f, scope, moves).done[i].reply.action)
    requires Publishes(Exec(f, scope, moves).done[j].reply.action)
    ensures Exec(f, scope, moves).done[i].position < Exec(f, scope, moves).done[j].position
  {
    ExecReplies(f, scope, moves);
    PublishedWasSet(f, scope, moves, i);
    PublishedWasSet(f, scope, moves, j);
    assert BothPlaced(Exec(f, scope, moves).done[i], Exec(f, scope, moves).done[j]);
  }

  /** A call whose version check fails changes nothing, is not told of an error, and never publishes. */
  lemma {:induction false} FailedCheckIsQuiet(f: Option<FlapConfig>, scope: string, s: State, w: nat)
    requires w in s.calls && !s.calls[w].checked
    requires Version(s.calls[w].loaded) != 0 && Version(s.row) != Version(s.calls[w].loaded)
    ensures var s' := Apply(f, scope, s, Check(w));
            && s'.row == s.row && s'.log == s.log && w !in s'.calls
            && |s'.done| == |s.done| + 1 && s'.done[..|s.done|] == s.done
            && var r := s'.done[|s.done|];
               && r.worker == w && r.position == 0 && !r.reply.err
               && (r.reply.action == NoOp || r.reply.action == SuppressFlapping)
  {
  }

  // ---------------------------------------------------------------- clean runs answer as the fold

  /** A call that sets cleanly decided on the state that the log folds to. */
  lemma {:induction false} CleanVerdict(f: Option<FlapConfig>, scope: string, s: State, w: nat)
    requires Folds(f, scope, s) && w in s.calls
    ensures var c := s.calls[w];
            && 0 <= Version(c.loaded) <= |s.log|
            && EdgeOf(c.loaded) == Play(f, s.log[..Version(c.loaded)]).edge
            && (ReadyToSet(f, s, w) && c.seen == |s.log| ==> Version(c.loaded) == |s.log|)
  {
    var c := s.calls[w];
    assert CallFolds(f, scope, s, c);
    C.RowHoldsFold(f, scope, s.log[..Version(c.loaded)]);
  }

  /** What becomes of the write of a call that returns with this step. */
  function FateOf(m: Move): CasOutcome {
    match m
    case Load(_, _) => Committed
    case Check(_) => Refused
    case Set(_, io) => if io.Clean? then Committed else Failed
    case Abandon(_) => Failed
  }

  /** The events that the call returning with this step has loaded. */
  function LoadedLog(s: State, m: Move): seq<Event> {
    if m.worker in s.calls && 0 <= Version(s.calls[m.worker].loaded) <= |s.log|
    then s.log[..Version(s.calls[m.worker].loaded)] else s.log
  }

  lemma {:induction false} LoadTold(f: Option<FlapConfig>, scope: string, s: State, w: nat, ev: Event)
    requires Folds(f, scope, s) && Decide(EdgeOf(s.row), ev, f).Stable?
    ensures EventTold(f, s.log, ev, Committed) == Told(NoOp, false)
  {
    C.RowHoldsFold(f, scope, s.log);
    AnswerReadsLog(f, s.log, ev, Committed);
  }

  lemma {:induction false} CallTold(f: Option<FlapConfig>, scope: string, s: State, w: nat, fate: CasOutcome)
    requires Folds(f, scope, s) && w in s.calls
    ensures var c := s.calls[w];
            var reply := Answer(Verdict(f, c), fate);
            && 0 <= Version(c.loaded) <= |s.log|
            && Told(reply.action, reply.err) == EventTold(f, s.log[..Version(c.loaded)], c.ev, fate)
  {
    var c := s.calls[w];
    CleanVerdict(f, scope, s, w);
    AnswerReadsLog(f, s.log[..Version(c.loaded)], c.ev, fate);
  }

  lemma {:induction false} StepTold(f: Option<FlapConfig>, scope: string, s: State, m: Move)
    requires Folds(f, scope, s)
    ensures var s' := Apply(f, scope, s, m);
            |s'.done| > |s.done| ==>
              && |s'.done| == |s.done| + 1 && s'.done[..|s.done|] == s.done
              && var r := s'.done[|s.done|];
                 && r.worker == m.worker
                 && Told(r.reply.action, r.reply.err) == EventTold(f, LoadedLog(s, m), r.ev, FateOf(m))
  {
    if m.worker in s.calls {
      CallTold(f, scope, s, m.worker, FateOf(m));
    } else if m.Load? && Decide(EdgeOf(s.row), m.ev, f).Stable? {
      LoadTold(f, scope, s, m.worker, m.ev);
    }
  }

  /**
   * In every clean run, a call that returns, won, lost or failed, is told what the log it loaded says,
   * given the fate of its write.
   */
  lemma {:induction false} CleanAnswersReadLog(f: Option<FlapConfig>, scope: string, moves: seq<Move>, m: Move)
    requires CleanRun(f, scope, moves)
    ensures var s := Exec(f, scope, moves);
            var s' := Exec(f, scope, moves + [m]);
            |s'.done| > |s.done| ==>
              && |s'.done| == |s.done| + 1 && s'.done[..|s.done|] == s.done
              && var r := s'.done[|s.done|];
                 && r.worker == m.worker
                 && Told(r.reply.action, r.reply.err) == EventTold(f, LoadedLog(s, m), r.ev, FateOf(m))
  {
    ExecInvariants(f, scope, moves);
    StepTold(f, scope, Exec(f, scope, moves), m);
    assert (moves + [m])[..|moves|] == moves;
  }

  /** Published replies. */
  function Notified(done: seq<Returned>): nat {
    if done == [] then 0
    else Notified(done[..|done| - 1]) + (if Publishes(done[|done| - 1].reply.action) then 1 else 0)
  }

  lemma {:induction false} NotifiedSnoc(done: seq<Returned>, r: Returned)
    ensures Notified(done + [r]) == Notified(done) + (if Publishes(r.reply.action) then 1 else 0)
  {
    assert (done + [r])[..|done|] == done;
  }

  /** The step sets a row whose event publishes, and loses the answer. */
  predicate LosesPublication(f: Option<FlapConfig>, s: State, m: Move) {
    && m.Set? && m.io.ReplyLost? && ReadyToSet(f, s, m.worker)
    && Publishes(Answer(Verdict(f, s.calls[m.worker]), Committed).action)
  }

  function LostPublications(f: Option<FlapConfig>, scope: string, moves: seq<Move>): nat {
    if moves == [] then 0
    else
      var n := |moves| - 1;
      LostPublications(f, scope, moves[..n])
      + (if LosesPublication(f, Exec(f, scope, moves[..n]), moves[n]) then 1 else 0)
  }

  lemma {:induction false} SetPublishes(f: Option<FlapConfig>, scope: string, s: State, w: nat)
    requires Folds(f, scope, s) && ReadyToSet(f, s, w) && s.calls[w].seen == |s.log|
    ensures var c := s.calls[w];
            Published(Play(f, s.log + [c.ev]).actions) == Published(Play(f, s.log).actions)
              + (if Publishes(Answer(Verdict(f, c), Committed).action) then 1 else 0)
  {
    CleanVerdict(f, scope, s, w);
    assert s.log[..|s.log|] == s.log;
    EventPublishes(f, s.log, s.calls[w].ev);
  }

  lemma {:induction false} SetNotifies(f: Option<FlapConfig>, scope: string, s: State, w: nat, io: Io)
    requires ReadyToSet(f, s, w)
    ensures Notified(SetRow(f, scope, s, w, io).done) == Notified(s.done)
              + (if io.Clean? && Publishes(Answer(Verdict(f, s.calls[w]), Committed).action) then 1 else 0)
  {
    var r := SetRow(f, scope, s, w, io).done[|s.done|];
    QuietAnswers(Verdict(f, s.calls[w]), Failed);
    NotifiedSnoc(s.done, r);
  }

  lemma {:induction false} OtherNotifies(f: Option<FlapConfig>, scope: string, s: State, m: Move)
    requires !(m.Set? && ReadyToSet(f, s, m.worker))
    ensures var s' := Apply(f, scope, s, m);
            s'.log == s.log && Notified(s'.done) == Notified(s.done)
  {
    var s' := Apply(f, scope, s, m);
    if s'.done != s.done {
      if m.Check? {
        QuietAnswers(Verdict(f, s.calls[m.worker]), Refused);
      }
      NotifiedSnoc(s.done, s'.done[|s.done|]);
    }
  }

  lemma {:induction false} SetFoldPublishes(f: Option<FlapConfig>, scope: string, s: State, w: nat, io: Io)
    requires Folds(f, scope, s) && ReadyToSet(f, s, w) && (io.RequestLost? || s.calls[w].seen == |s.log|)
    ensures Published(Play(f, SetRow(f, scope, s, w, io).log).actions) == Published(Play(f, s.log).actions)
              + (if !io.RequestLost? && Publishes(Answer(Verdict(f, s.calls[w]), Committed).action) then 1 else 0)
  {
    if !io.RequestLost? {
      SetPublishes(f, scope, s, w);
    }
  }

  lemma {:induction false} StepConserves(f: Option<FlapConfig>, scope: string, s: State, m: Move)
    requires Folds(f, scope, s) && CleanStep(f, s, m)
    ensures var s' := Apply(f, scope, s, m);
            Published(Play(f, s'.log).actions) - Published(Play(f, s.log).actions)
            == Notified(s'.done) - Notified(s.done) + (if LosesPublication(f, s, m) then 1 else 0)
  {
    if m.Set? && ReadyToSet(f, s, m.worker) {
      SetNotifies(f, scope, s, m.worker, m.io);
      SetFoldPublishes(f, scope, s, m.worker, m.io);
    } else {
      OtherNotifies(f, scope, s, m);
    }
  }

  /**
   * In every clean run, the published replies and the publications whose replies were lost are together
   * exactly what the fold of the events set publishes.
   */
  lemma {:induction false} CleanNotificationsConserved(f: Option<FlapConfig>, scope: string, moves: seq<Move>)
    requires CleanRun(f, scope, moves)
    ensures Notified(Exec(f, scope, moves).done) + LostPublications(f, scope, moves)
         == Published(Play(f, Exec(f, scope, moves).log).actions)
  {
    if moves != [] {
      var init := moves[..|moves| - 1];
      CleanNotificationsConserved(f, scope, init);
      ExecInvariants(f, scope, init);
      StepConserves(f, scope, Exec(f, scope, init), moves[|moves| - 1]);
    }
  }

  // ---------------------------------------------------------------- published replies are the fold's

  /** A published reply is the fold's answer at its place. */
  predicate FoldReply(f: Option<FlapConfig>, log: seq<Event>, r: Returned) {
    Publishes(r.reply.action) ==>
      && 1 <= r.position <= |log|
      && r.reply.action == Step(Play(f, log[..r.position - 1]).edge, r.ev, f).action
  }

  lemma {:induction false} FoldReplyStays(f: Option<FlapConfig>, log: seq<Event>, log': seq<Event>, r: Returned)
    requires FoldReply(f, log, r) && log <= log'
    ensures FoldReply(f, log', r)
  {
    if Publishes(r.reply.action) {
      assert log'[..r.position - 1] == log[..r.position - 1];
    }
  }

  lemma {:induction false} NewReplyFolds(f: Option<FlapConfig>, scope: string, s: State, m: Move)
    requires Folds(f, scope, s) && CleanStep(f, s, m)
    ensures var s' := Apply(f, scope, s, m);
            |s'.done| > |s.done| ==> FoldReply(f, s'.log, s'.done[|s.done|])
  {
    if m.Set? && ReadyToSet(f, s, m.worker) && m.io.Clean? {
      var c := s.calls[m.worker];
      CleanVerdict(f, scope, s, m.worker);
      assert s.log[..|s.log|] == s.log;
      assert (s.log + [c.ev])[..|s.log|] == s.log;
    } else {
      ApplyReplies(f, scope, s, m);
      UnsetIsQuiet(f, scope, s, m);
    }
  }

  lemma {:induction false} UnsetIsQuiet(f: Option<FlapConfig>, scope: string, s: State, m: Move)
    requires !(m.Set? && ReadyToSet(f, s, m.worker) && m.io.Clean?)
    ensures var s' := Apply(f, scope, s, m);
            |s'.done| > |s.done| ==> !Publishes(s'.done[|s.done|].reply.action)
  {
    if m.worker in s.calls {
      QuietAnswers(Verdict(f, s.calls[m.worker]), Refused);
      QuietAnswers(Verdict(f, s.calls[m.worker]), Failed);
    }
  }

  lemma {:induction false} CleanRepliesFold(f: Option<FlapConfig>, scope: string, moves: seq<Move>, i: nat)
    requires CleanRun(f, scope, moves) && i < |Exec(f, scope, moves).done|
    ensures FoldReply(f, Exec(f, scope, moves).log, Exec(f, scope, moves).done[i])
  {
    if moves != [] {
      var init := moves[..|moves| - 1];
      var s, s' := Exec(f, scope, init), Exec(f, scope, moves);
      ExecInvariants(f, scope, init);
      ApplyReplies(f, scope, s, moves[|moves| - 1]);
      if i < |s.done| {
        CleanRepliesFold(f, scope, init, i);
        FoldReplyStays(f, s.log, s'.log, s.done[i]);
      } else {
        NewReplyFolds(f, scope, s, moves[|moves| - 1]);
      }
    }
  }
}
