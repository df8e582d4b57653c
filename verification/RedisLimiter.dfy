/**
 * The rate limiter on Redis, where a call first reads the counter and then increments it. The model
 * follows one counter (one scope in one minute) under a fixed cap, within the life of its key.
 */
module RedisLimiter {
  import opened Types

  /** `passed` are the calls that read a count below the cap, or none, and have not incremented yet. */
  datatype State = State(count: Option<nat>, passed: set<nat>, grants: nat)

  datatype Move =
    | Read(caller: nat)
    | Increment(caller: nat)
    | IncrementUnanswered(caller: nat)  // incremented, but this or the expiry call returned an error
    | GiveUp(caller: nat)               // the increment failed or was never sent

  const FRESH := State(None, {}, 0)

  function Count(s: State): nat {
    if s.count.Some? then s.count.value else 0
  }

  function Apply(cap: int, s: State, m: Move): State {
    match m
    case Read(c) =>
      if c in s.passed then s
      else if s.count.Some? && s.count.value >= cap then s
      else s.(passed := s.passed + {c})
    case Increment(c) =>
      if c in s.passed then s.(count := Some(Count(s) + 1), passed := s.passed - {c}, grants := s.grants + 1)
      else s
    case IncrementUnanswered(c) =>
      if c in s.passed then s.(count := Some(Count(s) + 1), passed := s.passed - {c}) else s
    case GiveUp(c) => s.(passed := s.passed - {c})
  }

  function Exec(cap: int, moves: seq<Move>): State {
    if moves == [] then FRESH else Apply(cap, Exec(cap, moves[..|moves| - 1]), moves[|moves| - 1])
  }

  /** At no point of the run are more than `width` calls between their read and their increment. */
  predicate AtMost(cap: int, moves: seq<Move>, width: nat) {
    && |Exec(cap, moves).passed| <= width
    && (moves != [] ==> AtMost(cap, moves[..|moves| - 1], width))
  }

  /** Counted tokens and calls about to take one together stay below the cap plus the width. */
  lemma {:induction false} TokensBounded(cap: int, moves: seq<Move>, width: nat)
    requires cap >= 1 && AtMost(cap, moves, width)
    ensures var s := Exec(cap, moves);
            && s.grants <= Count(s)
            && Count(s) + |s.passed| <= cap - 1 + width
  {
    if moves != [] {
      var n := |moves| - 1;
      TokensBounded(cap, moves[..n], width);
      var s := Exec(cap, moves[..n]);
      var c := moves[n].caller;
      if c in s.passed {
        assert |s.passed - {c}| == |s.passed| - 1;
      } else {
        assert s.passed - {c} == s.passed;
      }
    }
  }

  /** The increments that took effect without their caller being granted. */
  function Unanswered(cap: int, moves: seq<Move>): nat {
    if moves == [] then 0
    else
      var n := |moves| - 1;
      Unanswered(cap, moves[..n])
      + (if moves[n].IncrementUnanswered? && moves[n].caller in Exec(cap, moves[..n]).passed then 1 else 0)
  }

  /** In every interleaving the counter is the grants and the unanswered increments together. */
  lemma {:induction false} CounterConserved(cap: int, moves: seq<Move>)
    ensures Count(Exec(cap, moves)) == Exec(cap, moves).grants + Unanswered(cap, moves)
  {
    if moves != [] {
      CounterConserved(cap, moves[..|moves| - 1]);
    }
  }

  /**
   * With at most `width` calls in flight, every interleaving of reads and increments grants at most
   * `cap + width - 1` times, so at most `cap` times when calls do not overlap.
   */
  lemma {:induction false} OvershootBound(cap: int, moves: seq<Move>, width: nat)
    requires cap >= 1 && width >= 1 && AtMost(cap, moves, width)
    ensures Exec(cap, moves).grants <= cap + width - 1
    ensures width == 1 ==> Exec(cap, moves).grants <= cap
  {
    TokensBounded(cap, moves, width);
  }

  // ---------------------------------------------------------------- the bound is reached

  /** The run ends in `s` and never had more than `width` calls in flight. */
  predicate Reaches(cap: int, moves: seq<Move>, width: nat, s: State) {
    Exec(cap, moves) == s && AtMost(cap, moves, width)
  }

  lemma {:induction false} ReachesNext(cap: int, moves: seq<Move>, width: nat, s: State, m: Move)
    requires Reaches(cap, moves, width, s) && |Apply(cap, s, m).passed| <= width
    ensures Reaches(cap, moves + [m], width, Apply(cap, s, m))
  {
    assert (moves + [m])[..|moves|] == moves;
  }

  function Callers(n: nat): set<nat> {
    if n == 0 then {} else Callers(n - 1) + {n - 1}
  }

  lemma {:induction false} CallersBelow(n: nat)
    ensures |Callers(n)| == n
    ensures forall c :: c in Callers(n) ==> c < n
  {
    if n > 0 {
      CallersBelow(n - 1);
    }
  }

  /** The counter one below the cap. */
  function Almost(cap: int): Option<nat>
    requires cap >= 1
  {
    if cap == 1 then None else Some(cap - 1)
  }

  /** `n` calls one after the other. */
  function Solo(n: nat): seq<Move> {
    if n == 0 then [] else Solo(n - 1) + [Read(0)] + [Increment(0)]
  }

  lemma {:induction false} SoloReaches(cap: int, n: nat, width: nat)
    requires n < cap && width >= 1
    ensures Reaches(cap, Solo(n), width, State(Almost(n + 1), {}, n))
  {
    if n > 0 {
      SoloReaches(cap, n - 1, width);
      var s := State(Almost(n), {}, n - 1);
      var mid := s.(passed := {0});
      assert Apply(cap, s, Read(0)) == mid;
      ReachesNext(cap, Solo(n - 1), width, s, Read(0));
      ReachesNext(cap, Solo(n - 1) + [Read(0)], width, mid, Increment(0));
    }
  }

  /** `cap - 1` calls one after the other, then `n` callers that read before any of them increments. */
  function Gather(cap: int, n: nat): seq<Move>
    requires cap >= 1
  {
    if n == 0 then Solo(cap - 1) else Gather(cap, n - 1) + [Read(n - 1)]
  }

  function Gathered(cap: int, n: nat): State
    requires cap >= 1
  {
    State(Almost(cap), Callers(n), cap - 1)
  }

  lemma {:induction false} GatherNext(cap: int, moves: seq<Move>, moves': seq<Move>, width: nat, n: nat)
    requires cap >= 1 && n < width && Reaches(cap, moves, width, Gathered(cap, n))
    requires moves' == moves + [Read(n)]
    ensures Reaches(cap, moves', width, Gathered(cap, n + 1))
  {
    CallersBelow(n);
    CallersBelow(n + 1);
    assert Apply(cap, Gathered(cap, n), Read(n)) == Gathered(cap, n + 1);
    ReachesNext(cap, moves, width, Gathered(cap, n), Read(n));
  }

  lemma {:induction false} GatherNone(cap: int, width: nat)
    requires cap >= 1 && width >= 1
    ensures Reaches(cap, Gather(cap, 0), width, Gathered(cap, 0))
  {
    SoloReaches(cap, cap - 1, width);
    assert Gathered(cap, 0) == State(Almost(cap - 1 + 1), {}, cap - 1);
  }

  lemma {:induction false} GatherReaches(cap: int, n: nat, width: nat)
    requires cap >= 1 && n <= width && width >= 1
    ensures Reaches(cap, Gather(cap, n), width, Gathered(cap, n))
  {
    if n == 0 {
      GatherNone(cap, width);
    } else {
      GatherReaches(cap, n - 1, width);
      GatherNext(cap, Gather(cap, n - 1), Gather(cap, n), width, n - 1);
    }
  }

  /** All gathered callers but the first `left` have incremented, the last to read first. */
  function Stampede(cap: int, width: nat, left: nat): seq<Move>
    requires cap >= 1 && left <= width
    decreases width - left
  {
    if left == width then Gather(cap, width) else Stampede(cap, width, left + 1) + [Increment(left)]
  }

  lemma {:induction false} StampedeReaches(cap: int, width: nat, left: nat) returns (s: State)
    requires cap >= 1 && left <= width && width >= 1
    ensures Reaches(cap, Stampede(cap, width, left), width, s)
    ensures s.passed == Callers(left) && s.grants == cap - 1 + width - left
    decreases width - left
  {
    if left == width {
      GatherReaches(cap, width, width);
      s := State(Almost(cap), Callers(width), cap - 1);
    } else {
      var s0 := StampedeReaches(cap, width, left + 1);
      CallersBelow(left);
      assert Callers(left + 1) - {left} == Callers(left);
      ReachesNext(cap, Stampede(cap, width, left + 1), width, s0, Increment(left));
      s := Apply(cap, s0, Increment(left));
    }
  }

  /** For every cap and width there is an interleaving that grants exactly `cap + width - 1` times. */
  lemma {:induction false} OvershootReached(cap: int, width: nat)
    requires cap >= 1 && width >= 1
    ensures AtMost(cap, Stampede(cap, width, 0), width)
    ensures Exec(cap, Stampede(cap, width, 0)).grants == cap + width - 1
  {
    var s := StampedeReaches(cap, width, 0);
  }
}
