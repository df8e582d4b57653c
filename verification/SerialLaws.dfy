/**
 * Requests one after the other, on either store: what each limiter admits, counted over the requests and
 * their outcomes alone, and every outcome as a function of the requests before it.
 */
module SerialLaws {
  import opened Types
  import opened EdgeFlap
  import opened AnswerLaws
  import opened Keys
  import opened Limiter
  import opened Store
  import opened Flow
  import opened FlowLaws
  import opened OutcomeLaws
  import opened OutcomeTable
  import C = CasProtocol

  // ---------------------------------------------------------------- a queue at one counter

  /** A request that asks a counter for a token, with its cap, and whether it got one. */
  datatype Ask = Ask(cap: int, ok: bool)

  function Oks(asks: seq<Ask>): nat {
    if asks == [] then 0 else Oks(asks[..|asks| - 1]) + (if asks[|asks| - 1].ok then 1 else 0)
  }

  /** Everyone gets a token exactly while fewer have been given out than their own cap. */
  predicate Fair(asks: seq<Ask>) {
    asks != [] ==>
      var n := |asks| - 1;
      Fair(asks[..n]) && (asks[n].ok <==> Oks(asks[..n]) < asks[n].cap)
  }

  lemma {:induction false} AskSnoc(asks: seq<Ask>, a: Ask)
    ensures Oks(asks + [a]) == Oks(asks) + (if a.ok then 1 else 0)
    ensures Fair(asks + [a]) <==> Fair(asks) && (a.ok <==> Oks(asks) < a.cap)
  {
    assert (asks + [a])[..|asks|] == asks;
  }

  predicate CapsAre(line: seq<Ask>, cap: int) {
    forall i :: 0 <= i < |line| ==> line[i].cap == cap
  }

  lemma {:induction false} FairUnderLargest(asks: seq<Ask>, cap: nat)
    requires Fair(asks) && forall i :: 0 <= i < |asks| ==> asks[i].cap <= cap
    ensures Oks(asks) <= cap
  {
    if asks != [] {
      FairUnderLargest(asks[..|asks| - 1], cap);
    }
  }

  lemma {:induction false} FairExactly(asks: seq<Ask>, cap: nat)
    requires Fair(asks) && CapsAre(asks, cap)
    ensures Oks(asks) == Min(|asks|, cap)
  {
    if asks != [] {
      FairExactly(asks[..|asks| - 1], cap);
    }
  }

  // ---------------------------------------------------------------- who asks which counter

  /** The request asks the limiter of `ip` for a token of `minute`. */
  predicate AsksIp(q: Query, ip: string, minute: int) {
    q.ip == ip && Minute(q.clock.ip) == minute && q.cc.ipRPM > 0 && !q.faults.ip
  }

  /** The first limiter has let the request pass. */
  predicate PastIp(q: Query, o: Outcome) {
    !o.err.IpLimited? && !(q.cc.ipRPM > 0 && q.faults.ip)
  }

  predicate AsksClient(q: Query, o: Outcome, client: string, minute: int) {
    && PastIp(q, o)
    && q.client == client && Minute(q.clock.client) == minute && q.cc.clientRPM > 0 && !q.faults.client
  }

  /** A request published without error, or refused by the target limiter alone. */
  predicate AsksTarget(q: Query, o: Outcome, scope: string, minute: int) {
    && (o.status == 429 || ((o.action == EdgeTriggeredForward || o.action == AggregateSent) && o.err.Fine?))
    && "TARGET:" + q.client + ":" + q.cc.snsArn == scope && Minute(q.clock.target) == minute
    && q.cc.snsRPM > 0 && !q.faults.target
  }

  function IpAsk(q: Query, o: Outcome, ip: string, minute: int): seq<Ask> {
    if AsksIp(q, ip, minute) then [Ask(q.cc.ipRPM, !o.err.IpLimited?)] else []
  }

  function ClientAsk(q: Query, o: Outcome, client: string, minute: int): seq<Ask> {
    if AsksClient(q, o, client, minute) then [Ask(q.cc.clientRPM, !o.err.ClientLimited?)] else []
  }

  function TargetAsk(q: Query, o: Outcome, scope: string, minute: int): seq<Ask> {
    if AsksTarget(q, o, scope, minute) then [Ask(q.cc.snsRPM, o.status != 429)] else []
  }

  function IpLine(qs: seq<Query>, os: seq<Outcome>, ip: string, minute: int): seq<Ask>
    requires |qs| == |os|
  {
    if qs == [] then []
    else
      var n := |qs| - 1;
      IpLine(qs[..n], os[..n], ip, minute) + IpAsk(qs[n], os[n], ip, minute)
  }

  function ClientLine(qs: seq<Query>, os: seq<Outcome>, client: string, minute: int): seq<Ask>
    requires |qs| == |os|
  {
    if qs == [] then []
    else
      var n := |qs| - 1;
      ClientLine(qs[..n], os[..n], client, minute) + ClientAsk(qs[n], os[n], client, minute)
  }

  function TargetLine(qs: seq<Query>, os: seq<Outcome>, scope: string, minute: int): seq<Ask>
    requires |qs| == |os|
  {
    if qs == [] then []
    else
      var n := |qs| - 1;
      TargetLine(qs[..n], os[..n], scope, minute) + TargetAsk(qs[n], os[n], scope, minute)
  }

  // ---------------------------------------------------------------- one request at each counter

  /** The counter of a bucket follows the asks, and an ask is granted exactly below its cap. */
  ghost predicate Served(before: nat, after: nat, asks: seq<Ask>) {
    && |asks| <= 1
    && after == before + Oks(asks)
    && (asks != [] ==> (asks[0].ok <==> before < asks[0].cap))
  }

  lemma {:induction false} SameTail(prefix: string, a: string, b: string)
    requires prefix + a == prefix + b
    ensures a == b
  {
    assert (prefix + a)[|prefix|..] == a && (prefix + b)[|prefix|..] == b;
  }

  lemma {:induction false} SingleOks(a: Ask)
    ensures Oks([a]) == if a.ok then 1 else 0
  {
    AskSnoc([], a);
    assert [] + [a] == [a];
  }

  lemma {:induction false} IpServed(b: Backend, q: Query, decode: string -> Option<string>, ip: string, minute: int)
    requires Sound(b)
    ensures var r, x := RunOn(b, q, decode), Bucket("IP:" + ip, minute);
            Served(TokensAt(b, x), TokensAt(r.backend, x), IpAsk(q, r.outcome, ip, minute))
  {
    var r, x := RunOn(b, q, decode), Bucket("IP:" + ip, minute);
    RequestAccounting(b, q, decode);
    FrontVerdicts(b, q);
    ErrorsExactly(b, q, decode);
    ScopesDistinct(ip, q.client, q.client, q.cc.snsArn);
    SingleOks(Ask(q.cc.ipRPM, !r.outcome.err.IpLimited?));
    if "IP:" + ip == "IP:" + q.ip {
      SameTail("IP:", ip, q.ip);
    }
  }

  lemma {:induction false} ClientServed(
      b: Backend, q: Query, decode: string -> Option<string>, client: string, minute: int)
    requires Sound(b)
    ensures var r, x := RunOn(b, q, decode), Bucket("CLIENT:" + client, minute);
            Served(TokensAt(b, x), TokensAt(r.backend, x), ClientAsk(q, r.outcome, client, minute))
  {
    var r, x := RunOn(b, q, decode), Bucket("CLIENT:" + client, minute);
    RequestAccounting(b, q, decode);
    FrontVerdicts(b, q);
    ErrorsExactly(b, q, decode);
    ScopesDistinct(q.ip, client, q.client, q.cc.snsArn);
    SingleOks(Ask(q.cc.clientRPM, !r.outcome.err.ClientLimited?));
    if "CLIENT:" + client == "CLIENT:" + q.client {
      SameTail("CLIENT:", client, q.client);
    }
  }

  lemma {:induction false} TargetServed(
      b: Backend, q: Query, decode: string -> Option<string>, client: string, arn: string, minute: int)
    requires Sound(b) && Versioned(b, q)
    ensures var r, x := RunOn(b, q, decode), Bucket("TARGET:" + client + ":" + arn, minute);
            Served(TokensAt(b, x), TokensAt(r.backend, x), TargetAsk(q, r.outcome, x.scope, minute))
  {
    var r, x := RunOn(b, q, decode), Bucket("TARGET:" + client + ":" + arn, minute);
    RequestAccounting(b, q, decode);
    PublishedExactly(b, q, decode);
    ScopesDistinct(q.ip, q.client, client, arn);
    SingleOks(Ask(q.cc.snsRPM, r.outcome.status != 429));
  }

  // ---------------------------------------------------------------- runs

  predicate EmptyStore(b: Backend) {
    b == OnDdb(map[]) || b == OnRedis(map[])
  }

  /** The store after a run from an empty store. */
  lemma {:induction false} SerialSound(b: Backend, qs: seq<Query>, decode: string -> Option<string>)
    requires EmptyStore(b)
    ensures var h := RunAll(b, qs, decode);
            && Sound(h.backend) && |h.outcomes| == |qs|
            && forall q: Query :: Versioned(h.backend, q)
  {
    OutcomesCounted(b, qs, decode);
    SerialBackendsEquivalent(qs, decode);
  }

  lemma {:induction false} OutcomesCounted(b: Backend, qs: seq<Query>, decode: string -> Option<string>)
    ensures |RunAll(b, qs, decode).outcomes| == |qs|
  {
    if qs != [] {
      OutcomesCounted(b, qs[..|qs| - 1], decode);
    }
  }

  /** Serving a line one ask at a time keeps it fair. */
  lemma {:induction false} LineServed(line: seq<Ask>, asks: seq<Ask>, before: nat, after: nat)
    requires Fair(line) && Oks(line) == before && Served(before, after, asks)
    ensures Fair(line + asks) && Oks(line + asks) == after
  {
    if asks == [] {
      assert line + asks == line;
    } else {
      assert asks == [asks[0]];
      SingleOks(asks[0]);
      AskSnoc(line, asks[0]);
    }
  }

  lemma {:induction false} EmptyTokens(b: Backend, x: Bucket)
    requires EmptyStore(b)
    ensures TokensAt(b, x) == 0
  {
  }

  /**
   * In every run of requests from an empty store, the limiter of an IP address counts and serves the
   * requests from that address in a minute, whoever the clients are, and no others.
   */
  lemma {:induction false} IpLineFair(
      b: Backend, qs: seq<Query>, decode: string -> Option<string>, ip: string, minute: int)
    requires EmptyStore(b)
    ensures var h := RunAll(b, qs, decode);
            && |h.outcomes| == |qs|
            && Fair(IpLine(qs, h.outcomes, ip, minute))
            && Oks(IpLine(qs, h.outcomes, ip, minute)) == TokensAt(h.backend, Bucket("IP:" + ip, minute))
  {
    OutcomesCounted(b, qs, decode);
    if qs == [] {
      EmptyTokens(b, Bucket("IP:" + ip, minute));
    } else {
      var n := |qs| - 1;
      var h, x := RunAll(b, qs[..n], decode), Bucket("IP:" + ip, minute);
      var r := RunOn(h.backend, qs[n], decode);
      IpLineFair(b, qs[..n], decode, ip, minute);
      SerialSound(b, qs[..n], decode);
      IpServed(h.backend, qs[n], decode, ip, minute);
      LineServed(IpLine(qs[..n], h.outcomes, ip, minute), IpAsk(qs[n], r.outcome, ip, minute),
                 TokensAt(h.backend, x), TokensAt(r.backend, x));
      assert RunAll(b, qs, decode).outcomes[..n] == h.outcomes;
    }
  }

  lemma {:induction false} ClientLineFair(
      b: Backend, qs: seq<Query>, decode: string -> Option<string>, client: string, minute: int)
    requires EmptyStore(b)
    ensures var h := RunAll(b, qs, decode);
            && |h.outcomes| == |qs|
            && Fair(ClientLine(qs, h.outcomes, client, minute))
            && Oks(ClientLine(qs, h.outcomes, client, minute))
               == TokensAt(h.backend, Bucket("CLIENT:" + client, minute))
  {
    OutcomesCounted(b, qs, decode);
    if qs == [] {
      EmptyTokens(b, Bucket("CLIENT:" + client, minute));
    } else {
      var n := |qs| - 1;
      var h, x := RunAll(b, qs[..n], decode), Bucket("CLIENT:" + client, minute);
      var r := RunOn(h.backend, qs[n], decode);
      ClientLineFair(b, qs[..n], decode, client, minute);
      SerialSound(b, qs[..n], decode);
      ClientServed(h.backend, qs[n], decode, client, minute);
      LineServed(ClientLine(qs[..n], h.outcomes, client, minute), ClientAsk(qs[n], r.outcome, client, minute),
                 TokensAt(h.backend, x), TokensAt(r.backend, x));
      assert RunAll(b, qs, decode).outcomes[..n] == h.outcomes;
    }
  }

  lemma {:induction false} TargetLineFair(
      b: Backend, qs: seq<Query>, decode: string -> Option<string>, client: string, arn: string, minute: int)
    requires EmptyStore(b)
    ensures var h, scope := RunAll(b, qs, decode), "TARGET:" + client + ":" + arn;
            && |h.outcomes| == |qs|
            && Fair(TargetLine(qs, h.outcomes, scope, minute))
            && Oks(TargetLine(qs, h.outcomes, scope, minute)) == TokensAt(h.backend, Bucket(scope, minute))
  {
    var scope := "TARGET:" + client + ":" + arn;
    OutcomesCounted(b, qs, decode);
    if qs == [] {
      EmptyTokens(b, Bucket(scope, minute));
    } else {
      var n := |qs| - 1;
      var h, x := RunAll(b, qs[..n], decode), Bucket(scope, minute);
      var r := RunOn(h.backend, qs[n], decode);
      TargetLineFair(b, qs[..n], decode, client, arn, minute);
      SerialSound(b, qs[..n], decode);
      TargetServed(h.backend, qs[n], decode, client, arn, minute);
      LineServed(TargetLine(qs[..n], h.outcomes, scope, minute), TargetAsk(qs[n], r.outcome, scope, minute),
                 TokensAt(h.backend, x), TokensAt(r.backend, x));
      assert RunAll(b, qs, decode).outcomes[..n] == h.outcomes;
    }
  }

  /** The requests of an address in a minute that the first limiter lets pass, and how many ask it. */
  lemma {:induction false} IpBudget(
      b: Backend, qs: seq<Query>, decode: string -> Option<string>, ip: string, minute: int, cap: nat)
    requires EmptyStore(b)
    requires forall i :: 0 <= i < |qs| && AsksIp(qs[i], ip, minute) ==> qs[i].cc.ipRPM <= cap
    ensures var h := RunAll(b, qs, decode);
            && |h.outcomes| == |qs|
            && var line := IpLine(qs, h.outcomes, ip, minute);
               && Oks(line) <= cap
               && ((forall i :: 0 <= i < |qs| && AsksIp(qs[i], ip, minute) ==> qs[i].cc.ipRPM == cap) ==>
                     Oks(line) == Min(|line|, cap))
  {
    var h := RunAll(b, qs, decode);
    IpLineFair(b, qs, decode, ip, minute);
    var line := IpLine(qs, h.outcomes, ip, minute);
    IpLineCaps(qs, h.outcomes, ip, minute, cap);
    FairUnderLargest(line, cap);
    if forall i :: 0 <= i < |qs| && AsksIp(qs[i], ip, minute) ==> qs[i].cc.ipRPM == cap {
      FairExactly(line, cap);
    }
  }

  lemma {:induction false} IpLineCaps(qs: seq<Query>, os: seq<Outcome>, ip: string, minute: int, cap: nat)
    requires |qs| == |os|
    requires forall i :: 0 <= i < |qs| && AsksIp(qs[i], ip, minute) ==> qs[i].cc.ipRPM <= cap
    ensures forall i :: 0 <= i < |IpLine(qs, os, ip, minute)| ==> IpLine(qs, os, ip, minute)[i].cap <= cap
    ensures (forall i :: 0 <= i < |qs| && AsksIp(qs[i], ip, minute) ==> qs[i].cc.ipRPM == cap) ==>
              forall i :: 0 <= i < |IpLine(qs, os, ip, minute)| ==> IpLine(qs, os, ip, minute)[i].cap == cap
  {
    if qs != [] {
      IpLineCaps(qs[..|qs| - 1], os[..|qs| - 1], ip, minute, cap);
    }
  }

  lemma {:induction false} ClientBudget(
      b: Backend, qs: seq<Query>, decode: string -> Option<string>, client: string, minute: int, cap: nat)
    requires EmptyStore(b)
    requires forall i :: 0 <= i < |qs| && qs[i].client == client ==> qs[i].cc.clientRPM == cap
    ensures var h := RunAll(b, qs, decode);
            && |h.outcomes| == |qs|
            && var line := ClientLine(qs, h.outcomes, client, minute);
               Oks(line) == Min(|line|, cap)
  {
    var h := RunAll(b, qs, decode);
    ClientLineFair(b, qs, decode, client, minute);
    ClientLineCaps(qs, h.outcomes, client, minute, cap);
    FairExactly(ClientLine(qs, h.outcomes, client, minute), cap);
  }

  lemma {:induction false} ClientLineCaps(qs: seq<Query>, os: seq<Outcome>, client: string, minute: int, cap: nat)
    requires |qs| == |os|
    requires forall i :: 0 <= i < |qs| && qs[i].client == client ==> qs[i].cc.clientRPM == cap
    ensures CapsAre(ClientLine(qs, os, client, minute), cap)
  {
    if qs != [] {
      ClientLineCaps(qs[..|qs| - 1], os[..|qs| - 1], client, minute, cap);
    }
  }

  // ---------------------------------------------------------------- outcomes from history alone

  /** Both entry limiters have let the request pass. */
  predicate Entered(q: Query, o: Outcome) {
    PastIp(q, o) && !o.err.ClientLimited? && !(q.cc.clientRPM > 0 && q.faults.client)
  }

  /** The events committed for a client's field. */
  function Committed(qs: seq<Query>, os: seq<Outcome>, client: string, hash: nat): seq<Event>
    requires |qs| == |os|
  {
    if qs == [] then []
    else
      var n := |qs| - 1;
      var past := Committed(qs[..n], os[..n], client, hash);
      var q := qs[n];
      if q.client == client && q.hash == hash && Entered(q, os[n]) && Evaluates(q) && Commits(q, past)
      then past + [EventIn(q)] else past
  }

  /** The field has the same flapping settings in all requests. */
  predicate Steady(qs: seq<Query>, client: string, hash: nat, f: Option<FlapConfig>) {
    forall i :: 0 <= i < |qs| && qs[i].client == client && qs[i].hash == hash ==> qs[i].cc.flapping == f
  }

  lemma {:induction false} EnteredExactly(b: Backend, q: Query, decode: string -> Option<string>)
    requires Sound(b)
    ensures Entered(q, RunOn(b, q, decode).outcome) <==> Admitted(CountsOn(b, q), q)
  {
    ErrorsExactly(b, q, decode);
  }

  /** In every run of requests from an empty store, a row is the fold of the events committed for its field. */
  lemma {:induction false} SerialRows(
      b: Backend, qs: seq<Query>, decode: string -> Option<string>, client: string, hash: nat, f: Option<FlapConfig>)
    requires EmptyStore(b) && Steady(qs, client, hash, f)
    ensures var h := RunAll(b, qs, decode);
            && |h.outcomes| == |qs|
            && RowAt(h.backend, client, ScopeKey(hash))
               == C.RowOf(f, ScopeKey(hash), Committed(qs, h.outcomes, client, hash))
  {
    OutcomesCounted(b, qs, decode);
    if qs != [] {
      var n := |qs| - 1;
      var q, h := qs[n], RunAll(b, qs[..n], decode);
      SerialRows(b, qs[..n], decode, client, hash, f);
      SerialSound(b, qs[..n], decode);
      assert RunAll(b, qs, decode).outcomes[..n] == h.outcomes;
      if q.client == client && q.hash == hash {
        RunKeepsFold(h.backend, q, Committed(qs[..n], h.outcomes, client, hash), decode);
        EnteredExactly(h.backend, q, decode);
      } else {
        RequestAccounting(h.backend, q, decode);
      }
    }
  }

  /** The counts that the requests so far have left for the next. */
  function CountsAfter(qs: seq<Query>, os: seq<Outcome>, q: Query): Counts
    requires |qs| == |os|
  {
    Counts(Oks(IpLine(qs, os, q.ip, Minute(q.clock.ip))),
           Oks(ClientLine(qs, os, q.client, Minute(q.clock.client))),
           Oks(TargetLine(qs, os, "TARGET:" + q.client + ":" + q.cc.snsArn, Minute(q.clock.target))))
  }

  /**
   * Every outcome of every run of requests on either store is a function of the requests and outcomes
   * before it: who asked which limiter and got through, and which events were committed for the field.
   */
  lemma {:induction false} HistoryDecides(b: Backend, qs: seq<Query>, q: Query, decode: string -> Option<string>)
    requires EmptyStore(b) && Steady(qs, q.client, q.hash, q.cc.flapping)
    ensures var h := RunAll(b, qs, decode);
            && |h.outcomes| == |qs|
            && var n := CountsAfter(qs, h.outcomes, q);
               var past := Committed(qs, h.outcomes, q.client, q.hash);
               var o := RunOn(h.backend, q, decode).outcome;
               ReportOf(o) == Report(n, q, past) && BodySays(o.body, Admitted(n, q), q, past, decode)
  {
    var h := RunAll(b, qs, decode);
    SerialSound(b, qs, decode);
    SerialRows(b, qs, decode, q.client, q.hash, q.cc.flapping);
    IpLineFair(b, qs, decode, q.ip, Minute(q.clock.ip));
    ClientLineFair(b, qs, decode, q.client, Minute(q.clock.client));
    TargetLineFair(b, qs, decode, q.client, q.cc.snsArn, Minute(q.clock.target));
    OutcomeExactly(h.backend, q, Committed(qs, h.outcomes, q.client, q.hash), decode);
  }
}
