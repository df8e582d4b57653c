/** The names under which rows and counters are stored, and why they never clash. */
module Keys {

  // ---------------------------------------------------------------- decimal numbers

  function Digit(d: nat): char
    requires d < 10
  {
    "0123456789"[d]
  }

  function Digits(n: nat): string {
    if n < 10 then [Digit(n)] else Digits(n / 10) + [Digit(n % 10)]
  }

  /** The decimal form of an integer, as `%d` prints it. */
  function Decimal(n: int): string {
    if n < 0 then "-" + Digits(-n) else Digits(n)
  }

  function DigitValue(c: char): nat {
    if '0' <= c <= '9' then c as nat - '0' as nat else 0
  }

  function ParseDigits(s: string): nat {
    if s == "" then 0 else 10 * ParseDigits(s[..|s| - 1]) + DigitValue(s[|s| - 1])
  }

  lemma {:induction false} DigitRoundTrip(d: nat)
    requires d < 10
    ensures DigitValue(Digit(d)) == d && Digit(d) != '_' && Digit(d) != '-'
  {
  }

  lemma {:induction false} DigitsRoundTrip(n: nat)
    ensures ParseDigits(Digits(n)) == n
    ensures Digits(n) != "" && '_' !in Digits(n) && '-' !in Digits(n)
  {
    DigitRoundTrip(n % 10);
    if n < 10 {
      assert [Digit(n)][..0] == "";
    } else {
      DigitsRoundTrip(n / 10);
      assert Digits(n)[..|Digits(n)| - 1] == Digits(n / 10);
    }
  }

  lemma {:induction false} DecimalInjective(m: int, n: int)
    ensures '_' !in Decimal(m)
    ensures Decimal(m) == Decimal(n) ==> m == n
  {
    DigitsRoundTrip(if m < 0 then -m else m);
    DigitsRoundTrip(if n < 0 then -n else n);
    assert m >= 0 ==> Decimal(m)[0] in Digits(m);
    assert n >= 0 ==> Decimal(n)[0] in Digits(n);
    if m < 0 && n < 0 {
      assert Decimal(m)[1..] == Digits(-m) && Decimal(n)[1..] == Digits(-n);
    }
  }

  // ---------------------------------------------------------------- names made of two parts

  /** If the first part is shorter than that of an equal name, the second part holds the separator. */
  lemma {:induction false} SeparatorInside(a: string, b: string, a': string, b': string, sep: char)
    requires a + [sep] + b == a' + [sep] + b' && |a| < |a'|
    ensures sep in b
  {
    var s := a + [sep] + b;
    assert s[|a'|] == sep && s[|a'|] == b[|a'| - |a| - 1];
  }

  /** Two names with the same separator and a second part free of it have the same parts. */
  lemma {:induction false} SplitAtLast(a: string, b: string, a': string, b': string, sep: char)
    requires a + [sep] + b == a' + [sep] + b' && sep !in b && sep !in b'
    ensures a == a' && b == b'
  {
    if |a| < |a'| {
      SeparatorInside(a, b, a', b', sep);
      assert false;
    }
    if |a'| < |a| {
      SeparatorInside(a', b', a, b, sep);
      assert false;
    }
    var s := a + [sep] + b;
    assert s[..|a|] == a && s[..|a|] == a';
    assert s[|a| + 1..] == b && s[|a| + 1..] == b';
  }

  // ---------------------------------------------------------------- Redis keys

  /** The scope key of a trigger field: "e" and the decimal form of a hash. */
  function ScopeKey(hash: nat): string {
    "e" + Digits(hash)
  }

  function DataKey(client: string, scope: string): string {
    "_enoti_data_" + client + "_s" + scope
  }

  function WindowKey(scope: string, minute: int): string {
    "_enoti_rwin_" + scope + "_" + Decimal(minute)
  }

  /** Redis keeps the rows of different clients and fields apart, whatever the client IDs. */
  lemma {:induction false} DataKeysInjective(client: string, hash: nat, client': string, hash': nat)
    requires DataKey(client, ScopeKey(hash)) == DataKey(client', ScopeKey(hash'))
    ensures client == client' && ScopeKey(hash) == ScopeKey(hash') && hash == hash'
  {
    DigitsRoundTrip(hash);
    DigitsRoundTrip(hash');
    var k := DataKey(client, ScopeKey(hash));
    assert k[12..] == client + ['_'] + ("s" + ScopeKey(hash));
    assert k[12..] == client' + ['_'] + ("s" + ScopeKey(hash'));
    SplitAtLast(client, "s" + ScopeKey(hash), client', "s" + ScopeKey(hash'), '_');
    assert ("s" + ScopeKey(hash))[1..] == ScopeKey(hash) && ScopeKey(hash)[1..] == Digits(hash);
    assert ("s" + ScopeKey(hash'))[1..] == ScopeKey(hash') && ScopeKey(hash')[1..] == Digits(hash');
  }

  /** Redis keeps the counters of different scopes and minutes apart, whatever the scope strings. */
  lemma {:induction false} WindowKeysInjective(scope: string, minute: int, scope': string, minute': int)
    requires WindowKey(scope, minute) == WindowKey(scope', minute')
    ensures scope == scope' && minute == minute'
  {
    var k := WindowKey(scope, minute);
    assert k[12..] == scope + ['_'] + Decimal(minute);
    assert k[12..] == scope' + ['_'] + Decimal(minute');
    DecimalInjective(minute, minute');
    DecimalInjective(minute', minute);
    SplitAtLast(scope, Decimal(minute), scope', Decimal(minute'), '_');
  }

  /** Rows and counters never share a key. */
  lemma {:induction false} RedisFamiliesDisjoint(client: string, scope: string, bucket: string, minute: int)
    ensures !("_enoti_rwin_" <= DataKey(client, scope))
    ensures "_enoti_rwin_" <= WindowKey(bucket, minute)
    ensures DataKey(client, scope) != WindowKey(bucket, minute)
  {
    assert DataKey(client, scope)[7] == 'd';
    assert "_enoti_rwin_"[7] == 'r';
  }

  lemma {:induction false} DataKeyTail(client: string, scope: string, client': string, scope': string)
    ensures DataKey(client, scope) == DataKey(client', scope')
       <==> client + "_s" + scope == client' + "_s" + scope'
  {
    var k, k' := DataKey(client, scope), DataKey(client', scope');
    assert k[12..] == client + "_s" + scope && k'[12..] == client' + "_s" + scope';
    assert k == k[..12] + k[12..] && k' == k'[..12] + k'[12..] && k[..12] == k'[..12];
  }

  lemma {:induction false} AbsorbedStart(a: string, s: string, b: string, s': string) returns (x: string)
    requires |a| < |b| && a + "_s" + s == b + "_s" + s'
    ensures b == a + "_s" + x && s == x + "_s" + s'
  {
    var t, n, m := a + "_s" + s, |a|, |b|;
    assert t[n] == '_' && t[n + 1] == 's';
    assert t[m] == '_' && t[m + 1] == 's';
    assert t[..m] == b && t[..n] == a;
    assert t[n + 2..] == s && t[m + 2..] == s';
    x := b[n + 2..];
  }

  /**
   * For scope keys of any form, the rows of two clients share a key exactly when the longer client ID
   * absorbs the start of the other's scope.
   */
  lemma {:induction false} DataKeysCollideExactly(client: string, scope: string, client': string, scope': string)
    requires |client| < |client'|
    ensures DataKey(client, scope) == DataKey(client', scope')
            <==> exists x :: client' == client + "_s" + x && scope == x + "_s" + scope'
  {
    DataKeyTail(client, scope, client', scope');
    if DataKey(client, scope) == DataKey(client', scope') {
      var x := AbsorbedStart(client, scope, client', scope');
    }
    forall x | client' == client + "_s" + x && scope == x + "_s" + scope'
      ensures client + "_s" + scope == client' + "_s" + scope'
    {
    }
  }

  // ---------------------------------------------------------------- DynamoDB keys

  datatype ItemKey = ItemKey(pk: string, sk: string)

  function EdgeItemKey(client: string, scope: string): ItemKey {
    ItemKey("CLIENT#" + client, "EDGE#" + scope)
  }

  function RateItemKey(scope: string, minute: int): ItemKey {
    ItemKey("RATE#" + scope, "WIN#" + Decimal(minute))
  }

  lemma {:induction false} EdgeItemKeysInjective(client: string, scope: string, client': string, scope': string)
    requires EdgeItemKey(client, scope) == EdgeItemKey(client', scope')
    ensures client == client' && scope == scope'
  {
    assert EdgeItemKey(client, scope).pk[7..] == client && EdgeItemKey(client', scope').pk[7..] == client';
    assert EdgeItemKey(client, scope).sk[5..] == scope && EdgeItemKey(client', scope').sk[5..] == scope';
  }

  lemma {:induction false} RateItemKeysInjective(scope: string, minute: int, scope': string, minute': int)
    requires RateItemKey(scope, minute) == RateItemKey(scope', minute')
    ensures scope == scope' && minute == minute'
  {
    assert RateItemKey(scope, minute).pk[5..] == scope && RateItemKey(scope', minute').pk[5..] == scope';
    assert RateItemKey(scope, minute).sk[4..] == Decimal(minute);
    assert RateItemKey(scope', minute').sk[4..] == Decimal(minute');
    DecimalInjective(minute, minute');
  }

  lemma {:induction false} DdbFamiliesDisjoint(client: string, scope: string, bucket: string, minute: int)
    ensures !("RATE#" <= EdgeItemKey(client, scope).pk)
    ensures "RATE#" <= RateItemKey(bucket, minute).pk
  {
    assert EdgeItemKey(client, scope).pk[0] == 'C';
  }

  // ---------------------------------------------------------------- scopes of the limiters

  function IpScope(ip: string): string { "IP:" + ip }

  function ClientScope(client: string): string { "CLIENT:" + client }

  function TargetScope(client: string, arn: string): string {
    "TARGET:" + client + ":" + arn
  }

  /** The three limiters of one request never share a counter. */
  lemma {:induction false} ScopesDistinct(ip: string, client: string, client': string, arn: string)
    ensures IpScope(ip) != ClientScope(client)
    ensures IpScope(ip) != TargetScope(client', arn)
    ensures ClientScope(client) != TargetScope(client', arn)
  {
    assert IpScope(ip)[0] == 'I' && ClientScope(client)[0] == 'C' && TargetScope(client', arn)[0] == 'T';
  }

  lemma {:induction false} TargetScopeTail(client: string, arn: string, client': string, arn': string)
    ensures TargetScope(client, arn) == TargetScope(client', arn')
       <==> client + ":" + arn == client' + ":" + arn'
  {
    var k, k' := TargetScope(client, arn), TargetScope(client', arn');
    assert k[7..] == client + ":" + arn && k'[7..] == client' + ":" + arn';
    assert k == k[..7] + k[7..] && k' == k'[..7] + k'[7..] && k[..7] == k'[..7];
  }

  lemma {:induction false} AbsorbedColon(a: string, s: string, b: string, s': string) returns (x: string)
    requires |a| < |b| && a + ":" + s == b + ":" + s'
    ensures b == a + ":" + x && s == x + ":" + s' && ':' in b
  {
    var t, n, m := a + ":" + s, |a|, |b|;
    assert t[n] == ':' && t[m] == ':';
    assert t[..m] == b && t[..n] == a && b[n] == ':';
    assert t[n + 1..] == s && t[m + 1..] == s';
    x := b[n + 1..];
  }

  /**
   * Two clients share a target counter exactly when the longer client ID extends the other by a colon
   * and the start of its ARN; so clients whose IDs have no colon never do.
   */
  lemma {:induction false} TargetScopesCollideExactly(client: string, arn: string, client': string, arn': string)
    requires |client| < |client'|
    ensures TargetScope(client, arn) == TargetScope(client', arn')
            <==> exists x :: client' == client + ":" + x && arn == x + ":" + arn'
    ensures ':' !in client' ==> TargetScope(client, arn) != TargetScope(client', arn')
  {
    TargetScopeTail(client, arn, client', arn');
    if TargetScope(client, arn) == TargetScope(client', arn') {
      var x := AbsorbedColon(client, arn, client', arn');
    }
    forall x | client' == client + ":" + x && arn == x + ":" + arn'
      ensures client + ":" + arn == client' + ":" + arn'
    {
    }
  }

  lemma {:induction false} DigitsSpelled()
    ensures Digits(7) == "7" && Digits(42) == "42"
  {
    assert Digits(4) == "4";
    assert Digits(42) == Digits(4) + [Digit(2)];
  }

  /** Keys and scopes of one client, field, address and minute, as they are stored. */
  lemma {:induction false} KeysSpelled()
    ensures ScopeKey(42) == "e42" && Decimal(-7) == "-7"
    ensures DataKey("acme", "e42") == "_enoti_data_acme_se42"
    ensures EdgeItemKey("acme", "e42") == ItemKey("CLIENT#acme", "EDGE#e42")
    ensures IpScope("::1") == "IP:::1" && ClientScope("acme") == "CLIENT:acme"
    ensures TargetScope("acme", "arn") == "TARGET:acme:arn"
  {
    DigitsSpelled();
  }

  lemma {:induction false} CounterKeysSpelled()
    ensures WindowKey("IP:::1", 42) == "_enoti_rwin_IP:::1_42"
    ensures RateItemKey("IP:::1", 42) == ItemKey("RATE#IP:::1", "WIN#42")
  {
    DigitsSpelled();
  }
}
