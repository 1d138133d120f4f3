/** The desired configuration of an MTProto inbound and its two fingerprints. */
module MtprotoConfig {
  import opened Collections
  import opened Text
  import Decimal
  import Sorting

  datatype Secret = Secret(name: Bytes, secret: Bytes, adTag: Bytes, quotaBytes: int, expiresUnix: int)

  datatype Instance = Instance(
    id: int, tag: Bytes, listen: Bytes, port: int, secrets: seq<Secret>,
    debug: bool, proxyProtocolListener: bool, preferIP: Bytes,
    frontingIP: Bytes, frontingPort: int, frontingProxyProtocol: bool,
    throttleMaxConnections: int, publicIPv4: Bytes, publicIPv6: Bytes,
    routeThroughXray: bool, xrayRoutePort: int)

  /** What the manager compares: the id, the tag and the fingerprints of an instance. */
  datatype Wanted = Wanted(id: int, tag: Bytes, structuralFP: Bytes, secretsFP: Bytes)

  function FormatInt(n: int): Bytes {
    if n < 0 then "-" + Decimal.Itoa(-n) else Decimal.Itoa(n)
  }

  function FormatBool(b: bool): Bytes {
    if b then "true" else "false"
  }

  function Address(listen: Bytes): Bytes {
    if listen == [] then "0.0.0.0" else listen
  }

  function BindTo(i: Instance): Bytes {
    Address(i.listen) + ":" + FormatInt(i.port)
  }

  function StructuralParts(i: Instance): seq<Bytes> {
    [BindTo(i), FormatBool(i.debug), FormatBool(i.proxyProtocolListener), i.preferIP,
     i.frontingIP, FormatInt(i.frontingPort), FormatBool(i.frontingProxyProtocol),
     FormatInt(i.throttleMaxConnections), FormatBool(i.routeThroughXray),
     FormatInt(i.xrayRoutePort), i.publicIPv4, i.publicIPv6]
  }

  function StructuralFingerprint(i: Instance): Bytes {
    Join(StructuralParts(i), "|")
  }

  function SecretText(s: Secret): Bytes {
    s.name + "=" + s.secret + ";tag=" + s.adTag + ";q=" + FormatInt(s.quotaBytes) + ";exp=" + FormatInt(s.expiresUnix)
  }

  function SecretTexts(secrets: seq<Secret>): seq<Bytes>
    decreases |secrets|
  {
    if secrets == [] then [] else SecretTexts(secrets[..|secrets| - 1]) + [SecretText(secrets[|secrets| - 1])]
  }

  function SecretsFingerprint(secrets: seq<Secret>): Bytes {
    Join(Sorting.Sort(SecretTexts(secrets)), "|")
  }

  function WantedOf(i: Instance): Wanted {
    Wanted(i.id, i.tag, StructuralFingerprint(i), SecretsFingerprint(i.secrets))
  }

  lemma {:induction false} TextsSnoc(rest: seq<Secret>, s: Secret)
    ensures SecretTexts(rest + [s]) == SecretTexts(rest) + [SecretText(s)]
  {
    assert (rest + [s])[..|rest|] == rest;
  }

  method ComputeWanted(i: Instance) returns (w: Wanted)
    ensures w == WantedOf(i)
  {
    var pairs: seq<Bytes> := [];
    for k := 0 to |i.secrets|
      invariant pairs == SecretTexts(i.secrets[..k])
    {
      TakeOneMore(i.secrets, k + 1);
      TextsSnoc(i.secrets[..k], i.secrets[k]);
      pairs := pairs + [SecretText(i.secrets[k])];
    }
    assert i.secrets[..|i.secrets|] == i.secrets;
    w := Wanted(i.id, i.tag, StructuralFingerprint(i), Join(Sorting.Sort(pairs), "|"));
  }

  // ---------------------------------------------------------------- order does not matter

  lemma {:induction false} SnocMultiset<T>(s: seq<T>, x: T)
    ensures multiset(s + [x]) == multiset(s) + multiset{x}
  {
  }

  lemma {:induction false} TextsWithout(secrets: seq<Secret>, k: nat)
    requires k < |secrets|
    ensures multiset(SecretTexts(secrets)) ==
      multiset{SecretText(secrets[k])} + multiset(SecretTexts(Omit(secrets, k)))
    decreases |secrets|
  {
    var n := |secrets| - 1;
    var start, last := secrets[..n], secrets[n];
    SnocMultiset(SecretTexts(start), SecretText(last));
    if k == n {
      assert Omit(secrets, k) == start;
    } else {
      TextsWithout(start, k);
      WithoutSnoc(secrets, k);
      TextsSnoc(Omit(start, k), last);
      SnocMultiset(SecretTexts(Omit(start, k)), SecretText(last));
    }
  }

  function Omit<T>(s: seq<T>, k: nat): seq<T>
    requires k < |s|
  {
    s[..k] + s[k + 1..]
  }

  lemma {:induction false} WithoutSnoc<T>(s: seq<T>, k: nat)
    requires k < |s| - 1
    ensures Omit(s, k) == Omit(s[..|s| - 1], k) + [s[|s| - 1]]
  {
  }

  lemma {:induction false} RemoveOne<T>(s: seq<T>, k: nat)
    requires k < |s|
    ensures multiset(Omit(s, k)) == multiset(s) - multiset{s[k]}
  {
    assert s == s[..k] + [s[k]] + s[k + 1..];
  }

  lemma {:induction false} SameTexts(a: seq<Secret>, b: seq<Secret>)
    requires multiset(a) == multiset(b)
    ensures multiset(SecretTexts(a)) == multiset(SecretTexts(b))
    decreases |a|
  {
    assert |a| == |multiset(a)| == |multiset(b)| == |b|;
    if a != [] {
      assert a[0] in multiset(b);
      var k :| 0 <= k < |b| && b[k] == a[0];
      RemoveOne(a, 0);
      RemoveOne(b, k);
      SameTexts(Omit(a, 0), Omit(b, k));
      TextsWithout(a, 0);
      TextsWithout(b, k);
    }
  }

  /** Reordering the secrets changes neither fingerprint. */
  lemma {:induction false} OrderIsNoChange(i: Instance, secrets: seq<Secret>)
    requires multiset(secrets) == multiset(i.secrets)
    ensures WantedOf(i.(secrets := secrets)) == WantedOf(i)
  {
    SameTexts(secrets, i.secrets);
    Sorting.SortForgetsOrder(SecretTexts(secrets), SecretTexts(i.secrets));
  }

  // ---------------------------------------------------------------- what a fingerprint tells apart

  lemma {:induction false} FormatIntTells(a: int, b: int)
    ensures FormatInt(a) == FormatInt(b) <==> a == b
    ensures forall c | c in FormatInt(a) :: c == '-' || '0' <= c <= '9'
  {
    Decimal.ItoaReadsBack(if a < 0 then -a else a);
    Decimal.ItoaReadsBack(if b < 0 then -b else b);
    SignTells(a, b);
  }

  lemma {:induction false} SignTells(a: int, b: int)
    ensures FormatInt(a) == FormatInt(b) ==> (a < 0 <==> b < 0)
    ensures FormatInt(a) == FormatInt(b) && a < 0 ==> Decimal.Itoa(-a) == Decimal.Itoa(-b)
  {
    Decimal.ItoaReadsBack(if a < 0 then -a else a);
    Decimal.ItoaReadsBack(if b < 0 then -b else b);
    if a < 0 {
      assert FormatInt(a)[0] == '-' && FormatInt(a)[1..] == Decimal.Itoa(-a);
    } else {
      assert FormatInt(a)[0] in Decimal.Itoa(a);
    }
    if b < 0 {
      assert FormatInt(b)[0] == '-' && FormatInt(b)[1..] == Decimal.Itoa(-b);
    } else {
      assert FormatInt(b)[0] in Decimal.Itoa(b);
    }
  }

  lemma {:induction false} FormatBoolTells(a: bool, b: bool)
    ensures FormatBool(a) == FormatBool(b) <==> a == b
  {
    assert |FormatBool(a)| == if a then 4 else 5;
    assert |FormatBool(b)| == if b then 4 else 5;
  }

  lemma {:induction false} CutIsLast(a: Bytes, x: Bytes, c: Byte)
    requires c !in x
    ensures (a + [c] + x)[|a|] == c && forall k | |a| < k < |a + [c] + x| :: (a + [c] + x)[k] != c
  {
  }

  /** A separator that is in neither of the ends can only be cut at in one way. */
  lemma {:induction false} LastCut(a: Bytes, x: Bytes, b: Bytes, y: Bytes, c: Byte)
    requires a + [c] + x == b + [c] + y && c !in x && c !in y
    ensures a == b && x == y
  {
    CutIsLast(a, x, c);
    CutIsLast(b, y, c);
    var s := a + [c] + x;
    assert s[..|a|] == a && s[|a| + 1..] == x;
    assert s[..|b|] == b && s[|b| + 1..] == y;
  }

  lemma {:induction false} FirstCut(a: Bytes, x: Bytes, b: Bytes, y: Bytes, c: Byte)
    requires a + [c] + x == b + [c] + y && c !in a && c !in b
    ensures a == b && x == y
  {
    IndexByteAfter(a, c, x);
    IndexByteAfter(b, c, y);
    assert (a + [c] + x)[..|a|] == a && (b + [c] + y)[..|b|] == b;
    assert (a + [c] + x)[|a| + 1..] == x && (b + [c] + y)[|b| + 1..] == y;
  }

  lemma {:induction false} BindTells(i: Instance, j: Instance)
    ensures BindTo(i) == BindTo(j) <==> Address(i.listen) == Address(j.listen) && i.port == j.port
  {
    FormatIntTells(i.port, j.port);
    FormatIntTells(j.port, i.port);
    if BindTo(i) == BindTo(j) {
      LastCut(Address(i.listen), FormatInt(i.port), Address(j.listen), FormatInt(j.port), ':');
    }
  }

  lemma {:induction false} SameEnd(a: Bytes, b: Bytes, tail: Bytes)
    requires a + tail == b + tail
    ensures a == b
  {
    assert |a| == |b|;
    assert (a + tail)[..|a|] == a && (b + tail)[..|a|] == b;
  }

  lemma {:induction false} SameStart(head: Bytes, a: Bytes, b: Bytes)
    requires head + a == head + b
    ensures a == b
  {
    assert (head + a)[|head|..] == a && (head + b)[|head|..] == b;
  }

  /** Whatever the parts hold: a joined list changes with any single part. */
  lemma {:induction false} JoinTellsOne(parts: seq<Bytes>, k: nat, x: Bytes, sep: Bytes)
    requires k < |parts| && parts[k] != x
    ensures Join(parts[k := x], sep) != Join(parts, sep)
    decreases |parts|
  {
    var now := parts[k := x];
    if |parts| == 1 {
    } else if k == 0 {
      assert now[1..] == parts[1..];
      var tail := sep + Join(parts[1..], sep);
      assert Join(now, sep) == x + tail && Join(parts, sep) == parts[0] + tail;
      if x + tail == parts[0] + tail {
        SameEnd(x, parts[0], tail);
      }
    } else {
      assert now[1..] == parts[1..][k - 1 := x];
      JoinTellsOne(parts[1..], k - 1, x, sep);
      var head := parts[0] + sep;
      if Join(now, sep) == Join(parts, sep) {
        SameStart(head, Join(now[1..], sep), Join(parts[1..], sep));
      }
    }
  }

  /** Which of the values that only a restart applies differ. */
  function Differences(i: Instance, j: Instance): seq<bool> {
    [Address(i.listen) != Address(j.listen) || i.port != j.port, i.debug != j.debug,
     i.proxyProtocolListener != j.proxyProtocolListener, i.preferIP != j.preferIP,
     i.frontingIP != j.frontingIP, i.frontingPort != j.frontingPort,
     i.frontingProxyProtocol != j.frontingProxyProtocol,
     i.throttleMaxConnections != j.throttleMaxConnections, i.routeThroughXray != j.routeThroughXray,
     i.xrayRoutePort != j.xrayRoutePort, i.publicIPv4 != j.publicIPv4, i.publicIPv6 != j.publicIPv6]
  }

  lemma {:induction false} PartsTell(i: Instance, j: Instance, k: nat)
    requires k < 12
    ensures StructuralParts(i)[k] != StructuralParts(j)[k] <==> Differences(i, j)[k]
  {
    if k == 0 {
      BindTells(i, j);
    } else if k in {1, 2, 6, 8} {
      SwitchesTell(i, j, k);
    } else if k in {5, 7, 9} {
      NumbersTell(i, j, k);
    }
  }

  lemma {:induction false} SwitchesTell(i: Instance, j: Instance, k: nat)
    requires k in {1, 2, 6, 8}
    ensures StructuralParts(i)[k] != StructuralParts(j)[k] <==> Differences(i, j)[k]
  {
    if k == 1 {
      FormatBoolTells(i.debug, j.debug);
    } else if k == 2 {
      FormatBoolTells(i.proxyProtocolListener, j.proxyProtocolListener);
    } else if k == 6 {
      FormatBoolTells(i.frontingProxyProtocol, j.frontingProxyProtocol);
    } else {
      FormatBoolTells(i.routeThroughXray, j.routeThroughXray);
    }
  }

  lemma {:induction false} NumbersTell(i: Instance, j: Instance, k: nat)
    requires k in {5, 7, 9}
    ensures StructuralParts(i)[k] != StructuralParts(j)[k] <==> Differences(i, j)[k]
  {
    FormatIntTells(i.frontingPort, j.frontingPort);
    FormatIntTells(i.throttleMaxConnections, j.throttleMaxConnections);
    FormatIntTells(i.xrayRoutePort, j.xrayRoutePort);
  }

  /** A change of one of the values alone is seen, whatever the others hold. */
  lemma {:induction false} OneChangeIsSeen(i: Instance, j: Instance, k: nat)
    requires k < 12 && Differences(i, j)[k] && forall m | 0 <= m < 12 && m != k :: !Differences(i, j)[m]
    ensures StructuralFingerprint(i) != StructuralFingerprint(j)
  {
    var a, b := StructuralParts(i), StructuralParts(j);
    forall m | 0 <= m < 12
      ensures a[m] != b[m] <==> m == k
    {
      PartsTell(i, j, m);
    }
    assert b == a[k := b[k]];
    JoinTellsOne(a, k, b[k], "|");
  }

  /** No listen address means all of them, which is no change; any other one is. */
  lemma {:induction false} NoAddressIsAny(i: Instance, listen: Bytes)
    ensures StructuralFingerprint(i.(listen := [])) == StructuralFingerprint(i.(listen := "0.0.0.0"))
    ensures listen != [] && i.listen != [] && listen != i.listen ==>
      StructuralFingerprint(i.(listen := listen)) != StructuralFingerprint(i)
  {
    assert StructuralParts(i.(listen := [])) == StructuralParts(i.(listen := "0.0.0.0"));
    if listen != [] && i.listen != [] && listen != i.listen {
      OneChangeIsSeen(i.(listen := listen), i, 0);
    }
  }

  predicate NoBar(i: Instance) {
    '|' !in i.listen && '|' !in i.preferIP && '|' !in i.frontingIP && '|' !in i.publicIPv4 && '|' !in i.publicIPv6
  }

  /** All that only a restart would apply is the same. */
  ghost predicate SameStructure(i: Instance, j: Instance) {
    forall k | 0 <= k < 12 :: !Differences(i, j)[k]
  }

  lemma {:induction false} SamePartsIs(i: Instance, j: Instance)
    ensures StructuralParts(i) == StructuralParts(j) <==> SameStructure(i, j)
  {
    forall k | 0 <= k < 12
      ensures StructuralParts(i)[k] != StructuralParts(j)[k] <==> Differences(i, j)[k]
    {
      PartsTell(i, j, k);
    }
  }

  lemma {:induction false} NoBarInParts(i: Instance)
    requires NoBar(i)
    ensures forall p | p in StructuralParts(i) :: '|' !in p
  {
    FormatIntTells(i.port, 0);
    FormatIntTells(i.frontingPort, 0);
    FormatIntTells(i.throttleMaxConnections, 0);
    FormatIntTells(i.xrayRoutePort, 0);
    assert '|' !in BindTo(i);
  }

  /** As long as no address holds the separator, the fingerprint is that of the structure: equal for
      equal ones and different for different ones. */
  lemma {:induction false} StructureIsFingerprinted(i: Instance, j: Instance)
    requires NoBar(i) && NoBar(j)
    ensures StructuralFingerprint(i) == StructuralFingerprint(j) <==> SameStructure(i, j)
  {
    NoBarInParts(i);
    NoBarInParts(j);
    SplitJoin(StructuralParts(i), '|');
    SplitJoin(StructuralParts(j), '|');
    SamePartsIs(i, j);
  }

  // ---------------------------------------------------------------- the same for secrets

  /** Strings that hold none of the marks a secret is written with. */
  predicate Plain(s: Secret) {
    && '|' !in s.name && '|' !in s.secret && '|' !in s.adTag
    && '=' !in s.name && ';' !in s.secret && ';' !in s.adTag
  }

  lemma {:induction false} LimitsTell(s: Secret, t: Secret)
    requires FormatInt(s.quotaBytes) + ";exp=" + FormatInt(s.expiresUnix) == FormatInt(t.quotaBytes) + ";exp=" + FormatInt(t.expiresUnix)
    ensures s.quotaBytes == t.quotaBytes && s.expiresUnix == t.expiresUnix
  {
    FormatIntTells(s.quotaBytes, t.quotaBytes);
    FormatIntTells(t.quotaBytes, s.quotaBytes);
    FormatIntTells(s.expiresUnix, t.expiresUnix);
    var x, y := "exp=" + FormatInt(s.expiresUnix), "exp=" + FormatInt(t.expiresUnix);
    assert FormatInt(s.quotaBytes) + ";exp=" + FormatInt(s.expiresUnix) == FormatInt(s.quotaBytes) + [';'] + x;
    assert FormatInt(t.quotaBytes) + ";exp=" + FormatInt(t.expiresUnix) == FormatInt(t.quotaBytes) + [';'] + y;
    FirstCut(FormatInt(s.quotaBytes), x, FormatInt(t.quotaBytes), y, ';');
    SameStart("exp=", FormatInt(s.expiresUnix), FormatInt(t.expiresUnix));
  }

  function Limits(s: Secret): Bytes {
    "q=" + (FormatInt(s.quotaBytes) + ";exp=" + FormatInt(s.expiresUnix))
  }

  function TagAndLimits(s: Secret): Bytes {
    "tag=" + (s.adTag + [';'] + Limits(s))
  }

  lemma {:induction false} TextIs(s: Secret)
    ensures SecretText(s) == s.name + ['='] + (s.secret + [';'] + TagAndLimits(s))
  {
  }

  lemma {:induction false} TextTells(s: Secret, t: Secret)
    requires Plain(s) && Plain(t) && SecretText(s) == SecretText(t)
    ensures s == t
  {
    TextIs(s);
    TextIs(t);
    FirstCut(s.name, s.secret + [';'] + TagAndLimits(s), t.name, t.secret + [';'] + TagAndLimits(t), '=');
    FirstCut(s.secret, TagAndLimits(s), t.secret, TagAndLimits(t), ';');
    TagAndLimitsTell(s, t);
  }

  lemma {:induction false} TagAndLimitsTell(s: Secret, t: Secret)
    requires ';' !in s.adTag && ';' !in t.adTag && TagAndLimits(s) == TagAndLimits(t)
    ensures s.adTag == t.adTag && s.quotaBytes == t.quotaBytes && s.expiresUnix == t.expiresUnix
  {
    SameStart("tag=", s.adTag + [';'] + Limits(s), t.adTag + [';'] + Limits(t));
    FirstCut(s.adTag, Limits(s), t.adTag, Limits(t), ';');
    SameStart("q=", FormatInt(s.quotaBytes) + ";exp=" + FormatInt(s.expiresUnix),
              FormatInt(t.quotaBytes) + ";exp=" + FormatInt(t.expiresUnix));
    LimitsTell(s, t);
  }

  lemma {:induction false} TextsCount(secrets: seq<Secret>)
    ensures |SecretTexts(secrets)| == |secrets|
    decreases |secrets|
  {
    if secrets != [] {
      TextsCount(secrets[..|secrets| - 1]);
    }
  }

  lemma {:induction false} FindText(secrets: seq<Secret>, text: Bytes) returns (k: nat)
    requires text in SecretTexts(secrets)
    ensures k < |secrets| && SecretText(secrets[k]) == text
    decreases |secrets|
  {
    var n := |secrets| - 1;
    if text == SecretText(secrets[n]) {
      k := n;
    } else {
      k := FindText(secrets[..n], text);
    }
  }

  ghost predicate AllPlain(secrets: seq<Secret>) {
    forall s | s in secrets :: Plain(s)
  }

  lemma {:induction false} TextHasNoBar(s: Secret)
    requires Plain(s)
    ensures '|' !in SecretText(s) && SecretText(s) != []
  {
    FormatIntTells(s.quotaBytes, 0);
    FormatIntTells(s.expiresUnix, 0);
  }

  lemma {:induction false} TextsHaveNoBar(secrets: seq<Secret>)
    requires AllPlain(secrets)
    ensures |SecretTexts(secrets)| == |secrets|
    ensures forall p | p in SecretTexts(secrets) :: '|' !in p && p != []
    decreases |secrets|
  {
    if secrets != [] {
      TextsHaveNoBar(secrets[..|secrets| - 1]);
      TextHasNoBar(secrets[|secrets| - 1]);
    }
  }

  /** From the joined text back to the texts, in whatever order they were. */
  lemma {:induction false} FingerprintTellsTexts(a: seq<Bytes>, b: seq<Bytes>)
    requires Join(Sorting.Sort(a), "|") == Join(Sorting.Sort(b), "|")
    requires (forall p | p in a :: '|' !in p && p != []) && (forall p | p in b :: '|' !in p && p != [])
    ensures multiset(a) == multiset(b)
  {
    Sorting.SortSorts(a);
    Sorting.SortSorts(b);
    var x, y := Sorting.Sort(a), Sorting.Sort(b);
    SameElements(a, x);
    SameElements(b, y);
    if x == [] || y == [] {
      NonEmptyJoin(x);
      NonEmptyJoin(y);
    } else {
      SplitJoin(x, '|');
      SplitJoin(y, '|');
    }
  }

  lemma {:induction false} SameElements(a: seq<Bytes>, x: seq<Bytes>)
    requires multiset(a) == multiset(x)
    ensures forall p :: p in x <==> p in a
  {
    forall p
      ensures p in x <==> p in a
    {
      assert p in x <==> p in multiset(x);
      assert p in a <==> p in multiset(a);
    }
  }

  lemma {:induction false} NonEmptyJoin(parts: seq<Bytes>)
    requires forall p | p in parts :: p != []
    ensures Join(parts, "|") == [] <==> parts == []
  {
    if parts != [] {
      assert parts[0] in parts;
    }
  }

  lemma {:induction false} SameLess<T>(a: seq<T>, b: seq<T>, x: T, aRest: seq<T>, bRest: seq<T>)
    requires multiset(a) == multiset{x} + multiset(aRest) && multiset(b) == multiset{x} + multiset(bRest)
    ensures multiset(a) == multiset(b) <==> multiset(aRest) == multiset(bRest)
  {
    assert multiset(a) - multiset{x} == multiset(aRest);
    assert multiset(b) - multiset{x} == multiset(bRest);
  }

  lemma {:induction false} PlainWithout(a: seq<Secret>, k: nat)
    requires k < |a| && AllPlain(a)
    ensures AllPlain(Omit(a, k)) && multiset(a) == multiset{a[k]} + multiset(Omit(a, k))
  {
    RemoveOne(a, k);
    assert a[k] in multiset(a);
  }

  lemma {:induction false} SameLength(a: seq<Secret>, b: seq<Secret>)
    requires AllPlain(a) && AllPlain(b) && multiset(SecretTexts(a)) == multiset(SecretTexts(b))
    ensures |a| == |b|
  {
    TextsHaveNoBar(a);
    TextsHaveNoBar(b);
    assert |SecretTexts(a)| == |multiset(SecretTexts(a))| == |multiset(SecretTexts(b))| == |SecretTexts(b)|;
  }

  lemma {:induction false} TextsTellSecrets(a: seq<Secret>, b: seq<Secret>)
    requires AllPlain(a) && AllPlain(b) && multiset(SecretTexts(a)) == multiset(SecretTexts(b))
    ensures multiset(a) == multiset(b)
    decreases |a|
  {
    SameLength(a, b);
    if a != [] {
      var k := Matching(a, b);
      var aRest, bRest := Omit(a, 0), Omit(b, k);
      TextsWithout(a, 0);
      TextsWithout(b, k);
      SameLess(SecretTexts(a), SecretTexts(b), SecretText(a[0]), SecretTexts(aRest), SecretTexts(bRest));
      PlainWithout(a, 0);
      PlainWithout(b, k);
      TextsTellSecrets(aRest, bRest);
      SameLess(a, b, a[0], aRest, bRest);
    }
  }

  lemma {:induction false} Matching(a: seq<Secret>, b: seq<Secret>) returns (k: nat)
    requires a != [] && AllPlain(a) && AllPlain(b) && multiset(SecretTexts(a)) == multiset(SecretTexts(b))
    ensures k < |b| && b[k] == a[0]
  {
    TextsWithout(a, 0);
    assert SecretText(a[0]) in multiset(SecretTexts(b));
    k := FindText(b, SecretText(a[0]));
    TextTells(b[k], a[0]);
  }

  /** As long as no string of a secret holds a mark it is written with, the secrets have the same
      fingerprint exactly when they are the same in some order: no client can be added, removed,
      re-keyed, re-tagged or re-limited unseen. */
  lemma {:induction false} SecretsAreFingerprinted(a: seq<Secret>, b: seq<Secret>)
    requires AllPlain(a) && AllPlain(b)
    ensures SecretsFingerprint(a) == SecretsFingerprint(b) <==> multiset(a) == multiset(b)
  {
    if multiset(a) == multiset(b) {
      SameTexts(a, b);
      Sorting.SortForgetsOrder(SecretTexts(a), SecretTexts(b));
    }
    if SecretsFingerprint(a) == SecretsFingerprint(b) {
      TextsHaveNoBar(a);
      TextsHaveNoBar(b);
      FingerprintTellsTexts(SecretTexts(a), SecretTexts(b));
      TextsTellSecrets(a, b);
    }
  }

  lemma {:induction false} MiddleTells(head: Bytes, a: Bytes, b: Bytes, tail: Bytes)
    requires head + (a + tail) == head + (b + tail)
    ensures a == b
  {
    SameStart(head, a + tail, b + tail);
    SameEnd(a, b, tail);
  }

  /** What a secret is written as changes with any one of its fields, whatever the others hold. */
  lemma {:induction false} OneFieldIsSeen(s: Secret, text: Bytes, n: int)
    ensures text != s.name ==> SecretText(s.(name := text)) != SecretText(s)
    ensures text != s.secret ==> SecretText(s.(secret := text)) != SecretText(s)
    ensures text != s.adTag ==> SecretText(s.(adTag := text)) != SecretText(s)
    ensures n != s.quotaBytes ==> SecretText(s.(quotaBytes := n)) != SecretText(s)
    ensures n != s.expiresUnix ==> SecretText(s.(expiresUnix := n)) != SecretText(s)
  {
    if SecretText(s.(name := text)) == SecretText(s) {
      NameAt(s);
      NameAt(s.(name := text));
      MiddleTells([], text, s.name, AfterName(s));
    }
    if SecretText(s.(secret := text)) == SecretText(s) {
      KeyAt(s);
      KeyAt(s.(secret := text));
      MiddleTells(s.name + "=", text, s.secret, AfterKey(s));
    }
    if SecretText(s.(adTag := text)) == SecretText(s) {
      TagAt(s);
      TagAt(s.(adTag := text));
      MiddleTells(BeforeTag(s), text, s.adTag, AfterTag(s));
    }
    if SecretText(s.(quotaBytes := n)) == SecretText(s) {
      QuotaAt(s);
      QuotaAt(s.(quotaBytes := n));
      MiddleTells(BeforeQuota(s), FormatInt(n), FormatInt(s.quotaBytes), AfterQuota(s));
      FormatIntTells(n, s.quotaBytes);
    }
    if SecretText(s.(expiresUnix := n)) == SecretText(s) {
      ExpiryAt(s);
      ExpiryAt(s.(expiresUnix := n));
      MiddleTells(BeforeExpiry(s), FormatInt(n), FormatInt(s.expiresUnix), []);
      FormatIntTells(n, s.expiresUnix);
    }
  }

  function AfterQuota(s: Secret): Bytes {
    ";exp=" + FormatInt(s.expiresUnix)
  }

  function AfterTag(s: Secret): Bytes {
    ";q=" + FormatInt(s.quotaBytes) + AfterQuota(s)
  }

  function AfterKey(s: Secret): Bytes {
    ";tag=" + s.adTag + AfterTag(s)
  }

  function AfterName(s: Secret): Bytes {
    "=" + s.secret + AfterKey(s)
  }

  function BeforeTag(s: Secret): Bytes {
    s.name + "=" + s.secret + ";tag="
  }

  function BeforeQuota(s: Secret): Bytes {
    BeforeTag(s) + s.adTag + ";q="
  }

  function BeforeExpiry(s: Secret): Bytes {
    BeforeQuota(s) + FormatInt(s.quotaBytes) + ";exp="
  }

  lemma {:induction false} NameAt(s: Secret)
    ensures SecretText(s) == [] + (s.name + AfterName(s))
  {
  }

  lemma {:induction false} KeyAt(s: Secret)
    ensures SecretText(s) == s.name + "=" + (s.secret + AfterKey(s))
  {
  }

  lemma {:induction false} TagAt(s: Secret)
    ensures SecretText(s) == BeforeTag(s) + (s.adTag + AfterTag(s))
  {
  }

  lemma {:induction false} QuotaAt(s: Secret)
    ensures SecretText(s) == BeforeQuota(s) + (FormatInt(s.quotaBytes) + AfterQuota(s))
  {
  }

  lemma {:induction false} ExpiryAt(s: Secret)
    ensures SecretText(s) == BeforeExpiry(s) + (FormatInt(s.expiresUnix) + [])
  {
  }

  lemma {:induction false} PrefixIsLess(x: Bytes, y: Bytes)
    ensures Sorting.Le(x, x + y)
    decreases |x|
  {
    if x != [] {
      assert (x + y)[1..] == x[1..] + y;
      PrefixIsLess(x[1..], y);
    }
  }

  function Keyed(name: Bytes): Secret {
    Secret(name, "k", [], 0, 0)
  }

  function AfterKeyedName(): Bytes {
    "=k;tag=;q=0;exp=0"
  }

  lemma {:induction false} KeyedText(name: Bytes, tail: Bytes)
    requires tail == AfterKeyedName()
    ensures SecretText(Keyed(name)) == name + tail
  {
  }

  lemma {:induction false} TwoSorted(a: Bytes, b: Bytes)
    requires Sorting.Le(a, b)
    ensures Sorting.Sort([a, b]) == [a, b]
    ensures !Sorting.Le(b, a) ==> Sorting.Sort([b, a]) == [a, b]
  {
    assert [a, b][1..] == [b] && [b, a][1..] == [a] && [a][1..] == [] && [b][1..] == [];
    assert Sorting.Sort([a]) == [a] && Sorting.Sort([b]) == [b];
    assert Sorting.Insert(b, [a][1..]) == [b];
  }

  lemma {:induction false} TwoTexts(s: Secret, t: Secret)
    ensures SecretTexts([s, t]) == [SecretText(s), SecretText(t)]
  {
    assert [s, t][..1] == [s] && [s][..0] == [];
    assert SecretTexts([s]) == [SecretText(s)];
  }

  /** With such marks even one renamed client can go unseen beside another one: of two secrets the
      first is called "a...|b" and then "b...|a", and the fingerprint is the same. */
  lemma {:induction false} RenamedUnseen(a: Bytes, b: Bytes)
    requires a == "a" + AfterKeyedName() && b == "b" + AfterKeyedName()
    ensures var was, now, other := Keyed(a + "|b"), Keyed(b + "|a"), Keyed(a + "|" + b + "|a");
      was != now && SecretsFingerprint([was, other]) == SecretsFingerprint([now, other])
  {
    var was, now, other := Keyed(a + "|b"), Keyed(b + "|a"), Keyed(a + "|" + b + "|a");
    assert was.name[0] != now.name[0];
    Joined(a, b);
    TwoTexts(was, other);
    TwoTexts(now, other);
    TextsOfThree(a, b, AfterKeyedName());
  }

  /** The two lists of texts, sorted and joined. */
  lemma {:induction false} Joined(a: Bytes, b: Bytes)
    requires a != [] && b != [] && a[0] == 'a' && b[0] == 'b'
    ensures Join(Sorting.Sort([a + "|" + b, a + "|" + b + "|" + a]), "|") == Join(Sorting.Sort([b + "|" + a, a + "|" + b + "|" + a]), "|")
  {
    var x, y, m := a + "|" + b, b + "|" + a, a + "|" + b + "|" + a;
    assert m == x + ("|" + a) && m[0] == 'a' && y[0] == 'b';
    PrefixIsLess(x, "|" + a);
    TwoSorted(x, m);
    TwoSorted(m, y);
    TwoJoin(x, m);
    TwoJoin(m, y);
    assert x + "|" + m == m + "|" + y;
  }

  lemma {:induction false} TwoJoin(a: Bytes, b: Bytes)
    ensures Join([a, b], "|") == a + "|" + b
  {
    assert [a, b][1..] == [b];
  }

  lemma {:induction false} TextsOfThree(a: Bytes, b: Bytes, tail: Bytes)
    requires tail == AfterKeyedName() && a == "a" + tail && b == "b" + tail
    ensures SecretText(Keyed(a + "|b")) == a + "|" + b
    ensures SecretText(Keyed(b + "|a")) == b + "|" + a
    ensures SecretText(Keyed(a + "|" + b + "|a")) == a + "|" + b + "|" + a
  {
    KeyedText(a + "|b", tail);
    KeyedText(b + "|a", tail);
    KeyedText(a + "|" + b + "|a", tail);
    Tails(a, b, tail);
  }

  lemma {:induction false} Tails(a: Bytes, b: Bytes, tail: Bytes)
    requires a == "a" + tail && b == "b" + tail
    ensures a + "|b" + tail == a + "|" + b
    ensures b + "|a" + tail == b + "|" + a
    ensures a + "|" + b + "|a" + tail == a + "|" + b + "|" + a
  {
  }

  /** With such marks two changes at once can cancel out, in the one fingerprint */
  lemma {:induction false} MarksConfuseSecrets()
    ensures var a, b := Secret("u=v", "w", [], 0, 0), Secret("u", "v=w", [], 0, 0);
      a != b && SecretsFingerprint([a]) == SecretsFingerprint([b])
  {
    var a, b := Secret("u=v", "w", [], 0, 0), Secret("u", "v=w", [], 0, 0);
    assert a.name[1] != 'u' && |a.name| != |b.name|;
    assert SecretText(a) == SecretText(b);
    assert [a][..0] == [] && [b][..0] == [];
    assert SecretTexts([a]) == [SecretText(a)] && SecretTexts([b]) == [SecretText(b)];
  }

  /** and in the other. */
  lemma {:induction false} MarksConfuseStructures(i: Instance)
    ensures var x, y := i.(publicIPv4 := "1|2", publicIPv6 := "3"), i.(publicIPv4 := "1", publicIPv6 := "2|3");
      Differences(x, y)[10] && StructuralFingerprint(x) == StructuralFingerprint(y)
  {
    LastTwo(i, "1|2", "3", StructuralParts(i)[..10]);
    LastTwo(i, "1", "2|3", StructuralParts(i)[..10]);
    SameTail();
  }

  lemma {:induction false} SameTail()
    ensures var a: Bytes := "1|2";
      var b: Bytes := "1";
      a != b && a + "|" + "3" == b + "|" + "2|3"
  {
    var a: Bytes := "1|2";
    var b: Bytes := "1";
    assert |a| != |b|;
  }

  lemma {:induction false} LastTwo(i: Instance, v4: Bytes, v6: Bytes, start: seq<Bytes>)
    requires start == StructuralParts(i)[..10]
    ensures StructuralFingerprint(i.(publicIPv4 := v4, publicIPv6 := v6)) == Join(start, "|") + "|" + (v4 + "|" + v6)
  {
    assert StructuralParts(i.(publicIPv4 := v4, publicIPv6 := v6)) == start + [v4, v6];
    JoinSplitsAt(start, [v4, v6]);
    assert [v4, v6][1..] == [v6];
  }

  lemma {:induction false} JoinSplitsAt(start: seq<Bytes>, rest: seq<Bytes>)
    requires start != [] && rest != []
    ensures Join(start + rest, "|") == Join(start, "|") + "|" + Join(rest, "|")
    decreases |start|
  {
    assert (start + rest)[1..] == start[1..] + rest;
    if |start| > 1 {
      JoinSplitsAt(start[1..], rest);
    }
  }
}
