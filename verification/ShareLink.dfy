/** Share links: a base that is never parsed again, a query encoded from a parameter map, and a
    percent-encoded fragment; and a reader that takes them apart again. */
module ShareLink {
  import opened Wrappers
  import opened Text
  import Sorting

  type Params = map<Bytes, Bytes>

  // ---------------------------------------------------------------- percent-encoding

  /** The unreserved characters of section 2.3 of RFC 3986. */
  predicate Unreserved(c: Byte) {
    'A' <= c <= 'Z' || 'a' <= c <= 'z' || '0' <= c <= '9' || c == '-' || c == '_' || c == '.' || c == '~'
  }

  function HexDigit(n: nat): Byte
    requires n < 16
  {
    if n < 10 then '0' + n as char else 'A' + (n - 10) as char
  }

  function HexValue(c: Byte): Option<nat> {
    if '0' <= c <= '9' then Some((c - '0') as nat)
    else if 'A' <= c <= 'F' then Some((c - 'A') as nat + 10)
    else if 'a' <= c <= 'f' then Some((c - 'a') as nat + 10)
    else None
  }

  function EscapeByte(c: Byte): Bytes {
    if Unreserved(c) then [c]
    else if c == ' ' then "+"
    else ['%', HexDigit(c as nat / 16), HexDigit(c as nat % 16)]
  }

  /** url.QueryEscape. */
  function QueryEscape(s: Bytes): Bytes
    decreases |s|
  {
    if s == [] then [] else EscapeByte(s[0]) + QueryEscape(s[1..])
  }

  /** strings.ReplaceAll of a "+" by "%20". */
  function PlusAsPercent(s: Bytes): Bytes
    decreases |s|
  {
    if s == [] then [] else (if s[0] == '+' then "%20" else [s[0]]) + PlusAsPercent(s[1..])
  }

  function EncodeUserinfo(s: Bytes): Bytes {
    PlusAsPercent(QueryEscape(s))
  }

  /** The reader's side: "%" takes two hexadecimal digits; "+" is a space only inside a query. */
  function Unescape(s: Bytes, query: bool): Option<Bytes>
    decreases |s|
  {
    if s == [] then Some([])
    else if s[0] == '%' then
      if |s| < 3 then None
      else
        var hi :- HexValue(s[1]);
        var lo :- HexValue(s[2]);
        var rest :- Unescape(s[3..], query);
        Some([(16 * hi + lo) as char] + rest)
    else
      var rest :- Unescape(s[1..], query);
      Some([if query && s[0] == '+' then ' ' else s[0]] + rest)
  }

  /** Letters, digits and four marks are written as they are, a space as "+", and every other byte as
      "%" and two hexadecimal digits. */
  lemma {:induction false} ByteIsEscaped(c: Byte)
    ensures (c in "-_.~" || 48 <= c as int <= 57 || 65 <= c as int <= 90 || 97 <= c as int <= 122) ==> EscapeByte(c) == [c]
    ensures c == ' ' ==> EscapeByte(c) == "+"
    ensures !(c in "-_.~ " || 48 <= c as int <= 57 || 65 <= c as int <= 90 || 97 <= c as int <= 122) ==>
      |EscapeByte(c)| == 3 && EscapeByte(c)[0] == '%'
  {
  }

  /** Escapes are read in either case. */
  lemma {:induction false} EitherCase(n: nat)
    requires 10 <= n < 16
    ensures HexValue('A' + (n - 10) as char) == HexValue('a' + (n - 10) as char) == Some(n)
  {
  }

  predicate Plain(c: Byte) {
    Unreserved(c) || c == '%' || c == '+'
  }

  lemma {:induction false} HexRoundTrip(n: nat)
    requires n < 16
    ensures HexValue(HexDigit(n)) == Some(n) && Unreserved(HexDigit(n))
  {
  }

  lemma {:induction false} EscapedByteReads(c: Byte, rest: Bytes, query: bool)
    requires query || c != ' '
    requires Unescape(rest, query).Some?
    ensures Unescape(EscapeByte(c) + rest, query) == Some([c] + Unescape(rest, query).value)
    ensures forall d | d in EscapeByte(c) :: Plain(d)
  {
    HexRoundTrip(c as nat / 16);
    HexRoundTrip(c as nat % 16);
    var e := EscapeByte(c);
    assert (e + rest)[|e|..] == rest;
  }

  lemma {:induction false} EscapeReadsBack(s: Bytes)
    ensures Unescape(QueryEscape(s), true) == Some(s)
    ensures forall d | d in QueryEscape(s) :: Plain(d)
    decreases |s|
  {
    if s != [] {
      EscapeReadsBack(s[1..]);
      EscapedByteReads(s[0], QueryEscape(s[1..]), true);
      assert [s[0]] + s[1..] == s;
    }
  }

  lemma {:induction false} PlusAsPercentConcat(a: Bytes, b: Bytes)
    ensures PlusAsPercent(a + b) == PlusAsPercent(a) + PlusAsPercent(b)
    decreases |a|
  {
    if a == [] {
      assert a + b == b;
    } else {
      var x := if a[0] == '+' then "%20" else [a[0]];
      calc {
        PlusAsPercent(a + b);
      == { assert (a + b)[1..] == a[1..] + b; }
        x + PlusAsPercent(a[1..] + b);
      == { PlusAsPercentConcat(a[1..], b); }
        x + (PlusAsPercent(a[1..]) + PlusAsPercent(b));
      == { ConcatAssoc(x, PlusAsPercent(a[1..]), PlusAsPercent(b)); }
        PlusAsPercent(a) + PlusAsPercent(b);
      }
    }
  }

  lemma {:induction false} NoPlus(a: Bytes)
    requires '+' !in a
    ensures PlusAsPercent(a) == a
    decreases |a|
  {
    if a != [] {
      NoPlus(a[1..]);
    }
  }

  function UserinfoByte(c: Byte): Bytes {
    if c == ' ' then "%20" else EscapeByte(c)
  }

  lemma {:induction false} UserinfoByByte(s: Bytes)
    requires s != []
    ensures EncodeUserinfo(s) == UserinfoByte(s[0]) + EncodeUserinfo(s[1..])
  {
    PlusAsPercentConcat(EscapeByte(s[0]), QueryEscape(s[1..]));
    if s[0] == ' ' {
      assert PlusAsPercent("+") == "%20" by {
        assert "+"[1..] == [];
      }
    } else {
      HexRoundTrip(s[0] as nat / 16);
      HexRoundTrip(s[0] as nat % 16);
      NoPlus(EscapeByte(s[0]));
    }
  }

  lemma {:induction false} UserinfoByteReads(c: Byte, rest: Bytes, query: bool)
    requires Unescape(rest, query).Some?
    ensures Unescape(UserinfoByte(c) + rest, query) == Some([c] + Unescape(rest, query).value)
    ensures forall d | d in UserinfoByte(c) :: Unreserved(d) || d == '%'
  {
    if c == ' ' {
      assert ("%20" + rest)[3..] == rest;
    } else {
      HexRoundTrip(c as nat / 16);
      HexRoundTrip(c as nat % 16);
      EscapedByteReads(c, rest, query);
    }
  }

  /** A userinfo or a fragment reads back whether or not the reader takes "+" for a space, and
      none of its characters has a meaning in a URL. */
  lemma {:induction false} UserinfoReadsBack(s: Bytes, query: bool)
    ensures Unescape(EncodeUserinfo(s), query) == Some(s)
    ensures forall d | d in EncodeUserinfo(s) :: Unreserved(d) || d == '%'
    decreases |s|
  {
    if s != [] {
      UserinfoReadsBack(s[1..], query);
      UserinfoByByte(s);
      UserinfoByteReads(s[0], EncodeUserinfo(s[1..]), query);
      assert [s[0]] + s[1..] == s;
    }
  }

  // ---------------------------------------------------------------- the query

  datatype Param = Param(key: Bytes, value: Bytes)

  predicate TlsHint(k: Bytes) {
    k == "alpn" || k == "sni" || k == "fp" || k == "pcs"
  }

  /** The parameters a link carries: a security override replaces the value of a `security` key
      that is there, and the TLS hints may be left out. */
  function Effective(params: Params, securityOverride: Bytes, omitTLSFields: bool): Params {
    map k | k in params && !(omitTLSFields && TlsHint(k)) :: Overridden(k, params[k], securityOverride)
  }

  function Overridden(k: Bytes, v: Bytes, securityOverride: Bytes): Bytes {
    if securityOverride != [] && k == "security" then securityOverride else v
  }

  /** Without an override and with the hints kept, all parameters are carried; with both, four hints
      go and `security` is replaced where it was given. */
  lemma {:induction false} EffectiveIs(params: Params, securityOverride: Bytes)
    ensures Effective(params, [], false) == params
    ensures Effective(params, securityOverride, true).Keys == params.Keys - {"alpn", "sni", "fp", "pcs"}
    ensures Effective(params, securityOverride, false).Keys == params.Keys
    ensures "security" in params && securityOverride != [] ==>
      Effective(params, securityOverride, false) == params["security" := securityOverride]
  {
  }

  ghost function Enumerate(s: set<Bytes>): (keys: seq<Bytes>)
    ensures multiset(keys) == multiset(s)
  {
    if s == {} then [] else
      var x :| x in s;
      var rest := Enumerate(s - {x});
      Sorting.ConsMultiset(x, rest);
      [x] + rest
  }

  ghost function SortedKeys(s: set<Bytes>): seq<Bytes> {
    Sorting.Sort(Enumerate(s))
  }

  function Entries(keys: seq<Bytes>, q: Params): seq<Param>
    requires forall k | k in keys :: k in q
    decreases |keys|
  {
    if keys == [] then [] else [Param(keys[0], q[keys[0]])] + Entries(keys[1..], q)
  }

  function ParamText(p: Param): Bytes {
    QueryEscape(p.key) + "=" + QueryEscape(p.value)
  }

  function ParamTexts(ps: seq<Param>): seq<Bytes>
    decreases |ps|
  {
    if ps == [] then [] else [ParamText(ps[0])] + ParamTexts(ps[1..])
  }

  lemma {:induction false} InSet(keys: seq<Bytes>, s: set<Bytes>)
    requires multiset(keys) == multiset(s)
    ensures forall k :: k in keys <==> k in s
  {
    forall k
      ensures k in keys <==> k in s
    {
      assert k in keys <==> k in multiset(keys);
      assert k in s <==> k in multiset(s);
    }
  }

  lemma {:induction false} SortedKeysAre(s: set<Bytes>)
    ensures multiset(SortedKeys(s)) == multiset(s)
    ensures forall k :: k in SortedKeys(s) <==> k in s
  {
    Sorting.SortSorts(Enumerate(s));
    InSet(SortedKeys(s), s);
  }

  /** The parameters of a map in the order of their keys. */
  ghost function QueryOf(q: Params): seq<Param> {
    SortedKeysAre(q.Keys);
    Entries(SortedKeys(q.Keys), q)
  }

  ghost function QueryText(q: Params): Bytes {
    Join(ParamTexts(QueryOf(q)), "&")
  }

  ghost function LinkText(link: Bytes, q: Params, fragment: Bytes): Bytes {
    link + QueryPart(link, q) + FragmentPart(fragment)
  }

  ghost function QueryPart(link: Bytes, q: Params): Bytes {
    if q == map[] then [] else [if '?' in link then '&' else '?'] + QueryText(q)
  }

  function FragmentPart(fragment: Bytes): Bytes {
    if fragment == [] then [] else ['#'] + EncodeUserinfo(fragment)
  }

  method SortKeys(s: set<Bytes>) returns (keys: seq<Bytes>)
    ensures keys == SortedKeys(s)
  {
    keys := [];
    var rest := s;
    ghost var done: set<Bytes> := {};
    while rest != {}
      invariant done !! rest && done + rest == s
      invariant multiset(keys) == multiset(done)
      decreases |rest|
    {
      var k :| k in rest;
      keys := keys + [k];
      rest := rest - {k};
      done := done + {k};
    }
    assert done == s;
    Sorting.SortForgetsOrder(keys, Enumerate(s));
    keys := Sorting.Sort(keys);
  }

  /** url.Values.Encode. */
  method EncodeQuery(q: Params) returns (text: Bytes)
    ensures text == QueryText(q)
    ensures text == [] <==> q == map[]
  {
    var keys := SortKeys(q.Keys);
    SortedKeysAre(q.Keys);
    text := Join(ParamTexts(Entries(keys, q)), "&");
    EmptyQuery(q);
  }

  lemma {:induction false} EmptyQuery(q: Params)
    ensures QueryText(q) == [] <==> q == map[]
  {
    QueryLists(q);
    var ps := QueryOf(q);
    if ps != [] {
      assert ParamTexts(ps)[0] == ParamText(ps[0]);
    }
  }

  method EffectiveParams(params: Params, securityOverride: Bytes, omitTLSFields: bool) returns (q: Params)
    ensures q == Effective(params, securityOverride, omitTLSFields)
  {
    q := map[];
    var rest := params.Keys;
    ghost var all := Effective(params, securityOverride, omitTLSFields);
    while rest != {}
      invariant rest <= params.Keys
      invariant q == all - rest
      decreases |rest|
    {
      var k :| k in rest;
      var v := params[k];
      rest := rest - {k};
      if securityOverride != [] && k == "security" {
        v := securityOverride;
      }
      if omitTLSFields && TlsHint(k) {
        continue;
      }
      q := q[k := v];
    }
  }

  method AppendQueryAndFragment(link: Bytes, params: Params, fragment: Bytes, securityOverride: Bytes, omitTLSFields: bool)
    returns (out: Bytes)
    ensures out == LinkText(link, Effective(params, securityOverride, omitTLSFields), fragment)
  {
    var q := EffectiveParams(params, securityOverride, omitTLSFields);
    var encoded := EncodeQuery(q);
    out := link + (if encoded != [] then [if '?' in link then '&' else '?'] + encoded else []);
    out := out + FragmentPart(fragment);
  }

  // ---------------------------------------------------------------- the reader

  datatype Link = Link(base: Bytes, query: seq<Param>, fragment: Bytes)

  function ReadParam(piece: Bytes): Option<Param> {
    var k := IndexByte(piece, '=');
    var key :- Unescape(piece[..k], true);
    var value :- Unescape(if k < |piece| then piece[k + 1..] else [], true);
    Some(Param(key, value))
  }

  function ReadParams(pieces: seq<Bytes>): Option<seq<Param>>
    decreases |pieces|
  {
    if pieces == [] then Some([]) else
      var p :- ReadParam(pieces[0]);
      var rest :- ReadParams(pieces[1..]);
      Some([p] + rest)
  }

  function ReadQuery(body: Bytes): Option<seq<Param>> {
    var k := IndexByte(body, '?');
    if k == |body| then Some([]) else ReadParams(Split(body[k + 1..], '&'))
  }

  /** The base ends at the first "?" or "#", the query at the first "#". */
  function ReadLink(s: Bytes): Option<Link> {
    var h := IndexByte(s, '#');
    var body := s[..h];
    var fragment :- Unescape(if h < |s| then s[h + 1..] else [], false);
    var query :- ReadQuery(body);
    Some(Link(body[..IndexByte(body, '?')], query, fragment))
  }

  /** The query lists exactly the entries of the map. */
  ghost predicate Lists(query: seq<Param>, q: Params) {
    && |query| == |q|
    && (forall p | p in query :: p.key in q && q[p.key] == p.value)
    && (forall k <- q :: Param(k, q[k]) in query)
  }

  lemma {:induction false} EntriesList(keys: seq<Bytes>, q: Params)
    requires forall k | k in keys :: k in q
    ensures |Entries(keys, q)| == |keys|
    ensures forall i | 0 <= i < |keys| :: Entries(keys, q)[i] == Param(keys[i], q[keys[i]])
    decreases |keys|
  {
    if keys != [] {
      EntriesList(keys[1..], q);
    }
  }

  lemma {:induction false} QueryLists(q: Params)
    ensures Lists(QueryOf(q), q)
  {
    var keys := SortedKeys(q.Keys);
    SortedKeysAre(q.Keys);
    EntriesList(keys, q);
    assert |keys| == |multiset(keys)| == |multiset(q.Keys)| == |q.Keys| == |q|;
    forall k <- q
      ensures Param(k, q[k]) in QueryOf(q)
    {
      assert k in keys;
      var i :| 0 <= i < |keys| && keys[i] == k;
      assert QueryOf(q)[i] == Param(k, q[k]);
    }
  }

  lemma {:induction false} ParamReadsBack(p: Param)
    ensures ReadParam(ParamText(p)) == Some(p)
    ensures forall c | c in ParamText(p) :: Plain(c) || c == '='
  {
    EscapeReadsBack(p.key);
    EscapeReadsBack(p.value);
    var k, v := QueryEscape(p.key), QueryEscape(p.value);
    IndexByteAfter(k, '=', v);
    assert (k + ['='] + v)[..|k|] == k;
    assert (k + ['='] + v)[|k| + 1..] == v;
  }

  predicate QueryChar(c: Byte) {
    Plain(c) || c == '=' || c == '&'
  }

  lemma {:induction false} ReadOneMore(text: Bytes, p: Param, texts: seq<Bytes>, ps: seq<Param>)
    requires ReadParam(text) == Some(p) && ReadParams(texts) == Some(ps)
    ensures ReadParams([text] + texts) == Some([p] + ps)
  {
    assert ([text] + texts)[1..] == texts;
  }

  lemma {:induction false} TextsReadBack(ps: seq<Param>)
    ensures ReadParams(ParamTexts(ps)) == Some(ps)
    decreases |ps|
  {
    if ps != [] {
      ParamReadsBack(ps[0]);
      TextsReadBack(ps[1..]);
      ReadOneMore(ParamText(ps[0]), ps[0], ParamTexts(ps[1..]), ps[1..]);
      assert [ps[0]] + ps[1..] == ps;
    }
  }

  predicate ParamChars(t: Bytes) {
    forall c | c in t :: Plain(c) || c == '='
  }

  lemma {:induction false} TextsChars(ps: seq<Param>)
    ensures forall t | t in ParamTexts(ps) :: ParamChars(t)
    decreases |ps|
  {
    if ps != [] {
      ParamReadsBack(ps[0]);
      TextsChars(ps[1..]);
    }
  }

  lemma {:induction false} JoinedChars(texts: seq<Bytes>)
    requires forall t | t in texts :: ParamChars(t)
    ensures forall c | c in Join(texts, "&") :: QueryChar(c)
    decreases |texts|
  {
    if texts != [] {
      assert texts[0] in texts && ParamChars(texts[0]);
      assert forall t | t in texts[1..] :: t in texts;
      JoinedChars(texts[1..]);
    }
  }

  lemma {:induction false} QueryReadsBack(q: Params)
    requires q != map[]
    ensures ReadParams(Split(QueryText(q), '&')) == Some(QueryOf(q))
  {
    var texts := ParamTexts(QueryOf(q));
    TextsReadBack(QueryOf(q));
    TextsChars(QueryOf(q));
    QueryLists(q);
    assert |QueryOf(q)| > 0;
    assert texts != [];
    forall t | t in texts
      ensures '&' !in t
    {
      assert ParamChars(t);
    }
    SplitJoin(texts, '&');
  }

  lemma {:induction false} QueryHasNoHash(q: Params)
    ensures '#' !in QueryText(q)
  {
    TextsChars(QueryOf(q));
    JoinedChars(ParamTexts(QueryOf(q)));
    assert !QueryChar('#');
  }

  // ---------------------------------------------------------------- reading a link back

  lemma {:induction false} FragmentSplitsOff(body: Bytes, fragment: Bytes)
    requires '#' !in body
    ensures ReadLink(body + FragmentPart(fragment)) ==
      if ReadQuery(body).None? then None
      else Some(Link(body[..IndexByte(body, '?')], ReadQuery(body).value, fragment))
  {
    var s := body + FragmentPart(fragment);
    if fragment == [] {
      assert s == body;
      IndexByteAfter(body, '#', []);
    } else {
      var f := EncodeUserinfo(fragment);
      assert s == body + ['#'] + f;
      IndexByteAfter(body, '#', f);
      assert s[..|body|] == body && s[|body| + 1..] == f;
      UserinfoReadsBack(fragment, false);
    }
  }

  lemma {:induction false} QueryPartHasNoHash(link: Bytes, q: Params)
    requires '#' !in link
    ensures '#' !in link + QueryPart(link, q)
  {
    QueryHasNoHash(q);
  }

  lemma {:induction false} QueryAfter(x: Bytes, rest: Bytes)
    requires '?' !in x
    ensures var body := x + ['?'] + rest;
      IndexByte(body, '?') == |x| && body[..|x|] == x && ReadQuery(body) == ReadParams(Split(rest, '&'))
  {
    var body := x + ['?'] + rest;
    IndexByteAfter(x, '?', rest);
    assert body[|x| + 1..] == rest;
  }

  lemma {:induction false} PlainBaseReads(link: Bytes, q: Params)
    requires '?' !in link
    ensures var body := link + QueryPart(link, q);
      IndexByte(body, '?') == |link| && body[..|link|] == link && ReadQuery(body) == Some(QueryOf(q))
  {
    if q == map[] {
      NoQueryReads(link);
      QueryLists(q);
      assert QueryOf(q) == [];
      ConcatNil(link);
    } else {
      QueryAfter(link, QueryText(q));
      QueryReadsBack(q);
      ConcatAssoc(link, ['?'], QueryText(q));
    }
  }

  lemma {:induction false} NoQueryReads(link: Bytes)
    requires '?' !in link
    ensures IndexByte(link, '?') == |link| && ReadQuery(link) == Some([])
  {
    IndexByteAfter(link, '?', []);
  }

  /** Taking a link apart recovers its base, its parameters and its fragment exactly when the base
      holds neither "?" nor "#". */
  lemma {:induction false} LinkReadsBack(link: Bytes, q: Params, fragment: Bytes)
    ensures ReadLink(LinkText(link, q, fragment)) == Some(Link(link, QueryOf(q), fragment)) <==>
      '?' !in link && '#' !in link
    ensures Lists(QueryOf(q), q)
  {
    QueryLists(q);
    if '#' !in link && '?' !in link {
      QueryPartHasNoHash(link, q);
      FragmentSplitsOff(link + QueryPart(link, q), fragment);
      PlainBaseReads(link, q);
    }
  }

  // ---------------------------------------------------------------- a base with a query of its own

  lemma {:induction false} SplitConcat(a: Bytes, b: Bytes, c: Byte)
    ensures Split(a + [c] + b, c) == Split(a, c) + Split(b, c)
    decreases |a|
  {
    var k := IndexByte(a, c);
    if k == |a| {
      IndexByteAfter(a, c, b);
      assert (a + [c] + b)[..|a|] == a && (a + [c] + b)[|a| + 1..] == b;
    } else {
      var x, y := a[..k], a[k + 1..];
      assert a == x + [c] + y;
      assert a + [c] + b == x + [c] + (y + [c] + b);
      IndexByteAfter(x, c, y + [c] + b);
      assert (a + [c] + b)[..k] == x && (a + [c] + b)[k + 1..] == y + [c] + b;
      SplitConcat(y, b, c);
      ConcatAssoc([x], Split(y, c), Split(b, c));
    }
  }

  lemma {:induction false} ReadParamsConcat(a: seq<Bytes>, b: seq<Bytes>)
    requires ReadParams(a).Some? && ReadParams(b).Some?
    ensures ReadParams(a + b) == Some(ReadParams(a).value + ReadParams(b).value)
    decreases |a|
  {
    if a == [] {
      ConcatNil(b);
      ConcatNil(ReadParams(b).value);
    } else {
      FirstOf(a, b);
      ReadParamsConcat(a[1..], b);
      ConcatAssoc([ReadParam(a[0]).value], ReadParams(a[1..]).value, ReadParams(b).value);
    }
  }

  lemma {:induction false} FirstOf<T>(a: seq<T>, b: seq<T>)
    requires a != []
    ensures a + b != [] && (a + b)[0] == a[0] && (a + b)[1..] == a[1..] + b
  {
  }

  lemma {:induction false} QueriedBaseReads(link: Bytes, q: Params)
    requires '?' in link && ReadQuery(link).Some?
    ensures var body := link + QueryPart(link, q);
      && body[..IndexByte(body, '?')] == link[..IndexByte(link, '?')]
      && ReadQuery(body) == Some(ReadQuery(link).value + QueryOf(q))
  {
    var k := IndexByte(link, '?');
    var x, y := link[..k], link[k + 1..];
    assert link == x + ['?'] + y;
    if q == map[] {
      assert link + QueryPart(link, q) == link;
      QueryLists(q);
      ConcatNil(ReadQuery(link).value);
    } else {
      QueryReadsBack(q);
      OwnQueryFirst(x, y, QueryText(q));
    }
  }

  lemma {:induction false} OwnQueryFirst(x: Bytes, y: Bytes, t: Bytes)
    requires '?' !in x
    requires ReadQuery(x + ['?'] + y).Some? && ReadParams(Split(t, '&')).Some?
    ensures var link, body := x + ['?'] + y, x + ['?'] + y + (['&'] + t);
      && body[..IndexByte(body, '?')] == link[..IndexByte(link, '?')]
      && ReadQuery(body) == Some(ReadQuery(link).value + ReadParams(Split(t, '&')).value)
  {
    AppendToQuery(x, y, t);
    QueryAfter(x, y);
    QueryAfter(x, y + ['&'] + t);
    QueriesConcat(y, t);
  }

  lemma {:induction false} AppendToQuery<T>(x: seq<T>, y: seq<T>, t: seq<T>)
    ensures forall a, b {:trigger x + [a] + y + ([b] + t)} :: x + [a] + y + ([b] + t) == x + [a] + (y + [b] + t)
  {
  }

  lemma {:induction false} QueriesConcat(y: Bytes, t: Bytes)
    requires ReadParams(Split(y, '&')).Some? && ReadParams(Split(t, '&')).Some?
    ensures ReadParams(Split(y + ['&'] + t, '&')) ==
      Some(ReadParams(Split(y, '&')).value + ReadParams(Split(t, '&')).value)
  {
    SplitConcat(y, t, '&');
    ReadParamsConcat(Split(y, '&'), Split(t, '&'));
  }

  /** A base that brings a readable query of its own keeps it, and the parameters follow it. */
  lemma {:induction false} QueriedLinkReadsBack(link: Bytes, q: Params, fragment: Bytes)
    requires '?' in link && '#' !in link && ReadLink(link).Some?
    ensures var own := ReadLink(link).value;
      ReadLink(LinkText(link, q, fragment)) == Some(Link(own.base, own.query + QueryOf(q), fragment))
  {
    FragmentSplitsOff(link, []);
    assert link + FragmentPart([]) == link;
    QueryPartHasNoHash(link, q);
    FragmentSplitsOff(link + QueryPart(link, q), fragment);
    QueriedBaseReads(link, q);
  }

  /** The recovered parameters under a security override: `security` replaced where it was, the
      hints gone when they are to be, everything else as given. */
  lemma {:induction false} OverrideReadsBack(params: Params, securityOverride: Bytes, omitTLSFields: bool)
    ensures var query := QueryOf(Effective(params, securityOverride, omitTLSFields));
      && (forall p | p in query :: p.key in params && !(omitTLSFields && TlsHint(p.key)))
      && (forall p | p in query && p.key == "security" && securityOverride != [] :: p.value == securityOverride)
      && (forall p | p in query && (p.key != "security" || securityOverride == []) :: p.value == params[p.key])
      && (forall k <- params | !(omitTLSFields && TlsHint(k)) :: exists p :: p in query && p.key == k)
  {
    var q := Effective(params, securityOverride, omitTLSFields);
    QueryLists(q);
    forall k <- params | !(omitTLSFields && TlsHint(k))
      ensures exists p :: p in QueryOf(q) && p.key == k
    {
      assert k in q;
      assert Param(k, q[k]) in QueryOf(q);
    }
  }
}
