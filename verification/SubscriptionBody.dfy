/** The body of a raw subscription: how the panel publishes share links, and how it reads the body
    of a remote subscription back. */
module SubscriptionBody {
  import opened Collections
  import opened Wrappers
  import opened Text
  import opened Base64

  const MAX_BYTES := 2 * 1024 * 1024

  // ---------------------------------------------------------------- publishing

  function Published(lines: seq<Bytes>): Bytes {
    if lines == [] then [] else lines[0] + ['\n'] + Published(lines[1..])
  }

  /** The link lines, then the routing rules when there are any. */
  function AllLines(subs: seq<Bytes>, routingRules: Bytes): seq<Bytes> {
    subs + (if routingRules == [] then [] else [routingRules])
  }

  function Body(subs: seq<Bytes>, routingRules: Bytes, encrypt: bool): Bytes {
    var text := Published(AllLines(subs, routingRules));
    if encrypt then Encode(text) else text
  }

  lemma {:induction false} PublishedConcat(a: seq<Bytes>, b: seq<Bytes>)
    ensures Published(a + b) == Published(a) + Published(b)
    decreases |a|
  {
    if a == [] {
      assert a + b == b;
    } else {
      assert (a + b)[1..] == a[1..] + b;
      PublishedConcat(a[1..], b);
      ConcatAssoc(a[0] + ['\n'], Published(a[1..]), Published(b));
    }
  }

  method WriteBody(subs: seq<Bytes>, routingRules: Bytes, encrypt: bool) returns (body: Bytes)
    ensures body == Body(subs, routingRules, encrypt)
  {
    var result: Bytes := [];
    for i := 0 to |subs|
      invariant result == Published(subs[..i])
    {
      assert subs[..i + 1] == subs[..i] + [subs[i]];
      PublishedConcat(subs[..i], [subs[i]]);
      assert Published([subs[i]][1..]) == [];
      result := result + subs[i];
      result := result + ['\n'];
    }
    assert subs[..|subs|] == subs;
    if routingRules != [] {
      PublishedConcat(subs, [routingRules]);
      assert Published([routingRules][1..]) == [];
      ConcatAssoc(result, routingRules, ['\n']);
      result := result + routingRules;
      result := result + ['\n'];
    } else {
      assert AllLines(subs, routingRules) == subs;
    }
    assert result == Published(AllLines(subs, routingRules));
    return if encrypt then Encode(result) else result;
  }

  /** Routing rules follow the links on a line of their own, and encoding is put around the whole. */
  lemma {:induction false} BodyIs(subs: seq<Bytes>, routingRules: Bytes)
    ensures Body(subs, routingRules, false) ==
      Published(subs) + (if routingRules == [] then [] else routingRules + ['\n'])
    ensures Body(subs, routingRules, true) == Encode(Body(subs, routingRules, false))
  {
    PublishedConcat(subs, if routingRules == [] then [] else [routingRules]);
    if routingRules == [] {
      ConcatNil(Published(subs));
    } else {
      assert Published([routingRules][1..]) == [];
      ConcatNil(routingRules + ['\n']);
    }
  }

  // ---------------------------------------------------------------- reading

  predicate Newline(c: Byte) {
    c == '\n' || c == '\r'
  }

  /** The place of the first line break, or the length. */
  function LineEnd(s: Bytes): (k: nat)
    ensures k <= |s| && (k < |s| ==> Newline(s[k])) && forall i | 0 <= i < k :: !Newline(s[i])
  {
    if s == [] || Newline(s[0]) then 0 else 1 + LineEnd(s[1..])
  }

  /** strings.FieldsFunc on line breaks: the maximal non-empty runs between them. */
  function Fields(s: Bytes): seq<Bytes>
    decreases |s|
  {
    if s == [] then []
    else
      var k := LineEnd(s);
      (if k == 0 then [] else [s[..k]]) + (if k == |s| then [] else Fields(s[k + 1..]))
  }

  predicate LooksLikeLink(l: Bytes) {
    l != [] && !HasPrefix(l, "#") && Contains(l, "://")
  }

  /** What one line contributes. */
  function LinkOf(line: Bytes): seq<Bytes> {
    if LooksLikeLink(TrimSpace(line)) then [TrimSpace(line)] else []
  }

  function LinksOf(fields: seq<Bytes>): seq<Bytes> {
    if fields == [] then [] else LinkOf(fields[0]) + LinksOf(fields[1..])
  }

  function Links(text: Bytes): seq<Bytes> {
    LinksOf(Fields(text))
  }

  predicate Cleaned(c: Byte) {
    c == ' ' || c == '\n' || c == '\r' || c == '\t'
  }

  /** strings.Map without blanks, tabs and line breaks. */
  function Clean(s: Bytes): Bytes {
    if s == [] then []
    else (if Cleaned(s[0]) then [] else [s[0]]) + Clean(s[1..])
  }

  function Pad(s: Bytes): Bytes
    decreases (4 - |s| % 4) % 4
  {
    if |s| % 4 == 0 then s else Pad(s + ['='])
  }

  /** How many characters a text lacks to be whole quanta. */
  function Missing(n: nat): nat {
    (4 - n % 4) % 4
  }

  lemma {:induction false} MissingStep(n: nat)
    requires n % 4 != 0
    ensures Missing(n + 1) == Missing(n) - 1
  {
  }

  method PadBase64Sub(s: Bytes) returns (r: Bytes)
    ensures r == Pad(s)
  {
    r := s;
    while |r| % 4 != 0
      invariant Pad(r) == Pad(s)
      decreases Missing(|r|)
    {
      MissingStep(|r|);
      r := r + ['='];
    }
  }

  /** strings.TrimRight(s, "="). */
  function TrimPadding(s: Bytes): Bytes {
    if s != [] && s[|s| - 1] == '=' then TrimPadding(s[..|s| - 1]) else s
  }

  function TryDecodeBase64Body(s: Bytes): Option<Bytes> {
    var std := DecodeStd(Pad(Clean(s)));
    if std.Some? then std else DecodeRawUrl(TrimPadding(Clean(s)))
  }

  /** The links a body stands for. */
  function ReadBack(body: Bytes): seq<Bytes> {
    var text := TrimSpace(body);
    if text == [] then []
    else
      var decoded := TryDecodeBase64Body(text);
      Links(if decoded.Some? then TrimSpace(decoded.value) else text)
  }

  method DecodeSubscriptionBody(body: Bytes) returns (out: seq<Bytes>)
    ensures out == ReadBack(body)
  {
    var text := TrimSpace(body);
    if text == [] {
      return [];
    }
    var decoded := TryDecodeBase64Body(text);
    if decoded.Some? {
      text := TrimSpace(decoded.value);
    }
    out := KeepLinks(Fields(text));
  }

  lemma {:induction false} LinksOfStep(out: seq<Bytes>, lines: seq<Bytes>, i: nat)
    requires i < |lines|
    ensures out + LinksOf(lines[i..]) == (out + LinkOf(lines[i])) + LinksOf(lines[i + 1..])
  {
    assert lines[i..][1..] == lines[i + 1..];
    ConcatAssoc(out, LinkOf(lines[i]), LinksOf(lines[i + 1..]));
  }

  method KeepLinks(lines: seq<Bytes>) returns (out: seq<Bytes>)
    ensures out == LinksOf(lines)
  {
    out := [];
    ConcatNil(LinksOf(lines));
    assert lines[0..] == lines;
    for i := 0 to |lines|
      invariant out + LinksOf(lines[i..]) == LinksOf(lines)
    {
      LinksOfStep(out, lines, i);
      var ln := TrimSpace(lines[i]);
      if ln == [] || HasPrefix(ln, "#") {
        assert LinkOf(lines[i]) == [];
        ConcatNil(out);
        continue;
      }
      if Contains(ln, "://") {
        assert LinkOf(lines[i]) == [ln];
        out := out + [ln];
      } else {
        ConcatNil(out);
      }
    }
    ConcatNil(out);
  }

  datatype Response = Unreachable | Response(status: int, body: Bytes)

  /** doFetchSubscriptionLinks: no answer, a status outside 200 to 299 and a body over the limit
      are errors. */
  function DoFetch(resp: Response): Option<seq<Bytes>> {
    if resp.Unreachable? || resp.status < 200 || resp.status >= 300 || |resp.body| > MAX_BYTES then None
    else Some(ReadBack(resp.body))
  }

  /** A fetch fails exactly when there is no answer, one that is no success, or one over two
      mebibytes. */
  lemma {:induction false} FetchFails(status: int, body: Bytes)
    ensures DoFetch(Unreachable).None?
    ensures DoFetch(Response(status, body)).Some? <==> 200 <= status <= 299 && |body| <= 2_097_152
    ensures DoFetch(Response(status, body)).Some? ==> DoFetch(Response(status, body)).value == ReadBack(body)
  {
  }

  /** A line that is trimmed and holds a scheme is a link, unless it is a comment. */
  lemma {:induction false} CommentIsNoLink(scheme: Bytes, rest: Bytes)
    requires scheme != [] && Trimmed(scheme + ("://" + rest))
    ensures LinkOf(scheme + ("://" + rest)) == if scheme[0] == '#' then [] else [scheme + ("://" + rest)]
  {
    var l := scheme + ("://" + rest);
    TrimSpaceIs(l);
    assert l[0] == scheme[0];
    SchemeIsFound(scheme, rest);
  }

  lemma {:induction false} SchemeIsFound(scheme: Bytes, rest: Bytes)
    ensures Contains(scheme + ("://" + rest), "://")
  {
    var l := scheme + ("://" + rest);
    assert l[|scheme|..] == "://" + rest;
    assert HasPrefix(l[|scheme|..], "://");
  }

  // ---------------------------------------------------------------- lines and their links

  /** A line break between two texts keeps their links apart. */
  lemma {:induction false} LinksConcat(a: Bytes, c: Byte, b: Bytes)
    requires Newline(c)
    ensures Links(a + [c] + b) == Links(a) + Links(b)
    decreases |a|
  {
    var s, k := a + [c] + b, LineEnd(a);
    FirstLineOf(a, c, b);
    if k == |a| {
      calc {
        Links(s);
        { FieldsStep(s); }
        LinkOf(a[..k]) + Links(b);
        { FieldsStep(a); ConcatNil(LinkOf(a[..k])); }
        Links(a) + Links(b);
      }
    } else {
      var rest := a[k + 1..];
      calc {
        Links(s);
        { FieldsStep(s); }
        LinkOf(a[..k]) + Links(rest + [c] + b);
        { LinksConcat(rest, c, b); }
        LinkOf(a[..k]) + (Links(rest) + Links(b));
        { ConcatAssoc(LinkOf(a[..k]), Links(rest), Links(b)); }
        (LinkOf(a[..k]) + Links(rest)) + Links(b);
        { FieldsStep(a); }
        Links(a) + Links(b);
      }
    }
  }

  lemma {:induction false} FirstLineOf(a: Bytes, c: Byte, b: Bytes)
    requires Newline(c)
    ensures var s, k := a + [c] + b, LineEnd(a);
      && LineEnd(s) == k && s[..k] == a[..k] && k < |s|
      && s[k + 1..] == if k == |a| then b else a[k + 1..] + [c] + b
  {
    LineEndBefore(a, [c] + b);
    ConcatAssoc(a, [c], b);
  }

  lemma {:induction false} LineEndBefore(a: Bytes, b: Bytes)
    requires b != [] && Newline(b[0])
    ensures LineEnd(a + b) == LineEnd(a)
    decreases |a|
  {
    if a == [] {
      assert a + b == b;
    } else {
      assert (a + b)[1..] == a[1..] + b;
      LineEndBefore(a[1..], b);
    }
  }

  lemma {:induction false} LinksOfConcat(a: seq<Bytes>, b: seq<Bytes>)
    ensures LinksOf(a + b) == LinksOf(a) + LinksOf(b)
    decreases |a|
  {
    if a == [] {
      assert a + b == b;
    } else {
      assert (a + b)[1..] == a[1..] + b;
      LinksOfConcat(a[1..], b);
      ConcatAssoc(LinkOf(a[0]), LinksOf(a[1..]), LinksOf(b));
    }
  }

  function LinksAfter(s: Bytes, k: nat): seq<Bytes>
    requires k <= |s|
  {
    if k == |s| then [] else Links(s[k + 1..])
  }

  /** The links of a text are those of its first line and those of the rest. */
  lemma {:induction false} FieldsStep(s: Bytes)
    ensures var k := LineEnd(s);
      Links(s) == LinkOf(s[..k]) + LinksAfter(s, k)
  {
    var k := LineEnd(s);
    assert LinkOf([]) == [];
    if s != [] {
      var first := if k == 0 then [] else [s[..k]];
      var rest := if k == |s| then [] else Fields(s[k + 1..]);
      LinksOfConcat(first, rest);
      if k > 0 {
        assert LinksOf([s[..k]][1..]) == [];
      }
    }
  }

  lemma {:induction false} LinkIgnoresSpaceAhead(l: Bytes)
    ensures LinkOf(l[LeadingSpace(l)..]) == LinkOf(l)
  {
    var n := LeadingSpace(l);
    if n == 0 {
      assert l[0..] == l;
    }
  }

  lemma {:induction false} LinksAfterCut(s: Bytes, n: nat, k: nat)
    requires n <= k <= |s|
    ensures LinksAfter(s[n..], k - n) == LinksAfter(s, k)
  {
    if k < |s| {
      assert s[n..][k - n + 1..] == s[k + 1..];
    }
  }

  lemma {:induction false} LinksIgnoreBreakAhead(s: Bytes)
    requires s != [] && Newline(s[0])
    ensures Links(s[1..]) == Links(s)
  {
    assert s == [] + [s[0]] + s[1..];
    LinksConcat([], s[0], s[1..]);
    ConcatNil(Links(s[1..]));
  }

  lemma {:induction false} FirstLineCut(s: Bytes, n: nat, k: nat)
    requires n == LeadingSpace(s) > 0 && k == LineEnd(s) && !Newline(s[0])
    ensures n <= k && LinkOf(s[..k]) == LinkOf(s[n..][..k - n])
  {
    SpaceWithinLine(s);
    LinkIgnoresSpaceAhead(s[..k]);
    assert s[n..][..k - n] == s[..k][n..];
  }

  lemma {:induction false} LinksStep(s: Bytes, k: nat)
    requires k == LineEnd(s)
    ensures Links(s) == LinkOf(s[..k]) + LinksAfter(s, k)
  {
    FieldsStep(s);
  }

  lemma {:induction false} FirstLineAlike(s: Bytes, a: Bytes, n: nat, m: nat, k: nat)
    requires n == LeadingSpace(s) > 0 && !Newline(s[0]) && a == s[n..] && k == LineEnd(s) && m == k - n
    ensures m == LineEnd(a) && LinkOf(a[..m]) == LinkOf(s[..k])
  {
    SpaceWithinLine(s);
    FirstLineCut(s, n, k);
  }

  lemma {:induction false} LinksIgnoreOneAhead(s: Bytes, a: Bytes)
    requires LeadingSpace(s) > 0 && !Newline(s[0]) && a == s[LeadingSpace(s)..]
    ensures Links(a) == Links(s)
  {
    var n, k := LeadingSpace(s), LineEnd(s);
    SpaceWithinLine(s);
    var m := k - n;
    FirstLineAlike(s, a, n, m, k);
    LinksAfterCut(s, n, k);
    SameByLine(a, m, s, k);
  }

  lemma {:induction false} SameByLine(a: Bytes, m: nat, s: Bytes, k: nat)
    requires m == LineEnd(a) && k == LineEnd(s)
    requires LinkOf(a[..m]) == LinkOf(s[..k]) && LinksAfter(a, m) == LinksAfter(s, k)
    ensures Links(a) == Links(s)
  {
    LinksStep(s, k);
    LinksStep(a, m);
  }

  /** White space at the front makes no difference to the links. */
  lemma {:induction false} LinksIgnoreSpaceAhead(s: Bytes)
    ensures Links(TrimLeft(s)) == Links(s)
    decreases |s|
  {
    if LeadingSpace(s) > 0 {
      if Newline(s[0]) {
        LinksIgnoreBreakAhead(s);
      } else {
        LinksIgnoreOneAhead(s, s[LeadingSpace(s)..]);
      }
      LinksIgnoreSpaceAhead(s[LeadingSpace(s)..]);
    }
  }

  /** A white-space character that is no line break holds none. */
  lemma {:induction false} SpaceWithinLine(s: Bytes)
    requires LeadingSpace(s) > 0 && !Newline(s[0])
    ensures var n, k := LeadingSpace(s), LineEnd(s);
      n <= k && LeadingSpace(s[..k]) == n && LineEnd(s[n..]) == k - n
  {
    var n, k := LeadingSpace(s), LineEnd(s);
    LineEndIs(s[n..], k - n);
  }

  lemma {:induction false} LineEndIs(s: Bytes, k: nat)
    requires k <= |s| && (k < |s| ==> Newline(s[k])) && forall i | 0 <= i < k :: !Newline(s[i])
    ensures LineEnd(s) == k
  {
  }

  lemma {:induction false} SpaceBehindLine(l: Bytes, p: Bytes)
    requires p != [] && LeadingSpace(p) == |p| && !Newline(p[0]) && LineEnd(l) == |l|
    ensures LineEnd(l + p) == |l + p| && (l + p)[..|l + p|] == l + p && l[..|l|] == l
    ensures LinkOf(l + p) == LinkOf(l)
  {
    LineEndIs(l + p, |l + p|);
    TrimIgnoresSpaceBehind(l, p);
  }

  lemma {:induction false} FirstLineKept(l: Bytes, p: Bytes)
    requires LineEnd(l) < |l|
    ensures var k := LineEnd(l);
      LineEnd(l + p) == k && (l + p)[..k] == l[..k] && (l + p)[k + 1..] == l[k + 1..] + p
  {
    LineEndIs(l + p, LineEnd(l));
  }

  /** White space at the end makes no difference to the links. */
  lemma {:induction false} LinksIgnoreSpaceBehind(l: Bytes, p: Bytes)
    requires p != [] && LeadingSpace(p) == |p|
    ensures Links(l + p) == Links(l)
    decreases |l|
  {
    var k := LineEnd(l);
    if k < |l| {
      FirstLineKept(l, p);
      LinksIgnoreSpaceBehind(l[k + 1..], p);
      calc {
        Links(l + p);
        { FieldsStep(l + p); }
        LinkOf(l[..k]) + Links(l[k + 1..] + p);
        LinkOf(l[..k]) + Links(l[k + 1..]);
        { FieldsStep(l); }
        Links(l);
      }
    } else if Newline(p[0]) {
      assert l + p == l + [p[0]] + [];
      LinksConcat(l, p[0], []);
      ConcatNil(Links(l));
    } else {
      SpaceBehindLine(l, p);
      FieldsStep(l);
      FieldsStep(l + p);
    }
  }

  lemma {:induction false} SpaceBehind(s: Bytes) returns (l: Bytes, p: Bytes)
    requires TrailingSpace(s) > 0
    ensures s == l + p && p != [] && LeadingSpace(p) == |p| && TrimRight(s) == TrimRight(l)
  {
    var k := |s| - TrailingSpace(s);
    TrailingIsLeading(s);
    l, p := s[..k], s[k..];
  }

  lemma {:induction false} LinksIgnoreTrimRight(s: Bytes)
    ensures Links(TrimRight(s)) == Links(s)
    decreases |s|
  {
    if TrailingSpace(s) > 0 {
      var l, p := SpaceBehind(s);
      LinksIgnoreSpaceBehind(l, p);
      LinksIgnoreTrimRight(l);
    }
  }

  lemma {:induction false} LinksIgnoreTrim(s: Bytes)
    ensures Links(TrimSpace(s)) == Links(s)
  {
    LinksIgnoreTrimRight(TrimLeft(s));
    LinksIgnoreSpaceAhead(s);
  }

  // ---------------------------------------------------------------- reading back what was published

  /** The links line by line. */
  function EachLine(lines: seq<Bytes>): seq<Bytes> {
    if lines == [] then [] else Links(lines[0]) + EachLine(lines[1..])
  }

  lemma {:induction false} PublishedLinks(lines: seq<Bytes>)
    ensures Links(Published(lines)) == EachLine(lines)
    decreases |lines|
  {
    if lines != [] {
      LinksConcat(lines[0], '\n', Published(lines[1..]));
      PublishedLinks(lines[1..]);
    }
  }

  lemma {:induction false} CleanUntouched(s: Bytes)
    requires forall c | c in s :: !Cleaned(c)
    ensures Clean(s) == s
    decreases |s|
  {
    if s != [] {
      forall c | c in s[1..] ensures !Cleaned(c) {
        assert c in s;
      }
      CleanUntouched(s[1..]);
      assert s[0] in s;
      HeadApart(s);
    }
  }

  lemma {:induction false} CleanKeepsColon(s: Bytes)
    requires ':' in s
    ensures ':' in Clean(s)
    decreases |s|
  {
    if s[0] != ':' {
      CleanKeepsColon(s[1..]);
    }
  }

  lemma {:induction false} PaddingKeepsColon(s: Bytes)
    requires ':' in s
    ensures ':' in TrimPadding(s) && ':' in Pad(s)
  {
    TrimPaddingKeeps(s);
    PadKeeps(s);
  }

  lemma {:induction false} TrimPaddingKeeps(s: Bytes)
    requires ':' in s
    ensures ':' in TrimPadding(s)
    decreases |s|
  {
    if s[|s| - 1] == '=' {
      assert s == s[..|s| - 1] + ['='];
      TrimPaddingKeeps(s[..|s| - 1]);
    }
  }

  lemma {:induction false} PadKeeps(s: Bytes)
    requires ':' in s
    ensures ':' in Pad(s)
    decreases (4 - |s| % 4) % 4
  {
    if |s| % 4 != 0 {
      PadKeeps(s + ['=']);
    }
  }

  lemma {:induction false} TrimKeepsColon(s: Bytes)
    requires ':' in s
    ensures ':' in TrimSpace(s)
  {
    TrimLeftKeepsColon(s);
    TrimRightKeepsColon(TrimLeft(s));
  }

  lemma {:induction false} TrimLeftKeepsColon(s: Bytes)
    requires ':' in s
    ensures ':' in TrimLeft(s)
    decreases |s|
  {
    var n := LeadingSpace(s);
    if n > 0 {
      assert ':' !in s[..n];
      assert s == s[..n] + s[n..];
      TrimLeftKeepsColon(s[n..]);
    }
  }

  lemma {:induction false} TrimRightKeepsColon(s: Bytes)
    requires ':' in s
    ensures ':' in TrimRight(s)
    decreases |s|
  {
    var n := TrailingSpace(s);
    if n > 0 {
      assert ':' !in s[|s| - n..];
      assert s == s[..|s| - n] + s[|s| - n..];
      TrimRightKeepsColon(s[..|s| - n]);
    }
  }

  lemma {:induction false} EncodedIsTrimmed(t: Bytes)
    requires t != []
    ensures Encode(t) != [] && TrimSpace(Encode(t)) == Encode(t)
  {
    var e := Encode(t);
    EncodeShape(t);
    assert Base64Char(e[0]) && Base64Char(e[|e| - 1]);
    assert Trimmed(e);
    TrimSpaceIs(e);
  }

  lemma {:induction false} EncodedIsClean(t: Bytes)
    ensures Clean(Encode(t)) == Encode(t)
  {
    EncodeShape(t);
    forall c | c in Encode(t) ensures !Cleaned(c) {
      assert Base64Char(c);
    }
    CleanUntouched(Encode(t));
  }

  /** An encoded text is read for what it encodes. */
  lemma {:induction false} EncodedIsDecoded(t: Bytes)
    requires t != []
    ensures TrimSpace(Encode(t)) == Encode(t) != [] && TryDecodeBase64Body(Encode(t)) == Some(t)
  {
    EncodedIsTrimmed(t);
    EncodedIsClean(t);
    EncodeShape(t);
    DecodeEncode(t);
  }

  /** A text with a colon is read as it stands. */
  lemma {:induction false} ColonIsPlain(t: Bytes)
    requires ':' in t
    ensures TrimSpace(t) != [] && TryDecodeBase64Body(TrimSpace(t)).None?
  {
    TrimKeepsColon(t);
    CleanKeepsColon(TrimSpace(t));
    PaddingKeepsColon(Clean(TrimSpace(t)));
    ColonNeverDecodes(Pad(Clean(TrimSpace(t))));
    ColonNeverDecodes(TrimPadding(Clean(TrimSpace(t))));
  }

  /** Whatever bytes the published lines hold: the encoded body reads back as the links of each
      line, in order; the plain body does so too when it has a colon anywhere. */
  lemma {:induction false} BodyReadsBackLineByLine(subs: seq<Bytes>, routingRules: Bytes, encrypt: bool)
    requires encrypt || ':' in Published(AllLines(subs, routingRules))
    ensures ReadBack(Body(subs, routingRules, encrypt)) == EachLine(AllLines(subs, routingRules))
  {
    var text := Published(AllLines(subs, routingRules));
    PublishedLinks(AllLines(subs, routingRules));
    LinksIgnoreTrim(text);
    if encrypt {
      if text == [] {
        EncodeShape(text);
      } else {
        EncodedIsDecoded(text);
      }
    } else {
      ColonIsPlain(text);
    }
  }

  // ---------------------------------------------------------------- the round trip

  /** A line that survives: a share link with no line break and no white space around it. */
  predicate Publishable(l: Bytes) {
    && LooksLikeLink(l) && Trimmed(l)
    && OneLine(l)
  }

  predicate OneLine(l: Bytes) {
    forall i | 0 <= i < |l| :: !Newline(l[i])
  }

  lemma {:induction false} PublishableIsItsLink(l: Bytes)
    requires Publishable(l)
    ensures Links(l) == [l] && ':' in l
  {
    LineEndIs(l, |l|);
    FieldsStep(l);
    assert l[..|l|] == l;
    TrimSpaceIs(l);
    ConcatNil([l]);
    var i :| 0 <= i <= |l| && HasPrefix(l[i..], "://");
    assert l[i] == l[i..][0] == ':';
  }

  lemma {:induction false} EveryLinkIsPublishable(fields: seq<Bytes>)
    requires forall f | f in fields :: OneLine(f)
    ensures forall l | l in LinksOf(fields) :: Publishable(l)
    decreases |fields|
  {
    if fields != [] {
      EveryLinkIsPublishable(fields[1..]);
      var f := fields[0];
      TrimSpaceIs(f);
      assert f in fields;
      forall i | 0 <= i < |TrimSpace(f)| ensures !Newline(TrimSpace(f)[i]) {
        assert TrimSpace(f)[i] in TrimSpace(f);
        var j :| 0 <= j < |f| && f[j] == TrimSpace(f)[i];
      }
    }
  }

  lemma {:induction false} FieldsHaveNoBreaks(s: Bytes)
    ensures forall f | f in Fields(s) :: OneLine(f)
    decreases |s|
  {
    if s != [] {
      var k := LineEnd(s);
      assert OneLine(s[..k]);
      if k < |s| {
        FieldsHaveNoBreaks(s[k + 1..]);
      }
    }
  }

  lemma {:induction false} ReadLinksArePublishable(body: Bytes)
    ensures forall l | l in ReadBack(body) :: Publishable(l)
  {
    var text := TrimSpace(body);
    var decoded := TryDecodeBase64Body(text);
    var read := if decoded.Some? then TrimSpace(decoded.value) else text;
    FieldsHaveNoBreaks(read);
    EveryLinkIsPublishable(Fields(read));
  }

  lemma {:induction false} PublishableLinesStand(lines: seq<Bytes>)
    requires forall l | l in lines :: Publishable(l)
    ensures EachLine(lines) == lines && (lines != [] ==> ':' in Published(lines))
    decreases |lines|
  {
    if lines != [] {
      PublishableIsItsLink(lines[0]);
      PublishableLinesStand(lines[1..]);
      HeadApart(lines);
    }
  }

  /** Reading a published body back gives the published lines, encoded or plain, exactly when every
      line is publishable. */
  lemma {:induction false} RoundTrip(subs: seq<Bytes>, encrypt: bool)
    ensures ReadBack(Body(subs, [], encrypt)) == subs <==> forall l | l in subs :: Publishable(l)
  {
    assert AllLines(subs, []) == subs by { ConcatNil(subs); }
    if forall l | l in subs :: Publishable(l) {
      PublishableLinesStand(subs);
      if subs == [] && !encrypt {
        assert ReadBack([]) == [];
      } else {
        BodyReadsBackLineByLine(subs, [], encrypt);
      }
    }
    ReadLinksArePublishable(Body(subs, [], encrypt));
  }

  /** Fetched over HTTP the round trip holds up to the size limit; beyond it the fetch fails. */
  lemma {:induction false} FetchedRoundTrip(subs: seq<Bytes>, encrypt: bool)
    requires forall l | l in subs :: Publishable(l)
    ensures DoFetch(Response(200, Body(subs, [], encrypt))) ==
      if |Body(subs, [], encrypt)| <= 2_097_152 then Some(subs) else None
  {
    RoundTrip(subs, encrypt);
  }

  // ---------------------------------------------------------------- other forms of an encoded body

  /** Blanks, tabs and line breaks are dropped wherever they stand, and nothing else is. */
  lemma {:induction false} CleanDrops(a: Bytes, c: Byte, b: Bytes)
    ensures Clean(a + [c] + b) == Clean(a) + (if c == ' ' || c == '\t' || c == '\r' || c == '\n' then [] else [c]) + Clean(b)
    decreases |a|
  {
    if a == [] {
      assert [] + [c] + b == [c] + b;
      CleanFirst(c, b);
    } else {
      assert a + [c] + b == [a[0]] + (a[1..] + [c] + b) && a == [a[0]] + a[1..];
      CleanDrops(a[1..], c, b);
      CleanFirst(a[0], a[1..] + [c] + b);
      CleanFirst(a[0], a[1..]);
    }
  }

  lemma {:induction false} CleanFirst(c: Byte, rest: Bytes)
    ensures Clean([c] + rest) == (if Cleaned(c) then [] else [c]) + Clean(rest)
  {
    assert ([c] + rest)[1..] == rest;
  }

  lemma {:induction false} PadIs(s: Bytes, k: nat)
    requires k < 4 && (|s| + k) % 4 == 0
    ensures Pad(s) == s + Equals(k)
    decreases k
  {
    if k > 0 {
      PadIs(s + ['='], k - 1);
      ConcatAssoc(s, ['='], Equals(k - 1));
    }
  }

  /** A run of padding. */
  function Equals(k: nat): Bytes {
    if k == 0 then [] else ['='] + Equals(k - 1)
  }

  lemma {:induction false} TrimPaddingIs(s: Bytes, k: nat)
    requires s == [] || s[|s| - 1] != '='
    ensures TrimPadding(s + Equals(k)) == s
    decreases k
  {
    if k > 0 {
      EqualsEnds(k);
      assert s + Equals(k) == (s + Equals(k - 1)) + ['='];
      assert ((s + Equals(k - 1)) + ['='])[..|s + Equals(k - 1)|] == s + Equals(k - 1);
      TrimPaddingIs(s, k - 1);
    } else {
      assert s + Equals(0) == s;
    }
  }

  lemma {:induction false} EqualsEnds(k: nat)
    requires k > 0
    ensures Equals(k) == Equals(k - 1) + ['=']
    decreases k
  {
    if k > 1 {
      EqualsEnds(k - 1);
    }
  }

  /** Text in the standard alphabet is decoded wherever it is broken, and with any part of its
      padding missing. */
  lemma {:induction false} StandardFormReads(text: Bytes, s: Bytes, k: nat)
    requires k < 4 && Clean(text) + Equals(k) == Encode(s)
    ensures TryDecodeBase64Body(text) == Some(s)
  {
    EncodeShape(s);
    EqualsCount(k);
    assert |Clean(text)| + k == |Encode(s)|;
    PadIs(Clean(text), k);
    DecodeEncode(s);
  }

  lemma {:induction false} EqualsCount(k: nat)
    ensures |Equals(k)| == k
  {
    if k > 0 {
      EqualsCount(k - 1);
    }
  }

  lemma {:induction false} PadAdds(s: Bytes) returns (k: nat)
    ensures Pad(s) == s + Equals(k)
  {
    k := Missing(|s|);
    PadIs(s, k);
  }

  lemma {:induction false} EqualsConcat(a: nat, b: nat)
    ensures Equals(a) + Equals(b) == Equals(a + b)
    decreases a
  {
    if a > 0 {
      EqualsConcat(a - 1, b);
      ConcatAssoc(['='], Equals(a - 1), Equals(b));
    }
  }

  lemma {:induction false} TrimFour(x: Bytes, rest: Bytes)
    requires |x| == 4 && x[3] != '='
    ensures TrimPadding(x + rest) == x + TrimPadding(rest)
    decreases |rest|
  {
    if rest == [] {
      assert x + rest == x && x + TrimPadding(rest) == x;
    } else if rest[|rest| - 1] == '=' {
      assert (x + rest)[..|x + rest| - 1] == x + rest[..|rest| - 1];
      TrimFour(x, rest[..|rest| - 1]);
    }
  }

  predicate Common(s: Bytes) {
    '+' !in s && '/' !in s
  }

  /** A text that both decoders take they decode alike. */
  lemma {:induction false} DecodersAgree(s: Bytes)
    requires DecodeStd(s).Some? && Common(s)
    ensures DecodeRawUrl(TrimPadding(s)) == DecodeStd(s)
    decreases |s|
  {
    if s == [] {
    } else if |s| == 4 && s[3] == '=' {
      LastFourAgree(s);
    } else {
      var x, rest := s[..4], s[4..];
      assert s == x + rest;
      TrimFour(x, rest);
      assert Common(rest) by {
        assert forall c | c in rest :: c in s;
      }
      DecodersAgree(rest);
      FirstFourAgree(s, rest, TrimPadding(rest));
    }
  }

  lemma {:induction false} LastFourAgree(s: Bytes)
    requires |s| == 4 && s[3] == '=' && DecodeStd(s).Some? && Common(s)
    ensures DecodeRawUrl(TrimPadding(s)) == DecodeStd(s)
  {
    assert s[0] in s && s[1] in s && s[2] in s;
    assert s[..3][..2] == s[..2];
    if s[2] == '=' {
      assert TrimPadding(s) == TrimPadding(s[..3]) == TrimPadding(s[..2]) == s[..2];
    } else {
      assert TrimPadding(s) == TrimPadding(s[..3]) == s[..3];
    }
  }

  lemma {:induction false} FirstFourAgree(s: Bytes, rest: Bytes, trimmed: Bytes)
    requires |s| >= 4 && s[3] != '=' && rest == s[4..] && DecodeStd(s).Some? && Common(s)
    requires DecodeStd(rest).Some? ==> DecodeRawUrl(trimmed) == DecodeStd(rest)
    ensures DecodeRawUrl(s[..4] + trimmed) == DecodeStd(s)
  {
    var t := s[..4] + trimmed;
    assert s[0] in s && s[1] in s && s[2] in s && s[3] in s;
    assert t[4..] == trimmed;
  }

  /** Text in the URL alphabet is decoded wherever it is broken, with or without padding. */
  lemma {:induction false} UrlFormReads(text: Bytes, s: Bytes, k: nat)
    requires Clean(text) == RawUrlEncode(s) + Equals(k)
    ensures TryDecodeBase64Body(text) == Some(s)
  {
    var e := RawUrlEncode(s);
    RawUrlShape(s);
    DecodeRawUrlEncode(s);
    assert e != [] ==> e[|e| - 1] in e;
    TrimPaddingIs(e, k);
    var more := PadAdds(Clean(text));
    EqualsConcat(k, more);
    ConcatAssoc(e, Equals(k), Equals(more));
    UrlFormDecodes(text, Clean(text), Pad(Clean(text)), e, k, k + more, s);
  }

  lemma {:induction false} UrlFormDecodes(text: Bytes, clean: Bytes, padded: Bytes, e: Bytes, k: nat, n: nat, s: Bytes)
    requires clean == Clean(text) && padded == Pad(clean) && clean == e + Equals(k) && padded == e + Equals(n)
    requires DecodeRawUrl(e) == Some(s) && TrimPadding(clean) == e
    requires forall c | c in e :: c != '+' && c != '/' && c != '='
    ensures TryDecodeBase64Body(text) == Some(s)
  {
    if DecodeStd(padded).Some? {
      PaddedFormReads(padded, e, n, s);
    }
  }

  lemma {:induction false} PaddedFormReads(padded: Bytes, e: Bytes, n: nat, s: Bytes)
    requires padded == e + Equals(n) && DecodeStd(padded).Some? && DecodeRawUrl(e) == Some(s)
    requires forall c | c in e :: c != '+' && c != '/' && c != '='
    ensures DecodeStd(padded) == Some(s)
  {
    EqualsAreEquals(n);
    assert Common(padded);
    assert e != [] ==> e[|e| - 1] in e;
    TrimPaddingIs(e, n);
    DecodersAgree(padded);
  }

  lemma {:induction false} EqualsAreEquals(k: nat)
    ensures forall c | c in Equals(k) :: c == '='
  {
    if k > 0 {
      EqualsAreEquals(k - 1);
    }
  }

  /** The links of a plain list are read back from it whether it comes as it is, or encoded in either
      alphabet, broken anywhere, padded or not. */
  lemma {:induction false} EveryFormReadsAlike(body: Bytes, list: Bytes, k: nat)
    requires ':' in list
    requires var text := Clean(TrimSpace(body));
      text == RawUrlEncode(list) + Equals(k) || (k < 4 && text + Equals(k) == Encode(list))
    ensures ReadBack(body) == ReadBack(list) == Links(list)
  {
    var text := TrimSpace(body);
    DecodeRawUrlEncode(list);
    EncodeShape(list);
    if Clean(text) == RawUrlEncode(list) + Equals(k) {
      UrlFormReads(text, list, k);
    } else {
      StandardFormReads(text, list, k);
    }
    ColonIsPlain(list);
    LinksIgnoreTrim(list);
    NothingIsNothing(text, list);
  }

  lemma {:induction false} NothingIsNothing(text: Bytes, list: Bytes)
    requires list != [] && TryDecodeBase64Body(text) == Some(list)
    ensures text != []
  {
    var nothing: Bytes := [];
    assert Pad(Clean(nothing)) == [] && DecodeStd(nothing) == Some([]);
  }
}
