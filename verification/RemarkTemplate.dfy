/** Remark templates: {{TOKEN}} placeholders, the filter that takes whole categories of them out of
    a template, and the translation of single-brace tokens from the user interface. */
module RemarkTemplate {
  import opened Collections
  import opened Text

  // ---------------------------------------------------------------- tokens

  predicate NameChar(c: Byte) {
    'A' <= c <= 'Z' || c == '_'
  }

  predicate TokenChar(c: Byte) {
    NameChar(c) || c == '{' || c == '}'
  }

  function NameLen(s: Bytes): (n: nat)
    ensures n <= |s|
    decreases |s|
  {
    if s == [] || !NameChar(s[0]) then 0 else 1 + NameLen(s[1..])
  }

  /** The length of the token `s` begins with, or 0. */
  function TokenLen(s: Bytes): (n: nat)
    ensures n <= |s| && (n > 0 ==> n >= 5)
  {
    if |s| < 5 || s[0] != '{' || s[1] != '{' then 0
    else
      var n := NameLen(s[2..]);
      if n >= 1 && n + 4 <= |s| && s[n + 2] == '}' && s[n + 3] == '}' then n + 4 else 0
  }

  /** The name of the token `s` begins with. */
  function TokenName(s: Bytes): Bytes
    requires TokenLen(s) > 0
  {
    s[2..TokenLen(s) - 2]
  }

  /** The place of the first token in `s`, or |s|. */
  function NextToken(s: Bytes): (p: nat)
    ensures p <= |s|
    decreases |s|
  {
    if s == [] || TokenLen(s) > 0 then 0 else 1 + NextToken(s[1..])
  }

  datatype Token = Token(name: Bytes, start: nat, end: nat)

  /** The tokens of a text that stands at offset `at`, from left to right. */
  function Tokens(s: Bytes, at: nat): seq<Token>
    decreases |s|
  {
    if s == [] then []
    else if TokenLen(s) > 0 then [Token(TokenName(s), at, at + TokenLen(s))] + Tokens(s[TokenLen(s)..], at + TokenLen(s))
    else Tokens(s[1..], at + 1)
  }

  /** The names of the tokens alone. */
  function Names(s: Bytes): seq<Bytes>
    decreases |s|
  {
    if s == [] then []
    else if TokenLen(s) > 0 then [TokenName(s)] + Names(s[TokenLen(s)..])
    else Names(s[1..])
  }

  function Keep(names: seq<Bytes>, remove: set<Bytes>): seq<Bytes>
    decreases |names|
  {
    if names == [] then []
    else (if names[0] in remove then [] else [names[0]]) + Keep(names[1..], remove)
  }

  /** The names of the tokens of several texts, one after the other. */
  function NamesOfAll(texts: seq<Bytes>): seq<Bytes>
    decreases |texts|
  {
    if texts == [] then [] else Names(texts[0]) + NamesOfAll(texts[1..])
  }

  // ---------------------------------------------------------------- tokens and concatenation

  lemma {:induction false} NameLenStops(x: Bytes, b: Bytes)
    requires b == [] || !NameChar(b[0])
    ensures NameLen(x + b) == NameLen(x)
    decreases |x|
  {
    if x == [] {
      assert x + b == b;
    } else {
      assert (x + b)[1..] == x[1..] + b;
      NameLenStops(x[1..], b);
    }
  }

  /** No token reaches into a text that begins outside token characters, or with a token. */
  predicate Clean(b: Bytes) {
    b == [] || !TokenChar(b[0]) || TokenLen(b) > 0
  }

  lemma {:induction false} TokenStops(x: Bytes, b: Bytes)
    requires x != [] && Clean(b)
    ensures TokenLen(x + b) == TokenLen(x)
  {
    if |x| >= 2 {
      assert (x + b)[2..] == x[2..] + b;
      NameLenStops(x[2..], b);
    }
  }

  lemma {:induction false} NameLenStays(s: Bytes, b: Bytes)
    requires NameLen(s) < |s|
    ensures NameLen(s + b) == NameLen(s)
    decreases |s|
  {
    if NameChar(s[0]) {
      assert (s + b)[1..] == s[1..] + b;
      NameLenStays(s[1..], b);
    }
  }

  lemma {:induction false} NameLenCut(s: Bytes, m: nat)
    requires NameLen(s) < m <= |s|
    ensures NameLen(s[..m]) == NameLen(s)
    decreases |s|
  {
    if NameChar(s[0]) {
      assert s[..m][1..] == s[1..][..m - 1];
      NameLenCut(s[1..], m - 1);
    }
  }

  lemma {:induction false} TokenStays(x: Bytes, b: Bytes)
    requires TokenLen(x) > 0
    ensures TokenLen(x + b) == TokenLen(x)
  {
    assert (x + b)[2..] == x[2..] + b;
    NameLenStays(x[2..], b);
  }

  lemma {:induction false} DropOfConcat<T>(a: seq<T>, b: seq<T>, n: nat)
    requires n <= |a|
    ensures (a + b)[n..] == a[n..] + b && (a + b)[..n] == a[..n]
  {
  }

  lemma {:induction false} SameName(a: Bytes, b: Bytes)
    requires TokenLen(a) > 0 && TokenLen(a + b) == TokenLen(a)
    ensures TokenName(a + b) == TokenName(a)
  {
  }

  lemma {:induction false} NamesConcat(a: Bytes, b: Bytes)
    requires Clean(b)
    ensures Names(a + b) == Names(a) + Names(b)
    decreases |a|
  {
    if a == [] {
      ConcatNil(b);
      ConcatNil(Names(b));
    } else {
      TokenStops(a, b);
      var n := TokenLen(a);
      if n > 0 {
        calc {
          Names(a + b);
        == { DropOfConcat(a, b, n); SameName(a, b); }
          [TokenName(a)] + Names(a[n..] + b);
        == { NamesConcat(a[n..], b); }
          [TokenName(a)] + (Names(a[n..]) + Names(b));
        == { ConcatAssoc([TokenName(a)], Names(a[n..]), Names(b)); }
          Names(a) + Names(b);
        }
      } else {
        DropOfConcat(a, b, 1);
        NamesConcat(a[1..], b);
      }
    }
  }

  lemma {:induction false} NamesSkip(s: Bytes, k: nat)
    requires k <= NextToken(s)
    ensures Names(s[k..]) == Names(s)
    ensures NextToken(s[k..]) == NextToken(s) - k
    decreases k
  {
    if k > 0 {
      NamesSkip(s[1..], k - 1);
      assert s[1..][k - 1..] == s[k..];
    } else {
      assert s[k..] == s;
    }
  }

  lemma {:induction false} Halves<T>(s: seq<T>, p: nat)
    requires p <= |s|
    ensures s[..p] + s[p..] == s
  {
  }

  lemma {:induction false} NamesSplit(s: Bytes, p: nat)
    requires p <= |s| && Clean(s[p..])
    ensures Names(s) == Names(s[..p]) + Names(s[p..])
  {
    Halves(s, p);
    NamesConcat(s[..p], s[p..]);
  }

  lemma {:induction false} AtNextToken(s: Bytes)
    ensures NextToken(s) < |s| ==> TokenLen(s[NextToken(s)..]) > 0
    decreases |s|
  {
    if s == [] {
    } else if TokenLen(s) > 0 {
      assert s[0..] == s;
    } else {
      AtNextToken(s[1..]);
      assert s[1..][NextToken(s[1..])..] == s[NextToken(s)..];
    }
  }

  /** The text before the first token has none. */
  lemma {:induction false} NoNamesBefore(s: Bytes)
    ensures Names(s[..NextToken(s)]) == []
  {
    var p := NextToken(s);
    AtNextToken(s);
    NamesSplit(s, p);
    NamesSkip(s, p);
    OnlyNil(Names(s[..p]), Names(s[p..]));
  }

  lemma {:induction false} OnlyNil<T>(a: seq<T>, b: seq<T>)
    requires a + b == b
    ensures a == []
  {
    assert |a + b| == |a| + |b|;
  }

  // ---------------------------------------------------------------- trimming and cutting

  lemma {:induction false} NamesTrimLeft(s: Bytes)
    ensures Names(TrimLeft(s)) == Names(s)
    decreases |s|
  {
    var n := LeadingSpace(s);
    if n > 0 {
      NoTokenInSpace(s, n);
      NamesSkip(s, n);
      NamesTrimLeft(s[n..]);
    }
  }

  lemma {:induction false} NoTokenInSpace(s: Bytes, n: nat)
    requires n == LeadingSpace(s)
    ensures n <= NextToken(s)
  {
    if n >= 1 {
      assert TokenLen(s) == 0 && NextToken(s) == 1 + NextToken(s[1..]);
    }
    if n >= 2 {
      assert s[1..][0] == s[1] && TokenLen(s[1..]) == 0;
      assert NextToken(s[1..]) == 1 + NextToken(s[1..][1..]);
    }
    if n >= 3 {
      assert s[1..][1..] == s[2..] && s[2..][0] == s[2] && TokenLen(s[2..]) == 0;
      assert NextToken(s[2..]) == 1 + NextToken(s[2..][1..]);
    }
  }

  /** Bytes that cannot be part of a token hold none. */
  lemma {:induction false} NoNamesIn(s: Bytes)
    requires forall c | c in s :: !TokenChar(c)
    ensures Names(s) == []
    decreases |s|
  {
    if s != [] {
      assert s[0] in s;
      NoNamesIn(s[1..]);
    }
  }

  lemma {:induction false} NamesTrimRight(s: Bytes)
    ensures Names(TrimRight(s)) == Names(s)
    decreases |s|
  {
    var n := TrailingSpace(s);
    if n > 0 {
      var k := |s| - n;
      assert forall c | c in s[k..] :: !TokenChar(c);
      NoNamesIn(s[k..]);
      NamesSplit(s, k);
      ConcatNil(Names(s[..k]));
      NamesTrimRight(s[..k]);
    }
  }

  lemma {:induction false} NamesTrimSpace(s: Bytes)
    ensures Names(TrimSpace(s)) == Names(s)
  {
    NamesTrimLeft(s);
    NamesTrimRight(TrimLeft(s));
  }

  /** A text after which anything may follow: it is empty or ends with a token. */
  ghost predicate Closed(x: Bytes) {
    forall y: Bytes :: ClosedBefore(x, y)
  }

  ghost predicate ClosedBefore(x: Bytes, y: Bytes) {
    Names(x + y) == Names(x) + Names(y)
  }

  lemma {:induction false} NilIsClosed()
    ensures Closed([])
  {
    forall y: Bytes
      ensures ClosedBefore([], y)
    {
      ConcatNil(y);
      ConcatNil(Names(y));
    }
  }

  /** The names of a text that starts with a token, whatever follows it. */
  lemma {:induction false} TokenThen(t: Bytes, y: Bytes)
    requires TokenLen(t) > 0
    ensures Names(t[..TokenLen(t)] + y) == [TokenName(t)] + Names(y)
    ensures Clean(t[..TokenLen(t)] + y)
  {
    var n := TokenLen(t);
    var tok := t[..n];
    TokenAlone(t);
    TokenStays(tok, y);
    SameName(tok, y);
    DropOfConcat(tok, y, n);
    ConcatNil(y);
  }

  lemma {:induction false} TokenAlone(t: Bytes)
    requires TokenLen(t) > 0
    ensures TokenLen(t[..TokenLen(t)]) == TokenLen(t) && TokenName(t[..TokenLen(t)]) == TokenName(t)
  {
    var n := TokenLen(t);
    assert t[..n][2..] == t[2..][..n - 2];
    NameLenCut(t[2..], n - 2);
    assert t[..n][2..n - 2] == t[2..n - 2];
  }

  lemma {:induction false} Regroup<T>(a: seq<T>, b: seq<T>, c: seq<T>, d: seq<T>)
    ensures a + b + c + d == a + (b + (c + d))
  {
  }

  lemma {:induction false} ClosedWith(x: Bytes, lit: Bytes, t: Bytes, y: Bytes)
    requires Closed(x) && Names(lit) == [] && TokenLen(t) > 0
    ensures Names(x + lit + t[..TokenLen(t)] + y) == Names(x) + [TokenName(t)] + Names(y)
  {
    var tok := t[..TokenLen(t)];
    calc {
      Names(x + lit + tok + y);
    == { Regroup(x, lit, tok, y); }
      Names(x + (lit + (tok + y)));
    == { assert ClosedBefore(x, lit + (tok + y)); }
      Names(x) + Names(lit + (tok + y));
    == { TokenThen(t, y); NamesConcat(lit, tok + y); ConcatNil(Names(tok + y)); }
      Names(x) + ([TokenName(t)] + Names(y));
    == { ConcatAssoc(Names(x), [TokenName(t)], Names(y)); }
      Names(x) + [TokenName(t)] + Names(y);
    }
  }

  /** Reading on to the end of the next token closes a text again. */
  lemma {:induction false} ClosedAgain(x: Bytes, lit: Bytes, t: Bytes)
    requires Closed(x) && Names(lit) == [] && TokenLen(t) > 0
    ensures Closed(x + lit + t[..TokenLen(t)])
    ensures Names(x + lit + t[..TokenLen(t)]) == Names(x) + [TokenName(t)]
  {
    var more := x + lit + t[..TokenLen(t)];
    ClosedWith(x, lit, t, []);
    ConcatNil(more);
    ConcatNil(Names(x) + [TokenName(t)]);
    forall y: Bytes
      ensures ClosedBefore(more, y)
    {
      ClosedWith(x, lit, t, y);
    }
  }

  // ---------------------------------------------------------------- the filter

  /** Tokens one after the other within a range. */
  predicate InOrder(tokens: seq<Token>, from: nat, upto: nat)
    decreases |tokens|
  {
    if tokens == [] then from <= upto
    else from <= tokens[0].start < tokens[0].end && InOrder(tokens[1..], tokens[0].end, upto)
  }

  lemma {:induction false} OrderBounds(tokens: seq<Token>, from: nat, upto: nat)
    requires InOrder(tokens, from, upto)
    ensures from <= upto
    ensures tokens != [] ==> from <= tokens[0].start < tokens[|tokens| - 1].end <= upto
    ensures tokens != [] ==> tokens[0].end <= upto
    decreases |tokens|
  {
    if tokens != [] {
      OrderBounds(tokens[1..], tokens[0].end, upto);
    }
  }

  lemma {:induction false} OrderCons(t: Token, rest: seq<Token>, from: nat, upto: nat)
    requires from <= t.start < t.end && InOrder(rest, t.end, upto)
    ensures InOrder([t] + rest, from, upto)
  {
    assert ([t] + rest)[1..] == rest;
  }

  lemma {:induction false} OrderOf(tokens: seq<Token>, t: Token, rest: seq<Token>, from: nat, upto: nat)
    requires tokens == [t] + rest && from <= t.start < t.end && InOrder(rest, t.end, upto)
    ensures InOrder(tokens, from, upto)
  {
    OrderCons(t, rest, from, upto);
  }

  lemma {:induction false} OrderWeakens(tokens: seq<Token>, from: nat, earlier: nat, upto: nat)
    requires InOrder(tokens, from, upto) && earlier <= from
    ensures InOrder(tokens, earlier, upto)
  {
  }

  lemma {:induction false} TokensInOrder(s: Bytes, at: nat)
    ensures InOrder(Tokens(s, at), at, at + |s|)
    decreases |s|
  {
    if s == [] {
    } else if TokenLen(s) > 0 {
      var n := TokenLen(s);
      TokensInOrder(s[n..], at + n);
      OrderOf(Tokens(s, at), Token(TokenName(s), at, at + n), Tokens(s[n..], at + n), at, at + |s|);
    } else {
      TokensInOrder(s[1..], at + 1);
      OrderWeakens(Tokens(s[1..], at + 1), at + 1, at, at + |s|);
    }
  }

  function Fragment(x: Bytes): seq<Bytes> {
    if TrimSpace(x) == [] then [] else [TrimSpace(x)]
  }

  /** appendKeptRun: a run of text between removed tokens, cut back to its own tokens on the sides
      where one was removed; nothing is left of a run without tokens. */
  function KeptRun(run: Bytes, leftRemoved: bool, rightRemoved: bool): seq<Bytes> {
    var tokens := Tokens(run, 0);
    if tokens == [] then []
    else
      TokensInOrder(run, 0);
      OrderBounds(tokens, 0, |run|);
      Fragment(run[if leftRemoved then tokens[0].start else 0..if rightRemoved then tokens[|tokens| - 1].end else |run|])
  }

  /** The runs left of a segment from `runStart` on, where `tokens` are yet to be looked at. */
  function Runs(seg: Bytes, tokens: seq<Token>, runStart: nat, leftRemoved: bool, remove: set<Bytes>): seq<Bytes>
    requires InOrder(tokens, runStart, |seg|)
    decreases |tokens|
  {
    OrderBounds(tokens, runStart, |seg|);
    if tokens == [] then KeptRun(seg[runStart..], leftRemoved, false)
    else if tokens[0].name in remove then
      KeptRun(seg[runStart..tokens[0].start], leftRemoved, true) + Runs(seg, tokens[1..], tokens[0].end, true, remove)
    else
      OrderWeakens(tokens[1..], tokens[0].end, runStart, |seg|);
      Runs(seg, tokens[1..], runStart, leftRemoved, remove)
  }

  predicate AnyRemoved(tokens: seq<Token>, remove: set<Bytes>)
    decreases |tokens|
  {
    tokens != [] && (tokens[0].name in remove || AnyRemoved(tokens[1..], remove))
  }

  function FilterSegment(seg: Bytes, remove: set<Bytes>): Bytes {
    if !AnyRemoved(Tokens(seg, 0), remove) then TrimSpace(seg)
    else
      TokensInOrder(seg, 0);
      Join(Runs(seg, Tokens(seg, 0), 0, false, remove), " ")
  }

  /** The segments that have anything left. */
  function FilterSegments(segments: seq<Bytes>, remove: set<Bytes>): seq<Bytes>
    decreases |segments|
  {
    if segments == [] then []
    else
      var out := FilterSegment(segments[0], remove);
      (if out == [] then [] else [out]) + FilterSegments(segments[1..], remove)
  }

  function FilterTemplate(template: Bytes, remove: set<Bytes>): Bytes {
    Join(FilterSegments(Split(template, '|'), remove), "|")
  }

  // ---------------------------------------------------------------- the filter keeps the other tokens

  /** The end of the last token, or 0. */
  function LastEnd(s: Bytes): (n: nat)
    ensures n <= |s|
    decreases |s|
  {
    if s == [] then 0
    else if TokenLen(s) > 0 then TokenLen(s) + LastEnd(s[TokenLen(s)..])
    else if LastEnd(s[1..]) == 0 then 0 else 1 + LastEnd(s[1..])
  }

  lemma {:induction false} LastOf<T>(x: T, rest: seq<T>)
    ensures var s := [x] + rest; s != [] && s[0] == x && s[|s| - 1] == if rest == [] then x else rest[|rest| - 1]
  {
  }

  /** Where the tokens of a text begin and end. */
  lemma {:induction false} TokensFirst(s: Bytes, at: nat)
    ensures Tokens(s, at) == [] <==> NextToken(s) == |s|
    ensures Tokens(s, at) != [] ==> Tokens(s, at)[0].start == at + NextToken(s)
    decreases |s|
  {
    if s != [] && TokenLen(s) == 0 {
      TokensFirst(s[1..], at + 1);
    }
  }

  lemma {:induction false} LastEndPositive(s: Bytes)
    ensures LastEnd(s) == 0 <==> NextToken(s) == |s|
    decreases |s|
  {
    if s != [] && TokenLen(s) == 0 {
      LastEndPositive(s[1..]);
    }
  }

  lemma {:induction false} TokensLastHit(s: Bytes, at: nat, rest: seq<Token>, last: nat)
    requires TokenLen(s) > 0 && rest == Tokens(s[TokenLen(s)..], at + TokenLen(s)) && last == LastEnd(s[TokenLen(s)..])
    requires if rest == [] then last == 0 else rest[|rest| - 1].end == at + TokenLen(s) + last
    ensures Tokens(s, at) != [] && Tokens(s, at)[|Tokens(s, at)| - 1].end == at + LastEnd(s)
  {
    LastOf(Token(TokenName(s), at, at + TokenLen(s)), rest);
  }

  lemma {:induction false} NoTokensNoEnd(s: Bytes, at: nat)
    ensures Tokens(s, at) == [] <==> LastEnd(s) == 0
  {
    TokensFirst(s, at);
    LastEndPositive(s);
  }

  lemma {:induction false} TokensLast(s: Bytes, at: nat)
    requires Tokens(s, at) != []
    ensures Tokens(s, at)[|Tokens(s, at)| - 1].end == at + LastEnd(s)
    decreases |s|
  {
    if TokenLen(s) > 0 {
      var rest, mid := s[TokenLen(s)..], at + TokenLen(s);
      NoTokensNoEnd(rest, mid);
      if Tokens(rest, mid) != [] {
        TokensLast(rest, mid);
      }
      TokensLastHit(s, at, Tokens(rest, mid), LastEnd(rest));
    } else {
      TokensLast(s[1..], at + 1);
      NoTokensNoEnd(s[1..], at + 1);
    }
  }

  lemma {:induction false} LastEndSkips(s: Bytes, k: nat)
    requires k <= NextToken(s) < |s|
    ensures LastEnd(s) == k + LastEnd(s[k..])
    decreases k
  {
    if k > 0 {
      LastEndSkips(s[1..], k - 1);
      LastEndPositive(s[1..]);
      assert s[1..][k - 1..] == s[k..];
    } else {
      assert s[k..] == s;
    }
  }

  lemma {:induction false} TakeOfDrop<T>(s: seq<T>, n: nat, m: nat)
    requires n + m <= |s|
    ensures s[..n + m] == s[..n] + s[n..][..m] && s[..n + m] + s[n + m..] == s
  {
  }

  /** Cutting off what follows the last token loses no token and makes none. */
  lemma {:induction false} NamesCutTail(s: Bytes)
    ensures Names(s[..LastEnd(s)]) == Names(s)
    decreases |s|
  {
    if s == [] {
    } else if TokenLen(s) > 0 {
      var n := TokenLen(s);
      var rest := s[n..];
      NamesCutTail(rest);
      TokenThen(s, rest[..LastEnd(rest)]);
      TakeOfDrop(s, n, LastEnd(rest));
    } else {
      NamesCutTail(s[1..]);
      NamesCutPlain(s, LastEnd(s[1..]));
    }
  }

  lemma {:induction false} NamesCutPlain(s: Bytes, m: nat)
    requires s != [] && TokenLen(s) == 0 && m < |s|
    ensures Names(s[..m + 1]) == Names(s[1..][..m])
  {
    var u := s[..m + 1];
    TakeOfDrop(s, 1, m);
    if TokenLen(u) > 0 {
      TokenStays(u, s[m + 1..]);
      assert false;
    }
    assert u[1..] == s[1..][..m];
  }

  lemma {:induction false} SliceSlice<T>(s: seq<T>, a: nat, n: nat)
    requires a + n <= |s|
    ensures s[a..a + n] == s[a..][..n]
  {
  }

  lemma {:induction false} NamesFrom(run: Bytes, start: nat)
    requires start <= NextToken(run)
    ensures Names(run[start..|run|]) == Names(run)
  {
    NamesSkip(run, start);
    assert run[start..|run|] == run[start..];
  }

  lemma {:induction false} NamesUpTo(s: Bytes, n: nat, t: Bytes)
    requires n == LastEnd(s) && t == s[..n]
    ensures Names(t) == Names(s)
  {
    NamesCutTail(s);
  }

  lemma {:induction false} NamesUpToLast(run: Bytes, start: nat)
    requires start <= NextToken(run) < |run|
    ensures start <= LastEnd(run) && Names(run[start..LastEnd(run)]) == Names(run)
  {
    LastEndSkips(run, start);
    NamesOn(run, run[start..], start);
    SliceSlice(run, start, LastEnd(run) - start);
    NamesUpTo(run[start..], LastEnd(run) - start, run[start..LastEnd(run)]);
  }

  lemma {:induction false} NamesOfOne(x: Bytes)
    ensures NamesOfAll([x]) == Names(x)
  {
    assert [x][1..] == [];
    ConcatNil(Names(x));
  }

  lemma {:induction false} NamesNone(s: Bytes)
    requires NextToken(s) == |s|
    ensures Names(s) == []
  {
    NamesSkip(s, |s|);
  }

  /** What is kept of a run, from the list of its tokens. */
  lemma {:induction false} KeptRunOf(run: Bytes, left: bool, right: bool, tokens: seq<Token>)
    requires tokens == Tokens(run, 0) && tokens != []
    ensures 0 <= tokens[0].start < tokens[|tokens| - 1].end <= |run|
    ensures KeptRun(run, left, right) ==
      Fragment(run[if left then tokens[0].start else 0..if right then tokens[|tokens| - 1].end else |run|])
  {
    TokensInOrder(run, 0);
    OrderBounds(tokens, 0, |run|);
  }

  lemma {:induction false} TokenEnds(run: Bytes) returns (tokens: seq<Token>)
    requires NextToken(run) < |run|
    ensures tokens == Tokens(run, 0) && tokens != []
    ensures tokens[0].start == NextToken(run) && tokens[|tokens| - 1].end == LastEnd(run)
  {
    tokens := Tokens(run, 0);
    TokensFirst(run, 0);
    TokensLast(run, 0);
  }

  lemma {:induction false} KeptRunIs(run: Bytes, left: bool, right: bool, start: nat, end: nat)
    requires NextToken(run) < |run|
    requires start == (if left then NextToken(run) else 0) && end == if right then LastEnd(run) else |run|
    ensures start <= end <= |run| && KeptRun(run, left, right) == Fragment(run[start..end])
  {
    var tokens := TokenEnds(run);
    KeptRunOf(run, left, right, tokens);
  }

  lemma {:induction false} FragmentNames(x: Bytes)
    ensures NamesOfAll(Fragment(x)) == Names(x)
  {
    NamesTrimSpace(x);
    NamesOfOne(TrimSpace(x));
  }

  /** A kept run holds the tokens of its text. */
  lemma {:induction false} KeptRunNames(run: Bytes, left: bool, right: bool)
    ensures NamesOfAll(KeptRun(run, left, right)) == Names(run)
  {
    if NextToken(run) == |run| {
      TokensFirst(run, 0);
      NamesNone(run);
    } else {
      var start, end := if left then NextToken(run) else 0, if right then LastEnd(run) else |run|;
      calc {
        NamesOfAll(KeptRun(run, left, right));
      == { KeptRunIs(run, left, right, start, end); }
        NamesOfAll(Fragment(run[start..end]));
      == { FragmentNames(run[start..end]); }
        Names(run[start..end]);
      == { NamesBetween(run, start, end); }
        Names(run);
      }
    }
  }

  lemma {:induction false} NamesBetween(run: Bytes, start: nat, end: nat)
    requires start <= NextToken(run) < |run| && start <= end && (end == |run| || end == LastEnd(run))
    ensures Names(run[start..end]) == Names(run)
  {
    if end == |run| {
      NamesFrom(run, start);
    } else {
      NamesUpToLast(run, start);
    }
  }

  lemma {:induction false} NamesOfAllConcat(a: seq<Bytes>, b: seq<Bytes>)
    ensures NamesOfAll(a + b) == NamesOfAll(a) + NamesOfAll(b)
    decreases |a|
  {
    if a == [] {
      ConcatNil(b);
      ConcatNil(NamesOfAll(b));
    } else {
      DropOfConcat(a, b, 1);
      NamesOfAllConcat(a[1..], b);
      ConcatAssoc(Names(a[0]), NamesOfAll(a[1..]), NamesOfAll(b));
    }
  }

  lemma {:induction false} SkipOne(s: Bytes, at: nat)
    requires 0 < NextToken(s)
    ensures s != [] && Tokens(s, at) == Tokens(s[1..], at + 1) && NextToken(s[1..]) == NextToken(s) - 1
  {
  }

  lemma {:induction false} TokensSkip(s: Bytes, k: nat, at: nat)
    requires k <= NextToken(s)
    ensures Tokens(s, at) == Tokens(s[k..], at + k)
    decreases k
  {
    if k > 0 {
      SkipOne(s, at);
      TokensSkip(s[1..], k - 1, at + 1);
      DropDrop(s, 1, k - 1);
    } else {
      assert s[k..] == s;
    }
  }

  /** The next token of a segment from place `c` on: it begins at `b` and ends at `e`. */
  ghost predicate NextIs(seg: Bytes, c: nat, b: nat, e: nat) {
    && c <= b < e <= |seg| && TokenLen(seg[b..]) == e - b
    && Names(seg[c..b]) == []
  }

  function TokenAt(seg: Bytes, b: nat): Token
    requires b <= |seg| && TokenLen(seg[b..]) > 0
  {
    Token(TokenName(seg[b..]), b, b + TokenLen(seg[b..]))
  }

  lemma {:induction false} DropDrop<T>(s: seq<T>, a: nat, n: nat)
    requires a + n <= |s|
    ensures s[a..][n..] == s[a + n..] && s[a..][..n] == s[a..a + n]
  {
  }

  lemma {:induction false} TokensHit(t: Bytes, at: nat)
    requires TokenLen(t) > 0
    ensures Tokens(t, at) == [Token(TokenName(t), at, at + TokenLen(t))] + Tokens(t[TokenLen(t)..], at + TokenLen(t))
    ensures Names(t) == [TokenName(t)] + Names(t[TokenLen(t)..])
  {
  }

  /** The text `s` at `c`, from its next token at `b` on, and from the end of that token at `e` on. */
  ghost predicate Ahead(s: Bytes, t: Bytes, u: Bytes, c: nat, b: nat, e: nat) {
    && c <= b < e && b - c == NextToken(s) && t == s[b - c..]
    && TokenLen(t) == e - b && u == t[e - b..]
  }

  lemma {:induction false} TokensOn(s: Bytes, t: Bytes, k: nat, at: nat, on: nat)
    requires k <= NextToken(s) && t == s[k..] && on == at + k
    ensures Tokens(s, at) == Tokens(t, on)
  {
    TokensSkip(s, k, at);
  }

  lemma {:induction false} TokensPast(t: Bytes, u: Bytes, b: nat, e: nat, r: seq<Token>)
    requires b < e && TokenLen(t) == e - b && u == t[e - b..]
    requires r == [Token(TokenName(t), b, e)] + Tokens(u, e)
    ensures Tokens(t, b) == r
  {
    TokensHit(t, b);
  }

  lemma {:induction false} Same<T>(x: T, y: T, z: T)
    requires x == y && y == z
    ensures x == z
  {
  }

  lemma {:induction false} TokensAhead(s: Bytes, t: Bytes, u: Bytes, c: nat, b: nat, e: nat)
    requires Ahead(s, t, u, c, b, e)
    ensures Tokens(s, c) == [Token(TokenName(t), b, e)] + Tokens(u, e)
  {
    var r := [Token(TokenName(t), b, e)] + Tokens(u, e);
    TokensOn(s, t, b - c, c, b);
    TokensPast(t, u, b, e, r);
    Same(Tokens(s, c), Tokens(t, b), r);
  }

  lemma {:induction false} NamesOn(s: Bytes, t: Bytes, k: nat)
    requires k <= NextToken(s) && t == s[k..]
    ensures Names(s) == Names(t)
  {
    NamesSkip(s, k);
  }

  lemma {:induction false} NamesPast(t: Bytes, u: Bytes, n: nat)
    requires 0 < n == TokenLen(t) && u == t[n..]
    ensures Names(t) == [TokenName(t)] + Names(u)
  {
    TokensHit(t, 0);
  }

  lemma {:induction false} NamesAhead(s: Bytes, t: Bytes, u: Bytes, c: nat, b: nat, e: nat)
    requires Ahead(s, t, u, c, b, e)
    ensures Names(s) == [TokenName(t)] + Names(u)
  {
    NamesOn(s, t, b - c);
    NamesPast(t, u, e - b);
  }

  lemma {:induction false} FindNext(seg: Bytes, c: nat) returns (b: nat, e: nat)
    requires c <= |seg| && NextToken(seg[c..]) < |seg| - c
    ensures NextIs(seg, c, b, e)
    ensures Tokens(seg[c..], c) == [TokenAt(seg, b)] + Tokens(seg[e..], e)
    ensures Names(seg[c..]) == [TokenName(seg[b..])] + Names(seg[e..])
  {
    b := c + NextToken(seg[c..]);
    AtNextToken(seg[c..]);
    DropDrop(seg, c, b - c);
    e := b + TokenLen(seg[b..]);
    DropDrop(seg, b, e - b);
    TokensAhead(seg[c..], seg[b..], seg[e..], c, b, e);
    NamesAhead(seg[c..], seg[b..], seg[e..], c, b, e);
    NoNamesBefore(seg[c..]);
  }

  lemma {:induction false} Through<T>(s: seq<T>, a: nat, b: nat, c: nat)
    requires a <= b <= c <= |s|
    ensures s[a..b] + s[b..c] == s[a..c] && s[a..b] + s[b..] == s[a..]
  {
  }

  lemma {:induction false} RunsCons(seg: Bytes, t: Token, rest: seq<Token>, runStart: nat, left: bool, remove: set<Bytes>)
    requires InOrder([t] + rest, runStart, |seg|)
    ensures InOrder(rest, t.end, |seg|) && InOrder(rest, runStart, |seg|) && t.end <= |seg|
    ensures Runs(seg, [t] + rest, runStart, left, remove) ==
      if t.name in remove then KeptRun(seg[runStart..t.start], left, true) + Runs(seg, rest, t.end, true, remove)
      else Runs(seg, rest, runStart, left, remove)
  {
    assert ([t] + rest)[1..] == rest;
    OrderBounds([t] + rest, runStart, |seg|);
    OrderWeakens(rest, t.end, runStart, |seg|);
  }

  lemma {:induction false} KeepCons(n: Bytes, names: seq<Bytes>, remove: set<Bytes>)
    ensures Keep([n] + names, remove) == (if n in remove then [] else [n]) + Keep(names, remove)
  {
    assert ([n] + names)[1..] == names;
  }

  /** The runs left of a segment hold the tokens not removed, in order. */
  lemma {:induction false} RunsNames(seg: Bytes, c: nat, runStart: nat, left: bool, remove: set<Bytes>)
    requires runStart <= c <= |seg| && Closed(seg[runStart..c])
    requires InOrder(Tokens(seg[c..], c), runStart, |seg|)
    ensures NamesOfAll(Runs(seg, Tokens(seg[c..], c), runStart, left, remove)) ==
      Names(seg[runStart..c]) + Keep(Names(seg[c..]), remove)
    decreases |seg| - c, 2
  {
    if NextToken(seg[c..]) == |seg| - c {
      LastRunNames(seg, c, runStart, left, remove);
    } else {
      var b, e := FindNext(seg, c);
      RunsFromNext(seg, c, b, e, runStart, left, remove);
    }
  }

  lemma {:induction false} RunsFromNext(seg: Bytes, c: nat, b: nat, e: nat, runStart: nat, left: bool, remove: set<Bytes>)
    requires runStart <= c && NextIs(seg, c, b, e) && Closed(seg[runStart..c])
    requires InOrder([TokenAt(seg, b)] + Tokens(seg[e..], e), runStart, |seg|)
    ensures NamesOfAll(Runs(seg, [TokenAt(seg, b)] + Tokens(seg[e..], e), runStart, left, remove)) ==
      Names(seg[runStart..c]) + Keep([TokenName(seg[b..])] + Names(seg[e..]), remove)
    decreases |seg| - c, 1
  {
    if TokenName(seg[b..]) in remove {
      RunsFromRemoved(seg, c, b, e, runStart, left, remove);
    } else {
      RunsFromKept(seg, c, b, e, runStart, left, remove);
    }
  }

  lemma {:induction false} RunsFromRemoved(seg: Bytes, c: nat, b: nat, e: nat, runStart: nat, left: bool, remove: set<Bytes>)
    requires runStart <= c && NextIs(seg, c, b, e) && Closed(seg[runStart..c]) && TokenName(seg[b..]) in remove
    requires InOrder([TokenAt(seg, b)] + Tokens(seg[e..], e), runStart, |seg|)
    ensures NamesOfAll(Runs(seg, [TokenAt(seg, b)] + Tokens(seg[e..], e), runStart, left, remove)) ==
      Names(seg[runStart..c]) + Keep([TokenName(seg[b..])] + Names(seg[e..]), remove)
    decreases |seg| - c, 0
  {
    RunsCut(seg, TokenAt(seg, b), Tokens(seg[e..], e), runStart, left, remove);
    RemovedRunNames(seg, c, b, e, runStart, left, remove);
    NamesFromCut(seg, TokenAt(seg, b), Tokens(seg[e..], e), runStart, left, remove, Names(seg[runStart..c]), Names(seg[e..]));
  }

  lemma {:induction false} RunsFromKept(seg: Bytes, c: nat, b: nat, e: nat, runStart: nat, left: bool, remove: set<Bytes>)
    requires runStart <= c && NextIs(seg, c, b, e) && Closed(seg[runStart..c]) && TokenName(seg[b..]) !in remove
    requires InOrder([TokenAt(seg, b)] + Tokens(seg[e..], e), runStart, |seg|)
    ensures NamesOfAll(Runs(seg, [TokenAt(seg, b)] + Tokens(seg[e..], e), runStart, left, remove)) ==
      Names(seg[runStart..c]) + Keep([TokenName(seg[b..])] + Names(seg[e..]), remove)
    decreases |seg| - c, 0
  {
    RunsOver(seg, TokenAt(seg, b), Tokens(seg[e..], e), runStart, left, remove);
    KeptTokenNames(seg, c, b, e, runStart, left, remove);
    NamesFromOver(seg, TokenAt(seg, b), Tokens(seg[e..], e), runStart, left, remove, Names(seg[runStart..c]), Names(seg[e..]));
  }

  lemma {:induction false} NamesFromCut(seg: Bytes, t: Token, rest: seq<Token>, runStart: nat, left: bool, remove: set<Bytes>,
                                        head: seq<Bytes>, names: seq<Bytes>)
    requires InOrder([t] + rest, runStart, |seg|) && t.name in remove
    requires runStart <= t.start <= |seg| && InOrder(rest, t.end, |seg|)
    requires NamesOfAll(KeptRun(seg[runStart..t.start], left, true) + Runs(seg, rest, t.end, true, remove)) ==
      head + Keep(names, remove)
    ensures NamesOfAll(Runs(seg, [t] + rest, runStart, left, remove)) == head + Keep([t.name] + names, remove)
  {
    RunsCut(seg, t, rest, runStart, left, remove);
    KeepDrops(t.name, names, remove);
  }

  lemma {:induction false} NamesFromOver(seg: Bytes, t: Token, rest: seq<Token>, runStart: nat, left: bool, remove: set<Bytes>,
                                         head: seq<Bytes>, names: seq<Bytes>)
    requires InOrder([t] + rest, runStart, |seg|) && t.name !in remove && InOrder(rest, runStart, |seg|)
    requires NamesOfAll(Runs(seg, rest, runStart, left, remove)) == head + ([t.name] + Keep(names, remove))
    ensures NamesOfAll(Runs(seg, [t] + rest, runStart, left, remove)) == head + Keep([t.name] + names, remove)
  {
    RunsOver(seg, t, rest, runStart, left, remove);
    KeepKeeps(t.name, names, remove);
  }

  lemma {:induction false} RunsCut(seg: Bytes, t: Token, rest: seq<Token>, runStart: nat, left: bool, remove: set<Bytes>)
    requires InOrder([t] + rest, runStart, |seg|) && t.name in remove
    ensures runStart <= t.start <= |seg| && InOrder(rest, t.end, |seg|)
    ensures Runs(seg, [t] + rest, runStart, left, remove) ==
      KeptRun(seg[runStart..t.start], left, true) + Runs(seg, rest, t.end, true, remove)
  {
    OrderBounds([t] + rest, runStart, |seg|);
    RunsCons(seg, t, rest, runStart, left, remove);
  }

  lemma {:induction false} RunsOver(seg: Bytes, t: Token, rest: seq<Token>, runStart: nat, left: bool, remove: set<Bytes>)
    requires InOrder([t] + rest, runStart, |seg|) && t.name !in remove
    ensures InOrder(rest, runStart, |seg|) && Runs(seg, [t] + rest, runStart, left, remove) == Runs(seg, rest, runStart, left, remove)
  {
    RunsCons(seg, t, rest, runStart, left, remove);
  }

  lemma {:induction false} KeepDrops(n: Bytes, names: seq<Bytes>, remove: set<Bytes>)
    requires n in remove
    ensures Keep([n] + names, remove) == Keep(names, remove)
  {
    KeepCons(n, names, remove);
    KeepNone(names, remove);
  }

  lemma {:induction false} KeepKeeps(n: Bytes, names: seq<Bytes>, remove: set<Bytes>)
    requires n !in remove
    ensures Keep([n] + names, remove) == [n] + Keep(names, remove)
  {
    KeepCons(n, names, remove);
  }

  lemma {:induction false} KeepNone(names: seq<Bytes>, remove: set<Bytes>)
    ensures [] + Keep(names, remove) == Keep(names, remove)
  {
    ConcatNil(Keep(names, remove));
  }

  lemma {:induction false} LastRunNames(seg: Bytes, c: nat, runStart: nat, left: bool, remove: set<Bytes>)
    requires runStart <= c <= |seg| && Closed(seg[runStart..c])
    requires InOrder(Tokens(seg[c..], c), runStart, |seg|) && NextToken(seg[c..]) == |seg| - c
    ensures NamesOfAll(Runs(seg, Tokens(seg[c..], c), runStart, left, remove)) ==
      Names(seg[runStart..c]) + Keep(Names(seg[c..]), remove)
  {
    TokensFirst(seg[c..], c);
    NamesNone(seg[c..]);
    assert ClosedBefore(seg[runStart..c], seg[c..]);
    Through(seg, runStart, c, |seg|);
    KeptRunNames(seg[runStart..], left, false);
  }

  lemma {:induction false} RemovedRunNames(seg: Bytes, c: nat, b: nat, e: nat, runStart: nat, left: bool, remove: set<Bytes>)
    requires runStart <= c && NextIs(seg, c, b, e) && Closed(seg[runStart..c])
    requires InOrder(Tokens(seg[e..], e), e, |seg|)
    ensures NamesOfAll(KeptRun(seg[runStart..b], left, true) + Runs(seg, Tokens(seg[e..], e), e, true, remove)) ==
      Names(seg[runStart..c]) + Keep(Names(seg[e..]), remove)
    decreases |seg| - e, 3
  {
    var run, rest := KeptRun(seg[runStart..b], left, true), Runs(seg, Tokens(seg[e..], e), e, true, remove);
    calc {
      NamesOfAll(run + rest);
    == { NamesOfAllConcat(run, rest); KeptRunNames(seg[runStart..b], left, true); }
      Names(seg[runStart..b]) + NamesOfAll(rest);
    == { Through(seg, runStart, c, b); assert ClosedBefore(seg[runStart..c], seg[c..b]); ConcatNil(Names(seg[runStart..c])); }
      Names(seg[runStart..c]) + NamesOfAll(rest);
    == { NilIsClosed(); assert seg[e..e] == []; RunsNames(seg, e, e, true, remove); ConcatNil(Keep(Names(seg[e..]), remove)); }
      Names(seg[runStart..c]) + Keep(Names(seg[e..]), remove);
    }
  }

  lemma {:induction false} KeptTokenNames(seg: Bytes, c: nat, b: nat, e: nat, runStart: nat, left: bool, remove: set<Bytes>)
    requires runStart <= c && NextIs(seg, c, b, e) && Closed(seg[runStart..c])
    requires InOrder(Tokens(seg[e..], e), runStart, |seg|)
    ensures NamesOfAll(Runs(seg, Tokens(seg[e..], e), runStart, left, remove)) ==
      Names(seg[runStart..c]) + ([TokenName(seg[b..])] + Keep(Names(seg[e..]), remove))
    decreases |seg| - e, 3
  {
    ReadThrough(seg, c, b, e, runStart);
    RunsNames(seg, e, runStart, left, remove);
    ConcatAssoc(Names(seg[runStart..c]), [TokenName(seg[b..])], Keep(Names(seg[e..]), remove));
  }

  lemma {:induction false} ThreeParts<T>(s: seq<T>, a: nat, c: nat, b: nat, e: nat)
    requires a <= c <= b <= e <= |s|
    ensures s[a..e] == s[a..c] + s[c..b] + s[b..][..e - b]
  {
  }

  lemma {:induction false} ClosedThrough(more: Bytes, x: Bytes, lit: Bytes, t: Bytes)
    requires Closed(x) && Names(lit) == [] && TokenLen(t) > 0 && more == x + lit + t[..TokenLen(t)]
    ensures Closed(more) && Names(more) == Names(x) + [TokenName(t)]
  {
    ClosedAgain(x, lit, t);
  }

  lemma {:induction false} ReadThrough(seg: Bytes, c: nat, b: nat, e: nat, runStart: nat)
    requires runStart <= c && NextIs(seg, c, b, e) && Closed(seg[runStart..c])
    ensures Closed(seg[runStart..e]) && Names(seg[runStart..e]) == Names(seg[runStart..c]) + [TokenName(seg[b..])]
  {
    ThreeParts(seg, runStart, c, b, e);
    ClosedThrough(seg[runStart..e], seg[runStart..c], seg[c..b], seg[b..]);
  }

  lemma {:induction false} SpaceIsClean(c: Byte, b: Bytes)
    requires !TokenChar(c)
    ensures Clean([c] + b) && Names([c] + b) == Names(b)
  {
    assert ([c] + b)[1..] == b;
  }

  lemma {:induction false} NamesAround(a: Bytes, c: Byte, b: Bytes)
    requires !TokenChar(c)
    ensures Names(a + ([c] + b)) == Names(a) + Names(b)
  {
    SpaceIsClean(c, b);
    NamesConcat(a, [c] + b);
  }

  lemma {:induction false} NamesJoin(texts: seq<Bytes>, c: Byte)
    requires !TokenChar(c)
    ensures Names(Join(texts, [c])) == NamesOfAll(texts)
    decreases |texts|
  {
    if |texts| == 1 {
      NamesOfOne(texts[0]);
      assert texts == [texts[0]];
    } else if texts != [] {
      var rest := Join(texts[1..], [c]);
      calc {
        Names(Join(texts, [c]));
      == { ConcatAssoc(texts[0], [c], rest); }
        Names(texts[0] + ([c] + rest));
      == { NamesAround(texts[0], c, rest); }
        Names(texts[0]) + Names(rest);
      == { NamesJoin(texts[1..], c); }
        NamesOfAll(texts);
      }
    }
  }

  /** Nothing is removed when no token is in the set; and what is kept is not in the set. */
  lemma {:induction false} KeepAll(s: Bytes, at: nat, remove: set<Bytes>)
    ensures !AnyRemoved(Tokens(s, at), remove) ==> Keep(Names(s), remove) == Names(s)
    decreases |s|
  {
    if s == [] {
    } else if TokenLen(s) > 0 {
      var rest, mid := s[TokenLen(s)..], at + TokenLen(s);
      KeepAll(rest, mid, remove);
      TokensHit(s, at);
      KeepCons(TokenName(s), Names(rest), remove);
      assert ([Token(TokenName(s), at, mid)] + Tokens(rest, mid))[1..] == Tokens(rest, mid);
    } else {
      KeepAll(s[1..], at + 1, remove);
    }
  }

  lemma {:induction false} NoneRemoved(s: Bytes, at: nat, remove: set<Bytes>)
    requires Keep(Names(s), remove) == Names(s)
    ensures !AnyRemoved(Tokens(s, at), remove)
    decreases |s|
  {
    if s == [] {
    } else if TokenLen(s) > 0 {
      var rest, mid := s[TokenLen(s)..], at + TokenLen(s);
      TokensHit(s, at);
      KeepCons(TokenName(s), Names(rest), remove);
      KeepIsShorter(Names(rest), remove);
      assert TokenName(s) !in remove;
      TailOfCons(TokenName(s), Keep(Names(rest), remove), Names(rest));
      NoneRemoved(rest, mid, remove);
      assert ([Token(TokenName(s), at, mid)] + Tokens(rest, mid))[1..] == Tokens(rest, mid);
    } else {
      NoneRemoved(s[1..], at + 1, remove);
    }
  }

  lemma {:induction false} TailOfCons<T>(x: T, a: seq<T>, b: seq<T>)
    ensures [x] + a == [x] + b ==> a == b
  {
    assert ([x] + a)[1..] == a && ([x] + b)[1..] == b;
  }

  lemma {:induction false} KeepIsShorter(names: seq<Bytes>, remove: set<Bytes>)
    ensures |Keep(names, remove)| <= |names|
    decreases |names|
  {
    if names != [] {
      KeepIsShorter(names[1..], remove);
    }
  }

  lemma {:induction false} KeepTwice(names: seq<Bytes>, remove: set<Bytes>)
    ensures Keep(Keep(names, remove), remove) == Keep(names, remove)
    decreases |names|
  {
    if names != [] {
      KeepTwice(names[1..], remove);
      if names[0] in remove {
        ConcatNil(Keep(names[1..], remove));
      } else {
        KeepCons(names[0], Keep(names[1..], remove), remove);
      }
    }
  }

  lemma {:induction false} KeepConcat(a: seq<Bytes>, b: seq<Bytes>, remove: set<Bytes>)
    ensures Keep(a + b, remove) == Keep(a, remove) + Keep(b, remove)
    decreases |a|
  {
    if a == [] {
      ConcatNil(b);
      ConcatNil(Keep(b, remove));
    } else {
      DropOfConcat(a, b, 1);
      KeepConcat(a[1..], b, remove);
      ConcatAssoc(if a[0] in remove then [] else [a[0]], Keep(a[1..], remove), Keep(b, remove));
    }
  }

  lemma {:induction false} SegmentNames(seg: Bytes, remove: set<Bytes>)
    ensures Names(FilterSegment(seg, remove)) == Keep(Names(seg), remove)
  {
    if !AnyRemoved(Tokens(seg, 0), remove) {
      KeepAll(seg, 0, remove);
      NamesTrimSpace(seg);
    } else {
      TokensInOrder(seg, 0);
      var runs := Runs(seg, Tokens(seg, 0), 0, false, remove);
      NamesJoin(runs, ' ');
      NilIsClosed();
      assert seg[0..0] == [] && seg[0..] == seg;
      RunsNames(seg, 0, 0, false, remove);
      ConcatNil(Keep(Names(seg), remove));
    }
  }

  lemma {:induction false} SegmentsNames(segments: seq<Bytes>, remove: set<Bytes>)
    ensures NamesOfAll(FilterSegments(segments, remove)) == Keep(NamesOfAll(segments), remove)
    decreases |segments|
  {
    if segments != [] {
      var out, rest := FilterSegment(segments[0], remove), FilterSegments(segments[1..], remove);
      calc {
        NamesOfAll(FilterSegments(segments, remove));
      == { NamesOfAllConcat(if out == [] then [] else [out], rest); }
        NamesOfAll(if out == [] then [] else [out]) + NamesOfAll(rest);
      == { NamesOfOne(out); }
        Names(out) + NamesOfAll(rest);
      == { SegmentNames(segments[0], remove); SegmentsNames(segments[1..], remove); }
        Keep(Names(segments[0]), remove) + Keep(NamesOfAll(segments[1..]), remove);
      == { KeepConcat(Names(segments[0]), NamesOfAll(segments[1..]), remove); }
        Keep(NamesOfAll(segments), remove);
      }
    }
  }

  lemma {:induction false} SplitStep(s: Bytes, c: Byte)
    requires IndexByte(s, c) < |s|
    ensures Split(s, c) == [s[..IndexByte(s, c)]] + Split(s[IndexByte(s, c) + 1..], c)
    ensures s == s[..IndexByte(s, c)] + ([c] + s[IndexByte(s, c) + 1..])
  {
  }

  lemma {:induction false} NamesOfParts(all: seq<Bytes>, first: Bytes, others: seq<Bytes>)
    requires all == [first] + others
    ensures NamesOfAll(all) == Names(first) + NamesOfAll(others)
  {
    NamesOfAllConcat([first], others);
    NamesOfOne(first);
  }

  lemma {:induction false} NamesAt(s: Bytes, first: Bytes, c: Byte, rest: Bytes)
    requires !TokenChar(c) && s == first + ([c] + rest)
    ensures Names(s) == Names(first) + Names(rest)
  {
    NamesAround(first, c, rest);
  }

  lemma {:induction false} NamesOfSplit(s: Bytes, c: Byte)
    requires !TokenChar(c)
    ensures NamesOfAll(Split(s, c)) == Names(s)
    decreases |s|
  {
    var k := IndexByte(s, c);
    if k == |s| {
      NamesOfOne(s);
    } else {
      var first, rest := s[..k], s[k + 1..];
      SplitStep(s, c);
      NamesOfSplit(rest, c);
      NamesOfParts(Split(s, c), first, Split(rest, c));
      NamesAt(s, first, c, rest);
    }
  }

  /** The filtered template has exactly the tokens outside the removed set, in their order. */
  lemma {:induction false} FilterKeepsTheOthers(template: Bytes, remove: set<Bytes>)
    ensures Names(FilterTemplate(template, remove)) == Keep(Names(template), remove)
  {
    NamesJoin(FilterSegments(Split(template, '|'), remove), '|');
    SegmentsNames(Split(template, '|'), remove);
    NamesOfSplit(template, '|');
  }

  // ---------------------------------------------------------------- filtering twice

  predicate AllIn(x: Bytes, s: Bytes) {
    forall c | c in x :: c in s
  }

  /** A piece of a segment, trimmed and not empty. */
  predicate PieceOf(x: Bytes, s: Bytes) {
    x != [] && Trimmed(x) && AllIn(x, s)
  }

  lemma {:induction false} FragmentIsPiece(x: Bytes, s: Bytes)
    requires AllIn(x, s)
    ensures forall f | f in Fragment(x) :: PieceOf(f, s)
  {
    TrimSpaceIs(x);
    if TrimSpace(x) != [] {
      assert PieceOf(TrimSpace(x), s);
    }
  }

  lemma {:induction false} KeptRunIsPiece(run: Bytes, left: bool, right: bool, s: Bytes)
    requires AllIn(run, s)
    ensures forall f | f in KeptRun(run, left, right) :: PieceOf(f, s)
  {
    var tokens := Tokens(run, 0);
    if tokens != [] {
      TokensInOrder(run, 0);
      OrderBounds(tokens, 0, |run|);
      var start, end := if left then tokens[0].start else 0, if right then tokens[|tokens| - 1].end else |run|;
      FragmentIsPiece(run[start..end], s);
    }
  }

  lemma {:induction false} RunsArePieces(seg: Bytes, tokens: seq<Token>, runStart: nat, left: bool, remove: set<Bytes>)
    requires InOrder(tokens, runStart, |seg|)
    ensures forall f | f in Runs(seg, tokens, runStart, left, remove) :: PieceOf(f, seg)
    decreases |tokens|
  {
    OrderBounds(tokens, runStart, |seg|);
    if tokens == [] {
      KeptRunIsPiece(seg[runStart..], left, false, seg);
    } else if tokens[0].name in remove {
      KeptRunIsPiece(seg[runStart..tokens[0].start], left, true, seg);
      RunsArePieces(seg, tokens[1..], tokens[0].end, true, remove);
    } else {
      OrderWeakens(tokens[1..], tokens[0].end, runStart, |seg|);
      RunsArePieces(seg, tokens[1..], runStart, left, remove);
    }
  }

  lemma {:induction false} JoinedFront(a: Bytes, b: Bytes)
    requires a != [] && Trimmed(a)
    ensures LeadingSpace(a + ([' '] + b)) == 0
  {
  }

  lemma {:induction false} JoinedBack(a: Bytes, b: Bytes)
    requires b != [] && Trimmed(b)
    ensures TrailingSpace(a + ([' '] + b)) == 0
  {
    var s := a + ([' '] + b);
    var k := |s|;
    assert s[k - 1] == b[|b| - 1];
    assert s[k - 2] == if |b| >= 2 then b[|b| - 2] else ' ';
    assert |b| >= 2 ==> k >= 3 && s[k - 3] == if |b| >= 3 then b[|b| - 3] else ' ';
  }

  lemma {:induction false} JoinOfPieces(texts: seq<Bytes>, s: Bytes)
    requires forall t | t in texts :: PieceOf(t, s)
    ensures texts != [] ==> Join(texts, " ") != []
    ensures Trimmed(Join(texts, " ")) && AllIn(Join(texts, " "), s + [' '])
    decreases |texts|
  {
    if |texts| == 1 {
      assert PieceOf(texts[0], s);
    } else if texts != [] {
      assert PieceOf(texts[0], s);
      assert forall t | t in texts[1..] :: t in texts;
      JoinOfPieces(texts[1..], s);
      var rest := Join(texts[1..], " ");
      ConcatAssoc(texts[0], [' '], rest);
      JoinedFront(texts[0], rest);
      JoinedBack(texts[0], rest);
    }
  }

  /** What is left of a segment is trimmed, made of its characters and spaces, and stays as it is
      when it is filtered again. */
  lemma {:induction false} SegmentIsSettled(seg: Bytes, remove: set<Bytes>)
    ensures FilterSegment(FilterSegment(seg, remove), remove) == FilterSegment(seg, remove)
    ensures '|' !in seg ==> '|' !in FilterSegment(seg, remove)
  {
    var out := FilterSegment(seg, remove);
    if !AnyRemoved(Tokens(seg, 0), remove) {
      TrimSpaceIs(seg);
    } else {
      TokensInOrder(seg, 0);
      RunsArePieces(seg, Tokens(seg, 0), 0, false, remove);
      JoinOfPieces(Runs(seg, Tokens(seg, 0), 0, false, remove), seg);
    }
    SegmentNames(seg, remove);
    KeepTwice(Names(seg), remove);
    NoneRemoved(out, 0, remove);
    TrimSpaceIs(out);
  }

  predicate Settled(x: Bytes, remove: set<Bytes>) {
    x != [] && '|' !in x && FilterSegment(x, remove) == x
  }

  lemma {:induction false} SegmentsAreSettled(segments: seq<Bytes>, remove: set<Bytes>)
    requires forall x | x in segments :: '|' !in x
    ensures forall x | x in FilterSegments(segments, remove) :: Settled(x, remove)
    decreases |segments|
  {
    if segments != [] {
      assert segments[0] in segments && forall x | x in segments[1..] :: x in segments;
      SegmentIsSettled(segments[0], remove);
      SegmentsAreSettled(segments[1..], remove);
    }
  }

  lemma {:induction false} SettledStay(segments: seq<Bytes>, remove: set<Bytes>)
    requires forall x | x in segments :: Settled(x, remove)
    ensures FilterSegments(segments, remove) == segments
    decreases |segments|
  {
    if segments != [] {
      assert Settled(segments[0], remove) && forall x | x in segments[1..] :: x in segments;
      SettledStay(segments[1..], remove);
      HeadApart(segments);
    }
  }

  lemma {:induction false} SplitPartsLack(s: Bytes, c: Byte)
    ensures forall x | x in Split(s, c) :: c !in x
    decreases |s|
  {
    var k := IndexByte(s, c);
    if k < |s| {
      SplitPartsLack(s[k + 1..], c);
    }
  }

  lemma {:induction false} NothingStaysNothing(remove: set<Bytes>)
    ensures FilterTemplate([], remove) == []
  {
    var nothing: Bytes := [];
    assert Split(nothing, '|') == [nothing];
    assert TrimSpace(nothing) == [];
    assert Tokens(nothing, 0) == [];
    assert FilterSegment(nothing, remove) == [];
    assert [nothing][1..] == [];
    assert FilterSegments([nothing], remove) == [] + FilterSegments([nothing][1..], remove);
  }

  /** Filtering a second time changes nothing. */
  lemma {:induction false} FilterIsIdempotent(template: Bytes, remove: set<Bytes>)
    ensures FilterTemplate(FilterTemplate(template, remove), remove) == FilterTemplate(template, remove)
  {
    var kept := FilterSegments(Split(template, '|'), remove);
    SplitPartsLack(template, '|');
    SegmentsAreSettled(Split(template, '|'), remove);
    if kept == [] {
      NothingStaysNothing(remove);
    } else {
      SplitJoin(kept, '|');
      SettledStay(kept, remove);
    }
  }

  // ---------------------------------------------------------------- the filter as it runs

  method FilterRemarkSegment(seg: Bytes, remove: set<Bytes>) returns (out: Bytes)
    ensures out == FilterSegment(seg, remove)
  {
    var tokens := Tokens(seg, 0);
    var hasRemove := false;
    var k := 0;
    while k < |tokens| && !hasRemove
      invariant k <= |tokens|
      invariant AnyRemoved(tokens, remove) == (hasRemove || AnyRemoved(tokens[k..], remove))
      decreases |tokens| - k, !hasRemove
    {
      assert tokens[k..][1..] == tokens[k + 1..];
      if tokens[k].name in remove {
        hasRemove := true;
      } else {
        k := k + 1;
      }
    }
    if !hasRemove {
      return TrimSpace(seg);
    }
    TokensInOrder(seg, 0);
    var runs := FilterRuns(seg, tokens, remove);
    out := Join(runs, " ");
  }

  /** The runs found so far and those to come stay the runs of the whole segment. */
  lemma {:induction false} FilterStep(runs: seq<Bytes>, all: seq<Bytes>, seg: Bytes, tok: Token, rest: seq<Token>,
                                      runStart: nat, left: bool, remove: set<Bytes>)
    requires InOrder([tok] + rest, runStart, |seg|) && runs + Runs(seg, [tok] + rest, runStart, left, remove) == all
    ensures runStart <= tok.start <= |seg| && InOrder(rest, tok.end, |seg|) && InOrder(rest, runStart, |seg|)
    ensures tok.name in remove ==>
      (runs + KeptRun(seg[runStart..tok.start], left, true)) + Runs(seg, rest, tok.end, true, remove) == all
    ensures tok.name !in remove ==> runs + Runs(seg, rest, runStart, left, remove) == all
  {
    OrderBounds([tok] + rest, runStart, |seg|);
    RunsCons(seg, tok, rest, runStart, left, remove);
    if tok.name in remove {
      ConcatAssoc(runs, KeptRun(seg[runStart..tok.start], left, true), Runs(seg, rest, tok.end, true, remove));
    }
  }

  method FilterRuns(seg: Bytes, tokens: seq<Token>, remove: set<Bytes>) returns (runs: seq<Bytes>)
    requires InOrder(tokens, 0, |seg|)
    ensures runs == Runs(seg, tokens, 0, false, remove)
  {
    runs := [];
    var runStart: nat, leftRemoved := 0, false;
    ghost var all := Runs(seg, tokens, 0, false, remove);
    var i := 0;
    assert tokens[0..] == tokens;
    ConcatNil(all);
    while i < |tokens|
      invariant i <= |tokens| && InOrder(tokens[i..], runStart, |seg|)
      invariant runs + Runs(seg, tokens[i..], runStart, leftRemoved, remove) == all
    {
      var tok := tokens[i];
      ghost var rest := tokens[i + 1..];
      assert tokens[i..] == [tok] + rest;
      FilterStep(runs, all, seg, tok, rest, runStart, leftRemoved, remove);
      if tok.name in remove {
        runs := runs + KeptRun(seg[runStart..tok.start], leftRemoved, true);
        runStart, leftRemoved := tok.end, true;
      }
      i := i + 1;
    }
    OrderBounds(tokens[i..], runStart, |seg|);
    runs := runs + KeptRun(seg[runStart..], leftRemoved, false);
  }

  method FilterRemarkTemplate(template: Bytes, remove: set<Bytes>) returns (out: Bytes)
    ensures out == FilterTemplate(template, remove)
  {
    var segments := Split(template, '|');
    var kept: seq<Bytes> := [];
    ghost var all := FilterSegments(segments, remove);
    assert segments[0..] == segments;
    ConcatNil(all);
    for i := 0 to |segments|
      invariant kept + FilterSegments(segments[i..], remove) == all
    {
      var seg := FilterRemarkSegment(segments[i], remove);
      assert segments[i..][1..] == segments[i + 1..];
      ConcatAssoc(kept, if seg == [] then [] else [seg], FilterSegments(segments[i + 1..], remove));
      ConcatNil(kept);
      if seg != [] {
        kept := kept + [seg];
      }
    }
    ConcatNil(kept);
    out := Join(kept, "|");
  }

}
