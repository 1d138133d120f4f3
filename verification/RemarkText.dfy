/** What the filter of remark templates does to the text around the tokens. */
module RemarkText {
  import opened Collections
  import opened Text
  import opened RemarkTemplate

  // ---------------------------------------------------------------- what a token is

  predicate ValidName(name: Bytes) {
    name != [] && forall c | c in name :: 'A' <= c <= 'Z' || c == '_'
  }

  function Braced(name: Bytes): Bytes {
    "{{" + name + "}}"
  }

  lemma {:induction false} NameLenOf(name: Bytes, rest: Bytes)
    requires ValidName(name) && rest != [] && rest[0] == '}'
    ensures NameLen(name + rest) == |name|
    decreases |name|
  {
    assert name[0] in name && (name + rest)[1..] == name[1..] + rest;
    if |name| == 1 {
      assert name[1..] + rest == rest;
    } else {
      assert forall c | c in name[1..] :: c in name;
      NameLenOf(name[1..], rest);
    }
  }

  lemma {:induction false} NameLenIsValid(s: Bytes)
    ensures forall c | c in s[..NameLen(s)] :: 'A' <= c <= 'Z' || c == '_'
    decreases |s|
  {
    if NameLen(s) > 0 {
      NameLenIsValid(s[1..]);
      assert s[..NameLen(s)] == [s[0]] + s[1..][..NameLen(s) - 1];
    }
  }

  /** A text begins with a token exactly when it begins with a name in double braces. */
  lemma {:induction false} TokenBegins(name: Bytes, rest: Bytes)
    requires ValidName(name)
    ensures TokenLen(Braced(name) + rest) == |name| + 4 && TokenName(Braced(name) + rest) == name
  {
    var s := Braced(name) + rest;
    assert s[2..] == name + ("}}" + rest);
    NameLenOf(name, "}}" + rest);
    assert s[|name| + 2] == '}' && s[|name| + 3] == '}';
    assert s[2..|name| + 2] == name;
  }

  lemma {:induction false} OnlySuchTokens(s: Bytes)
    requires TokenLen(s) > 0
    ensures ValidName(TokenName(s)) && s == Braced(TokenName(s)) + s[TokenLen(s)..]
    ensures s[..TokenLen(s)] == Braced(TokenName(s))
  {
    var n := NameLen(s[2..]);
    NameLenIsValid(s[2..]);
    assert s[2..][..n] == s[2..n + 2] == TokenName(s);
    assert s[..n + 4] == "{{" + s[2..n + 2] + "}}";
    assert s == s[..n + 4] + s[n + 4..];
  }

  // ---------------------------------------------------------------- segments without removed tokens

  /** No token of the text is to be removed. */
  ghost predicate Untouched(s: Bytes, remove: set<Bytes>) {
    forall n | n in Names(s) :: n !in remove
  }

  lemma {:induction false} AnyRemovedIs(s: Bytes, at: nat, remove: set<Bytes>)
    ensures AnyRemoved(Tokens(s, at), remove) <==> !Untouched(s, remove)
    decreases |s|
  {
    if s == [] {
    } else if TokenLen(s) > 0 {
      var rest, mid := s[TokenLen(s)..], at + TokenLen(s);
      AnyRemovedIs(rest, mid, remove);
      TokensHit(s, at);
      ConsAnyRemoved(Token(TokenName(s), at, mid), Tokens(rest, mid), remove);
      InCons(TokenName(s), Names(rest));
    } else {
      AnyRemovedIs(s[1..], at + 1, remove);
    }
  }

  lemma {:induction false} ConsAnyRemoved(t: Token, rest: seq<Token>, remove: set<Bytes>)
    ensures AnyRemoved([t] + rest, remove) <==> t.name in remove || AnyRemoved(rest, remove)
  {
    assert ([t] + rest)[1..] == rest;
  }

  lemma {:induction false} InCons<T>(x: T, rest: seq<T>)
    ensures forall y :: y in [x] + rest <==> y == x || y in rest
  {
  }

  /** A segment with nothing to remove, such as one of literal text, is only trimmed. */
  lemma {:induction false} UntouchedSegment(seg: Bytes, remove: set<Bytes>)
    requires Untouched(seg, remove)
    ensures FilterSegment(seg, remove) == TrimSpace(seg)
  {
    AnyRemovedIs(seg, 0, remove);
  }

  /** The trimmed segments that are not blank. */
  function Tidied(segments: seq<Bytes>): seq<Bytes>
    decreases |segments|
  {
    if segments == [] then [] else (if TrimSpace(segments[0]) == [] then [] else [TrimSpace(segments[0])]) + Tidied(segments[1..])
  }

  lemma {:induction false} UntouchedSegments(segments: seq<Bytes>, remove: set<Bytes>)
    requires forall n | n in NamesOfAll(segments) :: n !in remove
    ensures FilterSegments(segments, remove) == Tidied(segments)
    decreases |segments|
  {
    if segments != [] {
      InConcat(Names(segments[0]), NamesOfAll(segments[1..]));
      UntouchedSegment(segments[0], remove);
      UntouchedSegments(segments[1..], remove);
    }
  }

  lemma {:induction false} InConcat<T>(a: seq<T>, b: seq<T>)
    ensures forall y :: y in a + b <==> y in a || y in b
  {
  }

  /** A template with nothing to remove comes out as its segments, trimmed, less the blank ones. */
  lemma {:induction false} UntouchedTemplate(template: Bytes, remove: set<Bytes>)
    requires Untouched(template, remove)
    ensures FilterTemplate(template, remove) == Join(Tidied(Split(template, '|')), "|")
  {
    NamesOfSplit(template, '|');
    UntouchedSegments(Split(template, '|'), remove);
  }

  // ---------------------------------------------------------------- segments with removed tokens

  /** A segment as pieces of text with the removed tokens between them. */
  function Weave(pieces: seq<Bytes>, names: seq<Bytes>): Bytes
    requires |pieces| == |names| + 1
    decreases |names|
  {
    if names == [] then pieces[0] else pieces[0] + (Braced(names[0]) + Weave(pieces[1..], names[1..]))
  }

  ghost predicate Woven(pieces: seq<Bytes>, names: seq<Bytes>, remove: set<Bytes>) {
    && |pieces| == |names| + 1
    && (forall i | 0 <= i < |names| :: ValidName(names[i]) && names[i] in remove)
    && (forall i | 0 <= i < |pieces| :: Untouched(pieces[i], remove))
  }

  lemma {:induction false} WovenTail(pieces: seq<Bytes>, names: seq<Bytes>, remove: set<Bytes>)
    requires Woven(pieces, names, remove) && names != []
    ensures Woven(pieces[1..], names[1..], remove) && ValidName(names[0]) && names[0] in remove && Untouched(pieces[0], remove)
  {
  }

  lemma {:induction false} WovenCons(piece: Bytes, name: Bytes, pieces: seq<Bytes>, names: seq<Bytes>, remove: set<Bytes>)
    requires Woven(pieces, names, remove) && ValidName(name) && name in remove && Untouched(piece, remove)
    ensures Woven([piece] + pieces, [name] + names, remove)
    ensures Weave([piece] + pieces, [name] + names) == piece + (Braced(name) + Weave(pieces, names))
  {
    assert ([piece] + pieces)[1..] == pieces && ([name] + names)[1..] == names;
  }

  lemma {:induction false} WovenFront(x: Bytes, pieces: seq<Bytes>, names: seq<Bytes>, remove: set<Bytes>)
    requires Woven(pieces, names, remove) && Untouched(x + pieces[0], remove)
    ensures Woven(pieces[0 := x + pieces[0]], names, remove)
    ensures Weave(pieces[0 := x + pieces[0]], names) == x + Weave(pieces, names)
  {
    var more := pieces[0 := x + pieces[0]];
    if names != [] {
      assert more[1..] == pieces[1..];
      ConcatAssoc(x, pieces[0], Braced(names[0]) + Weave(pieces[1..], names[1..]));
    }
  }

  lemma {:induction false} FirstPiece(pieces: seq<Bytes>, names: seq<Bytes>)
    requires |pieces| == |names| + 1
    ensures pieces[0] <= Weave(pieces, names)
  {
  }

  /** Every segment can be seen so, for any set of tokens to remove. */
  lemma {:induction false} EverySegmentIsWoven(seg: Bytes, remove: set<Bytes>) returns (pieces: seq<Bytes>, names: seq<Bytes>)
    ensures Woven(pieces, names, remove) && Weave(pieces, names) == seg
    decreases |seg|
  {
    var nothing: Bytes := [];
    if seg == [] {
      pieces, names := [nothing], [];
    } else if TokenLen(seg) > 0 {
      var n, name := TokenLen(seg), TokenName(seg);
      pieces, names := EverySegmentIsWoven(seg[n..], remove);
      OnlySuchTokens(seg);
      if name in remove {
        WovenCons(nothing, name, pieces, names, remove);
        pieces, names := [nothing] + pieces, [name] + names;
        assert nothing + (Braced(name) + seg[n..]) == seg;
      } else {
        TokenThen(seg, pieces[0]);
        InCons(name, Names(pieces[0]));
        WovenFront(seg[..n], pieces, names, remove);
        pieces := pieces[0 := seg[..n] + pieces[0]];
        assert seg[..n] + seg[n..] == seg;
      }
    } else {
      pieces, names := EverySegmentIsWoven(seg[1..], remove);
      FirstPiece(pieces, names);
      OneMoreByte(seg, pieces[0]);
      WovenFront([seg[0]], pieces, names, remove);
      pieces := pieces[0 := [seg[0]] + pieces[0]];
      assert [seg[0]] + seg[1..] == seg;
    }
  }

  /** A byte before a piece begins no token that it does not begin in the whole text. */
  lemma {:induction false} OneMoreByte(seg: Bytes, piece: Bytes)
    requires seg != [] && TokenLen(seg) == 0 && piece <= seg[1..]
    ensures Names([seg[0]] + piece) == Names(piece)
  {
    var x := [seg[0]] + piece;
    assert x[1..] == piece && x + seg[|x|..] == seg;
    if TokenLen(x) > 0 {
      TokenStays(x, seg[|x|..]);
      assert false;
    }
  }

  // ---------------------------------------------------------------- what is kept of a piece

  lemma {:induction false} CoreIsInside(p: Bytes)
    ensures NextToken(p) < |p| ==> NextToken(p) < LastEnd(p) <= |p|
  {
    if NextToken(p) < |p| {
      var tokens := TokenEnds(p);
      TokensInOrder(p, 0);
      OrderBounds(tokens, 0, |p|);
    }
  }

  /** Nothing of a piece without tokens. Of another one all the text from its first token to its
      last, with the text before and after them on the sides where no token was removed. */
  function KeptText(p: Bytes, leftRemoved: bool, rightRemoved: bool): seq<Bytes> {
    if NextToken(p) == |p| then []
    else
      CoreIsInside(p);
      var before, core, after := p[..NextToken(p)], p[NextToken(p)..LastEnd(p)], p[LastEnd(p)..];
      [TrimSpace((if leftRemoved then [] else before) + core + (if rightRemoved then [] else after))]
  }

  lemma {:induction false} CutIs(p: Bytes, a: nat, b: nat, left: bool, right: bool)
    requires a <= b <= |p|
    ensures p[if left then a else 0..if right then b else |p|] ==
      (if left then [] else p[..a]) + p[a..b] + (if right then [] else p[b..])
  {
  }

  lemma {:induction false} HasName(p: Bytes)
    requires NextToken(p) < |p|
    ensures Names(p) != []
  {
    AtNextToken(p);
    NamesSkip(p, NextToken(p));
    TokensHit(p[NextToken(p)..], 0);
  }

  lemma {:induction false} KeptTextIs(p: Bytes, left: bool, right: bool)
    ensures KeptRun(p, left, right) == KeptText(p, left, right)
  {
    TokensFirst(p, 0);
    if NextToken(p) < |p| {
      CoreIsInside(p);
      var start, end := if left then NextToken(p) else 0, if right then LastEnd(p) else |p|;
      KeptRunIs(p, left, right, start, end);
      CutIs(p, NextToken(p), LastEnd(p), left, right);
      NamesBetween(p, start, end);
      NamesTrimSpace(p[start..end]);
      HasName(p);
    }
  }

  /** What is kept of all pieces of a segment; a token was removed between any two of them. */
  function KeptTexts(pieces: seq<Bytes>, leftRemoved: bool): seq<Bytes>
    requires pieces != []
    decreases |pieces|
  {
    if |pieces| == 1 then KeptText(pieces[0], leftRemoved, false)
    else KeptText(pieces[0], leftRemoved, true) + KeptTexts(pieces[1..], true)
  }

  lemma {:induction false} HitConcat(a: Bytes, b: Bytes, rest: Bytes, at: nat, e: nat, tail: seq<Token>)
    requires at < e && TokenLen(a) == e - at && TokenLen(a + b) == e - at && rest == a[e - at..]
    requires Tokens(rest + b, e) == Tokens(rest, e) + tail
    ensures Tokens(a + b, at) == Tokens(a, at) + tail
  {
    var t, more := Token(TokenName(a), at, e), Tokens(rest, e);
    DropOfConcat(a, b, e - at);
    SameName(a, b);
    ConcatAssoc([t], more, tail);
    TokensPast(a, rest, at, e, [t] + more);
    TokensPast(a + b, rest + b, at, e, [t] + more + tail);
  }

  lemma {:induction false} TokensMiss(s: Bytes, rest: Bytes, at: nat, e: nat)
    requires s != [] && TokenLen(s) == 0 && rest == s[1..] && e == at + 1
    ensures Tokens(s, at) == Tokens(rest, e)
  {
  }

  lemma {:induction false} MissConcat(a: Bytes, b: Bytes, rest: Bytes, at: nat, e: nat, tail: seq<Token>)
    requires a != [] && TokenLen(a) == 0 && TokenLen(a + b) == 0 && rest == a[1..] && e == at + 1
    requires Tokens(rest + b, e) == Tokens(rest, e) + tail
    ensures Tokens(a + b, at) == Tokens(a, at) + tail
  {
    DropOfConcat(a, b, 1);
    TokensMiss(a, rest, at, e);
    TokensMiss(a + b, rest + b, at, e);
  }

  lemma {:induction false} StepConcat(a: Bytes, b: Bytes, rest: Bytes, at: nat, e: nat, tail: seq<Token>)
    requires a != [] && Clean(b) && e == at + (if TokenLen(a) > 0 then TokenLen(a) else 1) && rest == a[e - at..]
    requires Tokens(rest + b, e) == Tokens(rest, e) + tail
    ensures Tokens(a + b, at) == Tokens(a, at) + tail
  {
    TokenStops(a, b);
    if TokenLen(a) > 0 {
      HitConcat(a, b, rest, at, e, tail);
    } else {
      MissConcat(a, b, rest, at, e, tail);
    }
  }

  lemma {:induction false} TokensConcat(a: Bytes, b: Bytes, at: nat, mid: nat)
    requires Clean(b) && mid == at + |a|
    ensures Tokens(a + b, at) == Tokens(a, at) + Tokens(b, mid)
    decreases |a|
  {
    if a == [] {
      NothingConcat(b, at, Tokens(b, mid));
    } else {
      var n := if TokenLen(a) > 0 then TokenLen(a) else 1;
      var e, rest := at + n, a[n..];
      TokensConcat(rest, b, e, mid);
      StepConcat(a, b, rest, at, e, Tokens(b, mid));
    }
  }

  lemma {:induction false} NothingConcat(b: Bytes, at: nat, tail: seq<Token>)
    requires tail == Tokens(b, at)
    ensures Tokens([] + b, at) == Tokens([], at) + tail
  {
    ConcatNil(b);
    ConcatNil(tail);
  }

  lemma {:induction false} TokensFromToken(name: Bytes, rest: Bytes, at: nat, mid: nat)
    requires ValidName(name) && mid == at + |name| + 4
    ensures Tokens(Braced(name) + rest, at) == [Token(name, at, mid)] + Tokens(rest, mid) && Clean(Braced(name) + rest)
  {
    var s := Braced(name) + rest;
    TokenBegins(name, rest);
    assert s[|name| + 4..] == rest;
    TokensPast(s, rest, at, mid, [Token(name, at, mid)] + Tokens(rest, mid));
  }

  lemma {:induction false} NamesOfMore(s: Bytes, rest: Bytes, at: nat, e: nat)
    requires at < e && TokenLen(s) == e - at && rest == s[e - at..]
    requires forall t | t in Tokens(rest, e) :: t.name in Names(rest)
    ensures forall t | t in Tokens(s, at) :: t.name in Names(s)
  {
    var t, more := Token(TokenName(s), at, e), Tokens(rest, e);
    TokensPast(s, rest, at, e, [t] + more);
    NamesPast(s, rest, e - at);
    InCons(t, more);
    InCons(t.name, Names(rest));
  }

  lemma {:induction false} NamesOfTokens(s: Bytes, at: nat)
    ensures forall t | t in Tokens(s, at) :: t.name in Names(s)
    decreases |s|
  {
    if s == [] {
    } else if TokenLen(s) > 0 {
      var e := at + TokenLen(s);
      NamesOfTokens(s[TokenLen(s)..], e);
      NamesOfMore(s, s[TokenLen(s)..], at, e);
    } else {
      NamesOfTokens(s[1..], at + 1);
    }
  }

  /** Tokens that are not removed are passed over. */
  lemma {:induction false} RunsOverAll(seg: Bytes, kept: seq<Token>, rest: seq<Token>, runStart: nat, left: bool, remove: set<Bytes>)
    requires InOrder(kept + rest, runStart, |seg|) && forall t | t in kept :: t.name !in remove
    ensures InOrder(rest, runStart, |seg|)
    ensures Runs(seg, kept + rest, runStart, left, remove) == Runs(seg, rest, runStart, left, remove)
    decreases |kept|
  {
    if kept == [] {
      assert kept + rest == rest;
    } else {
      var more := kept[1..] + rest;
      assert kept + rest == [kept[0]] + more && kept[0] in kept;
      RunsOver(seg, kept[0], more, runStart, left, remove);
      assert forall t | t in kept[1..] :: t in kept;
      RunsOverAll(seg, kept[1..], rest, runStart, left, remove);
    }
  }

  lemma {:induction false} LastRun(seg: Bytes, p: Bytes, tokens: seq<Token>, at: nat, left: bool, remove: set<Bytes>)
    requires at <= |seg| && seg[at..] == p && InOrder(tokens, at, |seg|) && forall k | k in tokens :: k.name !in remove
    ensures Runs(seg, tokens, at, left, remove) == KeptText(p, left, false)
  {
    ConcatNil(tokens);
    RunsOverAll(seg, tokens, [], at, left, remove);
    KeptTextIs(p, left, false);
  }

  lemma {:induction false} NextRun(seg: Bytes, p: Bytes, t: Token, kept: seq<Token>, rest: seq<Token>, tokens: seq<Token>,
                                   at: nat, left: bool, remove: set<Bytes>)
    requires InOrder(tokens, at, |seg|) && tokens == kept + ([t] + rest) && t.name in remove
    requires forall k | k in kept :: k.name !in remove
    requires at <= t.start <= |seg| && seg[at..t.start] == p
    ensures InOrder(rest, t.end, |seg|)
    ensures Runs(seg, tokens, at, left, remove) == KeptText(p, left, true) + Runs(seg, rest, t.end, true, remove)
  {
    RunsOverAll(seg, kept, [t] + rest, at, left, remove);
    RunsCut(seg, t, rest, at, left, remove);
    KeptTextIs(p, left, true);
  }

  lemma {:induction false} TokensOfWeave(p: Bytes, name: Bytes, rest: Bytes, at: nat, b: nat, e: nat)
    requires ValidName(name) && b == at + |p| && e == b + |name| + 4
    ensures Tokens(p + (Braced(name) + rest), at) == Tokens(p, at) + ([Token(name, b, e)] + Tokens(rest, e))
  {
    TokensFromToken(name, rest, b, e);
    TokensConcat(p, Braced(name) + rest, at, b);
  }

  lemma {:induction false} PlaceIn(seg: Bytes, at: nat, p: Bytes, name: Bytes, rest: Bytes, b: nat, e: nat)
    requires at <= |seg| && seg[at..] == p + (Braced(name) + rest) && b == at + |p| && e == b + |name| + 4
    ensures e <= |seg| && seg[at..b] == p && seg[e..] == rest
  {
    var s := p + (Braced(name) + rest);
    assert |s| == |seg| - at;
    assert seg[at..b] == seg[at..][..|p|] == s[..|p|] == p;
    assert seg[e..] == seg[at..][e - at..] == s[e - at..] == rest;
  }

  lemma {:induction false} RunsFromPiece(seg: Bytes, p: Bytes, name: Bytes, rest: Bytes, at: nat, b: nat, e: nat, left: bool,
                                         remove: set<Bytes>, kept: seq<Token>, more: seq<Token>, tokens: seq<Token>)
    requires name in remove && b == at + |p| && e == b + |name| + 4 && at <= |seg| && seg[at..] == p + (Braced(name) + rest)
    requires tokens == kept + ([Token(name, b, e)] + more) && InOrder(tokens, at, |seg|)
    requires forall k | k in kept :: k.name !in remove
    ensures InOrder(more, e, |seg|) && e <= |seg| && seg[e..] == rest
    ensures Runs(seg, tokens, at, left, remove) == KeptText(p, left, true) + Runs(seg, more, e, true, remove)
  {
    PlaceIn(seg, at, p, name, rest, b, e);
    NextRun(seg, p, Token(name, b, e), kept, more, tokens, at, left, remove);
  }

  /** The end of a removed token that stands after a piece. */
  function EndAfter(at: nat, p: Bytes, name: Bytes): nat {
    at + |p| + |name| + 4
  }

  /** The tokens of a weave that stands at `at`: those of its pieces and the removed ones. */
  function WeaveTokens(pieces: seq<Bytes>, names: seq<Bytes>, at: nat): seq<Token>
    requires |pieces| == |names| + 1
    decreases |names|
  {
    if names == [] then Tokens(pieces[0], at)
    else
      WithRest(pieces[0], names[0], at, WeaveTokens(pieces[1..], names[1..], EndAfter(at, pieces[0], names[0])))
  }

  function WithRest(p: Bytes, name: Bytes, at: nat, more: seq<Token>): seq<Token> {
    Tokens(p, at) + ([Token(name, at + |p|, EndAfter(at, p, name))] + more)
  }

  lemma {:induction false} TokensOfPart(p: Bytes, name: Bytes, rest: Bytes, at: nat, more: seq<Token>)
    requires ValidName(name) && more == Tokens(rest, EndAfter(at, p, name))
    ensures Tokens(p + (Braced(name) + rest), at) == WithRest(p, name, at, more)
  {
    TokensOfWeave(p, name, rest, at, at + |p|, EndAfter(at, p, name));
  }

  lemma {:induction false} TokensOfAll(pieces: seq<Bytes>, names: seq<Bytes>, at: nat, remove: set<Bytes>)
    requires Woven(pieces, names, remove)
    ensures Tokens(Weave(pieces, names), at) == WeaveTokens(pieces, names, at)
    decreases |names|
  {
    if names != [] {
      WovenTail(pieces, names, remove);
      var rest := Weave(pieces[1..], names[1..]);
      TokensOfAll(pieces[1..], names[1..], EndAfter(at, pieces[0], names[0]), remove);
      TokensOfPart(pieces[0], names[0], rest, at, Tokens(rest, EndAfter(at, pieces[0], names[0])));
    }
  }

  lemma {:induction false} KeptPass(p: Bytes, at: nat, remove: set<Bytes>)
    requires Untouched(p, remove)
    ensures forall k | k in Tokens(p, at) :: k.name !in remove
  {
    NamesOfTokens(p, at);
  }

  lemma {:induction false} RunsOfWeave(seg: Bytes, pieces: seq<Bytes>, names: seq<Bytes>, at: nat, left: bool, remove: set<Bytes>,
                                       tokens: seq<Token>)
    requires Woven(pieces, names, remove) && at <= |seg| && seg[at..] == Weave(pieces, names)
    requires tokens == WeaveTokens(pieces, names, at) && InOrder(tokens, at, |seg|)
    ensures Runs(seg, tokens, at, left, remove) == KeptTexts(pieces, left)
    decreases |names|
  {
    KeptPass(pieces[0], at, remove);
    if names == [] {
      LastRun(seg, pieces[0], tokens, at, left, remove);
    } else {
      WovenTail(pieces, names, remove);
      var rest := Weave(pieces[1..], names[1..]);
      var e := EndAfter(at, pieces[0], names[0]);
      var more := WeaveTokens(pieces[1..], names[1..], e);
      RunsFromPiece(seg, pieces[0], names[0], rest, at, at + |pieces[0]|, e, left, remove, Tokens(pieces[0], at), more, tokens);
      RunsOfWeave(seg, pieces[1..], names[1..], e, true, remove, more);
    }
  }

  lemma {:induction false} WeaveIsTouched(pieces: seq<Bytes>, names: seq<Bytes>, remove: set<Bytes>)
    requires Woven(pieces, names, remove) && names != []
    ensures !Untouched(Weave(pieces, names), remove)
  {
    var name, rest := names[0], Weave(pieces[1..], names[1..]);
    NamesOfWeave(pieces[0], name, rest);
    InCons(name, Names(rest));
    InConcat(Names(pieces[0]), [name] + Names(rest));
  }

  lemma {:induction false} NamesOfWeave(p: Bytes, name: Bytes, rest: Bytes)
    requires ValidName(name)
    ensures Names(p + (Braced(name) + rest)) == Names(p) + ([name] + Names(rest))
  {
    var s := Braced(name) + rest;
    TokenBegins(name, rest);
    assert s[|name| + 4..] == rest;
    NamesPast(s, rest, |name| + 4);
    NamesConcat(p, s);
  }

  /** A segment with removed tokens loses them and the text that touches them: of every piece between
      them all the text from its first token to its last stays as it is, the text before and after
      those stays exactly on the sides where no token was removed, and the pieces are joined by a
      space. */
  lemma {:induction false} TouchedSegment(pieces: seq<Bytes>, names: seq<Bytes>, remove: set<Bytes>)
    requires Woven(pieces, names, remove) && names != []
    ensures FilterSegment(Weave(pieces, names), remove) == Join(KeptTexts(pieces, false), " ")
  {
    var seg := Weave(pieces, names);
    WeaveIsTouched(pieces, names, remove);
    AnyRemovedIs(seg, 0, remove);
    assert seg[0..] == seg;
    TokensInOrder(seg, 0);
    TokensOfAll(pieces, names, 0, remove);
    RunsOfWeave(seg, pieces, names, 0, false, remove, Tokens(seg, 0));
  }
}
