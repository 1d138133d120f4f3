/** Single-brace tokens from the user interface, written out in the double-brace form that the
    remark templates use. */
module UiTranslation {
  import opened Wrappers
  import opened Text

  /** The internal name of a token of the user interface. */
  function UiToken(name: Bytes): Option<Bytes> {
    if name == "DATA_USAGE" then Some("TRAFFIC_USED")
    else if name == "DATA_LEFT" then Some("TRAFFIC_LEFT")
    else if name == "DATA_LIMIT" then Some("TRAFFIC_TOTAL")
    else if SameOnBothSides(name) then Some(name)
    else None
  }

  predicate SameOnBothSides(name: Bytes) {
    || name == "EMAIL" || name == "DAYS_LEFT" || name == "EXPIRE_DATE" || name == "JALALI_EXPIRE_DATE"
    || name == "TIME_LEFT" || name == "STATUS_EMOJI" || name == "USAGE_PERCENTAGE" || name == "PROTOCOL"
    || name == "TRANSPORT" || name == "SECURITY"
  }

  predicate Braceless(s: Bytes) {
    '{' !in s && '}' !in s
  }

  lemma {:induction false} ShortNamesAreBraceless(name: Bytes)
    requires name == "EMAIL" || name == "DAYS_LEFT" || name == "EXPIRE_DATE" || name == "TIME_LEFT" || name == "PROTOCOL"
    ensures Braceless(name)
  {
  }

  lemma {:induction false} LongNamesAreBraceless(name: Bytes)
    requires || name == "JALALI_EXPIRE_DATE" || name == "STATUS_EMOJI" || name == "USAGE_PERCENTAGE"
             || name == "TRANSPORT" || name == "SECURITY"
    ensures Braceless(name)
  {
  }

  lemma {:induction false} SameNamesAreBraceless(name: Bytes)
    requires SameOnBothSides(name)
    ensures Braceless(name)
  {
    if name == "EMAIL" || name == "DAYS_LEFT" || name == "EXPIRE_DATE" || name == "TIME_LEFT" || name == "PROTOCOL" {
      ShortNamesAreBraceless(name);
    } else {
      LongNamesAreBraceless(name);
    }
  }

  lemma {:induction false} RenamedAreBraceless()
    ensures Braceless("DATA_USAGE") && Braceless("DATA_LEFT") && Braceless("DATA_LIMIT")
    ensures Braceless("TRAFFIC_USED") && Braceless("TRAFFIC_LEFT") && Braceless("TRAFFIC_TOTAL")
  {
  }

  lemma {:induction false} TokensAreBraceless(name: Bytes)
    requires UiToken(name).Some?
    ensures Braceless(name) && Braceless(UiToken(name).value)
  {
    RenamedAreBraceless();
    if SameOnBothSides(name) {
      SameNamesAreBraceless(name);
    }
  }

  /** What the text after an opening brace translates to, when a token and its brace come first. */
  function Matched(s: Bytes): Option<Bytes> {
    var k := IndexByte(s, '}');
    if k == |s| then None else UiToken(s[..k])
  }

  function Braced(name: Bytes): Bytes {
    "{{" + name + "}}"
  }

  /** The translation of a text; `after` says that an opening brace stands before it. */
  function Translate(after: bool, s: Bytes): Bytes
    decreases |s|
  {
    if s == [] then []
    else if s[0] == '{' && !after && Matched(s[1..]).Some? then
      Braced(Matched(s[1..]).value) + Translate(false, s[IndexByte(s[1..], '}') + 2..])
    else [s[0]] + Translate(s[0] == '{', s[1..])
  }

  // ---------------------------------------------------------------- translating twice

  /** A translation begins as its text does. */
  lemma {:induction false} SameFront(after: bool, s: Bytes)
    ensures s == [] <==> Translate(after, s) == []
    ensures s != [] ==> Translate(after, s)[0] == s[0]
  {
  }

  lemma {:induction false} PrefixTail<T>(p: seq<T>, s: seq<T>)
    requires p != []
    ensures p <= s <==> s != [] && s[0] == p[0] && p[1..] <= s[1..]
  {
    if s != [] && s[0] == p[0] && p[1..] <= s[1..] {
      assert forall i | 0 < i < |p| :: p[i] == p[1..][i - 1] == s[1..][i - 1] == s[i];
    }
    if p <= s {
      assert forall i | 0 <= i < |p| - 1 :: p[1..][i] == s[1..][i];
    }
  }

  /** If a translation begins with a braceless name and a closing brace, so did the text. */
  lemma {:induction false} NameComesFromText(after: bool, s: Bytes, name: Bytes)
    requires Braceless(name) && name + ['}'] <= Translate(after, s)
    ensures name + ['}'] <= s
    decreases |name|
  {
    var p := name + ['}'];
    SameFront(after, s);
    PrefixTail(p, s);
    PrefixTail(p, Translate(after, s));
    if name != [] {
      assert name[0] in name && p[1..] == name[1..] + ['}'];
      Copied(after, s);
      assert ([s[0]] + Translate(false, s[1..]))[1..] == Translate(false, s[1..]);
      NameComesFromText(false, s[1..], name[1..]);
    }
  }

  lemma {:induction false} UpToBrace(s: Bytes)
    requires IndexByte(s, '}') < |s|
    ensures s[..IndexByte(s, '}')] + ['}'] <= s
  {
  }

  lemma {:induction false} BraceAfter(name: Bytes, s: Bytes)
    requires Braceless(name) && name + ['}'] <= s
    ensures IndexByte(s, '}') == |name| < |s| && s[..|name|] == name
  {
    IndexByteAfter(name, '}', s[|name| + 1..]);
    assert s == name + ['}'] + s[|name| + 1..];
  }

  /** A text that is no token does not become one by being translated. */
  lemma {:induction false} StillUnmatched(s: Bytes)
    requires Matched(s).None?
    ensures Matched(Translate(true, s)).None?
  {
    var t := Translate(true, s);
    if Matched(t).Some? {
      var name := t[..IndexByte(t, '}')];
      TokensAreBraceless(name);
      UpToBrace(t);
      NameComesFromText(true, s, name);
      BraceAfter(name, s);
    }
  }

  lemma {:induction false} IndexTail(c: Byte, rest: Bytes)
    requires c != '}'
    ensures IndexByte([c] + rest, '}') == 1 + IndexByte(rest, '}')
  {
    assert ([c] + rest)[1..] == rest;
  }

  lemma {:induction false} Copied(after: bool, s: Bytes)
    requires s != [] && (s[0] != '{' || after || Matched(s[1..]).None?)
    ensures Translate(after, s) == [s[0]] + Translate(s[0] == '{', s[1..])
  {
  }

  /** Text without braces is copied. */
  lemma {:induction false} BracelessIsCopied(name: Bytes, after: bool, rest: Bytes)
    requires Braceless(name) && name != []
    ensures Translate(after, name + rest) == name + Translate(false, rest)
    decreases |name|
  {
    var s := name + rest;
    assert name[0] in name && s[1..] == name[1..] + rest;
    Copied(after, s);
    if |name| > 1 {
      assert forall c | c in name[1..] :: c in name;
      BracelessIsCopied(name[1..], false, rest);
      ConcatAssoc([name[0]], name[1..], Translate(false, rest));
      assert [name[0]] + name[1..] == name;
    } else {
      assert name[1..] + rest == rest && [name[0]] == name;
    }
  }

  lemma {:induction false} BracedIsUnknown(name: Bytes)
    requires '{' in name
    ensures UiToken(name).None?
  {
    if UiToken(name).Some? {
      TokensAreBraceless(name);
    }
  }

  lemma {:induction false} UnmatchedDouble(rest: Bytes)
    ensures Matched(['{'] + rest).None?
  {
    var s := ['{'] + rest;
    var k := IndexByte(s, '}');
    assert s[0] == '{' && k > 0;
    if k < |s| {
      assert s[..k][0] == '{';
      BracedIsUnknown(s[..k]);
    }
  }

  lemma {:induction false} ConsIsCopied(after: bool, c: Byte, rest: Bytes)
    requires c != '{' || after || Matched(rest).None?
    ensures Translate(after, [c] + rest) == [c] + Translate(c == '{', rest)
  {
    assert ([c] + rest)[1..] == rest;
    Copied(after, [c] + rest);
  }

  /** A token in double braces is copied. */
  lemma {:induction false} DoubledIsCopied(name: Bytes, rest: Bytes)
    requires Braceless(name) && name != []
    ensures Translate(false, Braced(name) + rest) == Braced(name) + Translate(false, rest)
  {
    var tail := ['}'] + (['}'] + rest);
    calc {
      Translate(false, Braced(name) + rest);
    == { SpelledOut(name, rest); }
      Translate(false, ['{'] + (['{'] + (name + tail)));
    == { UnmatchedDouble(name + tail); ConsIsCopied(false, '{', ['{'] + (name + tail)); }
      ['{'] + Translate(true, ['{'] + (name + tail));
    == { ConsIsCopied(true, '{', name + tail); }
      ['{'] + (['{'] + Translate(true, name + tail));
    == { BracelessIsCopied(name, true, tail); }
      ['{'] + (['{'] + (name + Translate(false, tail)));
    == { ConsIsCopied(false, '}', ['}'] + rest); ConsIsCopied(false, '}', rest); }
      ['{'] + (['{'] + (name + (['}'] + (['}'] + Translate(false, rest)))));
    == { SpelledOut(name, Translate(false, rest)); }
      Braced(name) + Translate(false, rest);
    }
  }

  lemma {:induction false} SpelledOut(name: Bytes, rest: Bytes)
    ensures Braced(name) + rest == ['{'] + (['{'] + (name + (['}'] + (['}'] + rest))))
  {
  }

  lemma {:induction false} TokensAreNamed(name: Bytes)
    requires UiToken(name).Some?
    ensures UiToken(name).value != []
  {
  }

  /** Translating a second time changes nothing. */
  lemma {:induction false} TranslateTwice(after: bool, s: Bytes)
    ensures Translate(after, Translate(after, s)) == Translate(after, s)
    decreases |s|
  {
    if s == [] {
    } else if s[0] == '{' && !after && Matched(s[1..]).Some? {
      var k := IndexByte(s[1..], '}');
      var name, rest := Matched(s[1..]).value, Translate(false, s[k + 2..]);
      TokensAreBraceless(s[1..][..k]);
      TokensAreNamed(s[1..][..k]);
      TranslateTwice(false, s[k + 2..]);
      DoubledIsCopied(name, rest);
    } else {
      var rest := Translate(s[0] == '{', s[1..]);
      Copied(after, s);
      if s[0] == '{' && !after {
        StillUnmatched(s[1..]);
      }
      ConsIsCopied(after, s[0], rest);
      TranslateTwice(s[0] == '{', s[1..]);
    }
  }

  lemma {:induction false} TranslationIsIdempotent(template: Bytes)
    ensures Translate(false, Translate(false, template)) == Translate(false, template)
  {
    TranslateTwice(false, template);
  }

  // ---------------------------------------------------------------- what a token becomes

  /** A token of the user interface and the internal token it stands for. */
  ghost predicate StandsFor(name: Bytes, internal: Bytes) {
    || (name == "DATA_USAGE" && internal == "TRAFFIC_USED")
    || (name == "DATA_LEFT" && internal == "TRAFFIC_LEFT")
    || (name == "DATA_LIMIT" && internal == "TRAFFIC_TOTAL")
    || (name == internal
        && name in {"EMAIL", "DAYS_LEFT", "EXPIRE_DATE", "JALALI_EXPIRE_DATE", "TIME_LEFT", "STATUS_EMOJI",
                    "USAGE_PERCENTAGE", "PROTOCOL", "TRANSPORT", "SECURITY"})
  }

  lemma {:induction false} TokenStandsFor(name: Bytes, internal: Bytes)
    ensures UiToken(name) == Some(internal) <==> StandsFor(name, internal)
  {
    RenamedDiffer();
  }

  lemma {:induction false} RenamedDiffer()
    ensures !SameOnBothSides("DATA_USAGE") && !SameOnBothSides("DATA_LEFT") && !SameOnBothSides("DATA_LIMIT")
  {
    var s: Bytes := "DATA_USAGE";
    var t: Bytes := "DATA_LEFT";
    var u: Bytes := "DATA_LIMIT";
    assert s[1] == 'A' && s[2] == 'T' && t[2] == 'T' && u[2] == 'T';
  }

  lemma {:induction false} SingleIsTranslated(name: Bytes, internal: Bytes, rest: Bytes)
    requires Braceless(name) && UiToken(name) == Some(internal)
    ensures Translate(false, ("{" + name + "}") + rest) == Braced(internal) + Translate(false, rest)
  {
    var s := ("{" + name + "}") + rest;
    assert s[1..] == name + ['}'] + rest;
    BraceAfter(name, s[1..]);
    assert s[|name| + 2..] == rest;
  }

  /** After text without braces a token in single braces becomes its internal token in double braces,
      and the text stays. */
  lemma {:induction false} TokenIsTranslated(before: Bytes, name: Bytes, internal: Bytes, rest: Bytes)
    requires Braceless(before) && StandsFor(name, internal)
    ensures Translate(false, before + (("{" + name + "}") + rest)) == before + (("{{" + internal + "}}") + Translate(false, rest))
  {
    TokenStandsFor(name, internal);
    TokensAreBraceless(name);
    SingleIsTranslated(name, internal, rest);
    Copies(before, ("{" + name + "}") + rest);
  }

  /** Any other braceless name stays in its single braces, */
  lemma {:induction false} OthersAreCopied(before: Bytes, name: Bytes, rest: Bytes)
    requires Braceless(before) && Braceless(name) && name != [] && forall internal :: !StandsFor(name, internal)
    ensures Translate(false, before + (("{" + name + "}") + rest)) == before + (("{" + name + "}") + Translate(false, rest))
  {
    Copies(before, ("{" + name + "}") + rest);
    UnknownIsCopied(name, rest);
  }

  /** and every name in double braces stays as it is. */
  lemma {:induction false} DoubledAreCopied(before: Bytes, name: Bytes, rest: Bytes)
    requires Braceless(before) && Braceless(name) && name != []
    ensures Translate(false, before + (("{{" + name + "}}") + rest)) == before + (("{{" + name + "}}") + Translate(false, rest))
  {
    Copies(before, Braced(name) + rest);
    DoubledIsCopied(name, rest);
  }

  lemma {:induction false} Copies(before: Bytes, s: Bytes)
    requires Braceless(before)
    ensures Translate(false, before + s) == before + Translate(false, s)
  {
    if before == [] {
      assert before + s == s;
    } else {
      BracelessIsCopied(before, false, s);
    }
  }

  lemma {:induction false} UnknownIsUnmatched(name: Bytes, s: Bytes)
    requires Braceless(name) && name + ['}'] <= s && forall internal :: !StandsFor(name, internal)
    ensures Matched(s).None?
  {
    BraceAfter(name, s);
    if UiToken(name).Some? {
      TokenStandsFor(name, UiToken(name).value);
    }
  }

  lemma {:induction false} SingleSpelledOut(name: Bytes, rest: Bytes)
    ensures ("{" + name + "}") + rest == ['{'] + (name + (['}'] + rest))
    ensures name + ['}'] <= name + (['}'] + rest)
  {
  }

  lemma {:induction false} UnknownIsCopied(name: Bytes, rest: Bytes)
    requires Braceless(name) && name != [] && forall internal :: !StandsFor(name, internal)
    ensures Translate(false, ("{" + name + "}") + rest) == ("{" + name + "}") + Translate(false, rest)
  {
    var tail, after := ['}'] + rest, Translate(false, rest);
    calc {
      Translate(false, ("{" + name + "}") + rest);
    == { SingleSpelledOut(name, rest); }
      Translate(false, ['{'] + (name + tail));
    == { SingleSpelledOut(name, rest); UnknownIsUnmatched(name, name + tail); ConsIsCopied(false, '{', name + tail); }
      ['{'] + Translate(true, name + tail);
    == { BracelessIsCopied(name, true, tail); }
      ['{'] + (name + Translate(false, tail));
    == { ConsIsCopied(false, '}', rest); }
      ['{'] + (name + (['}'] + after));
    == { SingleSpelledOut(name, after); }
      ("{" + name + "}") + after;
    }
  }

  // ---------------------------------------------------------------- the translation as it runs

  predicate BraceBefore(template: Bytes, i: nat)
    requires i <= |template|
  {
    i > 0 && template[i - 1] == '{'
  }

  method FindBrace(template: Bytes, from: nat) returns (j: nat)
    requires from <= |template|
    ensures from <= j <= |template| && j - from == IndexByte(template[from..], '}')
  {
    j := from;
    while j < |template| && template[j] != '}'
      invariant from <= j <= |template|
      invariant IndexByte(template[from..], '}') == (j - from) + IndexByte(template[j..], '}')
    {
      assert template[j..] == [template[j]] + template[j + 1..];
      IndexTail(template[j], template[j + 1..]);
      j := j + 1;
    }
  }

  /** The token that begins after the opening brace at `i`, and the place of its closing brace. */
  method MatchToken(template: Bytes, i: nat) returns (internal: Option<Bytes>, j: nat)
    requires i < |template|
    ensures internal == Matched(template[i + 1..])
    ensures internal.Some? ==> i < j < |template| && j - i - 1 == IndexByte(template[i + 1..], '}')
  {
    j := FindBrace(template, i + 1);
    internal := None;
    if j < |template| {
      assert template[i + 1..][..j - i - 1] == template[i + 1..j];
      internal := UiToken(template[i + 1..j]);
    }
  }

  /** The translation from `i` on is `out` and the translation from `next` on. */
  ghost predicate Advances(template: Bytes, i: nat, out: Bytes, next: nat) {
    && i < next <= |template|
    && Translate(BraceBefore(template, i), template[i..]) == out + Translate(BraceBefore(template, next), template[next..])
  }

  lemma {:induction false} MatchedStep(template: Bytes, i: nat, j: nat, next: nat, out: Bytes)
    requires i < j < |template| && next == j + 1 && template[i] == '{' && !BraceBefore(template, i)
    requires j - i - 1 == IndexByte(template[i + 1..], '}') && Matched(template[i + 1..]).Some?
    requires out == Braced(Matched(template[i + 1..]).value)
    ensures Advances(template, i, out, next)
  {
    assert template[i..][1..] == template[i + 1..] && template[i..][j - i + 1..] == template[j + 1..];
    assert template[i + 1..][j - i - 1] == template[j] == '}';
  }

  lemma {:induction false} CopyStep(template: Bytes, i: nat, next: nat, out: Bytes)
    requires i < |template| && next == i + 1 && out == [template[i]]
    requires template[i] != '{' || BraceBefore(template, i) || Matched(template[i + 1..]).None?
    ensures Advances(template, i, out, next)
  {
    assert template[i..][1..] == template[i + 1..];
    Copied(BraceBefore(template, i), template[i..]);
  }

  method MatchedPiece(template: Bytes, i: nat, j: nat, internal: Bytes) returns (out: Bytes, next: nat)
    requires i < j < |template| && template[i] == '{' && !BraceBefore(template, i)
    requires j - i - 1 == IndexByte(template[i + 1..], '}') && Matched(template[i + 1..]) == Some(internal)
    ensures Advances(template, i, out, next)
  {
    out, next := Braced(internal), j + 1;
    MatchedStep(template, i, j, next, out);
  }

  method CopiedPiece(template: Bytes, i: nat) returns (out: Bytes, next: nat)
    requires i < |template|
    requires template[i] != '{' || BraceBefore(template, i) || Matched(template[i + 1..]).None?
    ensures Advances(template, i, out, next)
  {
    out, next := [template[i]], i + 1;
    CopyStep(template, i, next, out);
  }

  /** The piece an opening brace begins: a token to be written in double braces, or the brace itself. */
  method BracePiece(template: Bytes, i: nat) returns (out: Bytes, next: nat)
    requires i < |template| && template[i] == '{' && !BraceBefore(template, i)
    ensures Advances(template, i, out, next)
  {
    var internal, j := MatchToken(template, i);
    if internal.Some? {
      out, next := MatchedPiece(template, i, j, internal.value);
    } else {
      out, next := CopiedPiece(template, i);
    }
  }

  method NextPiece(template: Bytes, i: nat) returns (out: Bytes, next: nat)
    requires i < |template|
    ensures Advances(template, i, out, next)
  {
    if template[i] == '{' && !BraceBefore(template, i) {
      out, next := BracePiece(template, i);
    } else {
      out, next := CopiedPiece(template, i);
    }
  }

  method TranslateUISingleBrackets(template: Bytes) returns (result: Bytes)
    ensures result == Translate(false, template)
  {
    result := [];
    var i := 0;
    ghost var all := Translate(false, template);
    ConcatNil(all);
    assert template[0..] == template;
    while i < |template|
      invariant i <= |template|
      invariant result + Translate(BraceBefore(template, i), template[i..]) == all
    {
      var out, next := NextPiece(template, i);
      ConcatAssoc(result, out, Translate(BraceBefore(template, next), template[next..]));
      result := result + out;
      i := next;
    }
    ConcatNil(result);
  }
}
