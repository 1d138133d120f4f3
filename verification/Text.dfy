/** Go strings as byte sequences, and the few string operations the other modules share. */
module Text {
  type Byte = c: char | c as int < 256
  type Bytes = seq<Byte>

  // ---------------------------------------------------------------- white space

  predicate AsciiSpace(c: Byte) {
    c == ' ' || '\t' <= c <= '\r'
  }

  predicate Space2(a: Byte, b: Byte) {
    a == '\U{C2}' && (b == '\U{85}' || b == '\U{A0}')
  }

  /** The white space of three bytes in UTF-8: U+1680, U+2000 to U+200A, U+2028, U+2029, U+202F,
      U+205F and U+3000. */
  predicate Space3(a: Byte, b: Byte, c: Byte) {
    || (a == '\U{E1}' && b == '\U{9A}' && c == '\U{80}')
    || (a == '\U{E2}' && b == '\U{80}' && ('\U{80}' <= c <= '\U{8A}' || c == '\U{A8}' || c == '\U{A9}' || c == '\U{AF}'))
    || (a == '\U{E2}' && b == '\U{81}' && c == '\U{9F}')
    || (a == '\U{E3}' && b == '\U{80}' && c == '\U{80}')
  }

  predicate Continues(c: Byte) {
    128 <= c as int < 192
  }

  /** The code points of unicode.IsSpace, by the length of their UTF-8 form. */
  lemma {:induction false} SpacesAre(a: Byte, b: Byte, c: Byte)
    ensures AsciiSpace(a) <==> a as int in {9, 10, 11, 12, 13, 32}
    ensures Space2(a, b) <==>
      194 <= a as int < 224 && Continues(b) && (a as int - 192) * 64 + (b as int - 128) in {0x85, 0xA0}
    ensures Space3(a, b, c) <==>
      && 224 <= a as int < 240 && Continues(b) && Continues(c)
      && var point := (a as int - 224) * 4096 + (b as int - 128) * 64 + (c as int - 128);
        0x2000 <= point <= 0x200A || point in {0x1680, 0x2028, 0x2029, 0x202F, 0x205F, 0x3000}
  {
  }

  /** The size of the white-space character `s` begins with, or 0. */
  function LeadingSpace(s: Bytes): (n: nat)
    ensures n <= |s|
  {
    if s == [] then 0
    else if AsciiSpace(s[0]) then 1
    else if |s| >= 2 && Space2(s[0], s[1]) then 2
    else if |s| >= 3 && Space3(s[0], s[1], s[2]) then 3
    else 0
  }

  /** The size of the white-space character `s` ends with, or 0. */
  function TrailingSpace(s: Bytes): (n: nat)
    ensures n <= |s|
  {
    var k := |s|;
    if k == 0 then 0
    else if AsciiSpace(s[k - 1]) then 1
    else if k >= 2 && Space2(s[k - 2], s[k - 1]) then 2
    else if k >= 3 && Space3(s[k - 3], s[k - 2], s[k - 1]) then 3
    else 0
  }

  function TrimLeft(s: Bytes): Bytes
    decreases |s|
  {
    var n := LeadingSpace(s);
    if n == 0 then s else TrimLeft(s[n..])
  }

  function TrimRight(s: Bytes): Bytes
    decreases |s|
  {
    var n := TrailingSpace(s);
    if n == 0 then s else TrimRight(s[..|s| - n])
  }

  /** strings.TrimSpace. */
  function TrimSpace(s: Bytes): Bytes {
    TrimRight(TrimLeft(s))
  }

  predicate Trimmed(s: Bytes) {
    LeadingSpace(s) == 0 && TrailingSpace(s) == 0
  }

  /** Cutting at the end never uncovers white space at the front. */
  lemma {:induction false} PrefixKeepsFront(s: Bytes, n: nat)
    requires n <= |s| && LeadingSpace(s) == 0
    ensures LeadingSpace(s[..n]) == 0
  {
  }

  lemma {:induction false} TrimRightIs(s: Bytes)
    ensures TrimRight(s) <= s && TrailingSpace(TrimRight(s)) == 0
    ensures LeadingSpace(s) == 0 ==> LeadingSpace(TrimRight(s)) == 0
    decreases |s|
  {
    var n := TrailingSpace(s);
    if n > 0 {
      TrimRightIs(s[..|s| - n]);
      if LeadingSpace(s) == 0 {
        PrefixKeepsFront(s, |s| - n);
      }
    }
  }

  lemma {:induction false} TrimLeftIs(s: Bytes)
    ensures |TrimLeft(s)| <= |s| && TrimLeft(s) == s[|s| - |TrimLeft(s)|..] && LeadingSpace(TrimLeft(s)) == 0
    decreases |s|
  {
    var n := LeadingSpace(s);
    if n > 0 {
      TrimLeftIs(s[n..]);
    }
  }

  /** The result has no white space at either end, and is a part of the text. */
  lemma {:induction false} TrimSpaceIs(s: Bytes)
    ensures Trimmed(TrimSpace(s))
    ensures Trimmed(s) ==> TrimSpace(s) == s
    ensures forall c | c in TrimSpace(s) :: c in s
  {
    TrimLeftIs(s);
    TrimRightIs(TrimLeft(s));
  }

  // ---------------------------------------------------------------- white space and concatenation

  /** White space is self-synchronising: what a text begins with does not depend on white space
      appended to it. */
  lemma {:induction false} FrontIgnoresSpaceBehind(l: Bytes, p: Bytes)
    requires l != [] && p != [] && LeadingSpace(p) == |p|
    ensures LeadingSpace(l + p) == LeadingSpace(l)
  {
  }

  lemma {:induction false} TrimLeftWithSpaceBehind(l: Bytes, p: Bytes)
    requires p != [] && LeadingSpace(p) == |p|
    ensures TrimLeft(l + p) == if TrimLeft(l) == [] then [] else TrimLeft(l) + p
    decreases |l|
  {
    if l == [] {
      assert l + p == p && TrimLeft(p) == TrimLeft(p[|p|..]);
    } else {
      FrontIgnoresSpaceBehind(l, p);
      var n := LeadingSpace(l);
      if n > 0 {
        assert (l + p)[n..] == l[n..] + p;
        TrimLeftWithSpaceBehind(l[n..], p);
      }
    }
  }

  /** White space appended to a text makes no difference to its trimmed form. */
  lemma {:induction false} TrimIgnoresSpaceBehind(l: Bytes, p: Bytes)
    requires p != [] && LeadingSpace(p) == |p|
    ensures TrimSpace(l + p) == TrimSpace(l)
  {
    TrimLeftWithSpaceBehind(l, p);
    var x := TrimLeft(l);
    if x != [] {
      assert TrailingSpace(x + p) == |p|;
      assert (x + p)[..|x + p| - |p|] == x;
    }
  }

  lemma {:induction false} TrailingIsLeading(s: Bytes)
    requires TrailingSpace(s) > 0
    ensures var p := s[|s| - TrailingSpace(s)..]; p != [] && LeadingSpace(p) == |p|
  {
  }

  lemma {:induction false} ConcatAssoc<T>(a: seq<T>, b: seq<T>, c: seq<T>)
    ensures (a + b) + c == a + (b + c)
  {
  }

  lemma {:induction false} ConcatNil<T>(a: seq<T>)
    ensures a + [] == a && [] + a == a
  {
  }

  // ---------------------------------------------------------------- searching and splitting

  /** The place of the first `c` in `s`, or |s|. */
  function IndexByte(s: Bytes, c: Byte): (k: nat)
    ensures k <= |s| && (k < |s| ==> s[k] == c) && c !in s[..k]
  {
    if s == [] || s[0] == c then 0 else 1 + IndexByte(s[1..], c)
  }

  predicate HasPrefix(s: Bytes, p: Bytes) {
    p <= s
  }

  predicate Contains(s: Bytes, p: Bytes) {
    exists i | 0 <= i <= |s| :: HasPrefix(s[i..], p)
  }

  /** strings.Split on one byte. */
  function Split(s: Bytes, c: Byte): (parts: seq<Bytes>)
    ensures parts != []
    decreases |s|
  {
    var k := IndexByte(s, c);
    if k == |s| then [s] else [s[..k]] + Split(s[k + 1..], c)
  }

  function Join(parts: seq<Bytes>, sep: Bytes): Bytes {
    if parts == [] then []
    else if |parts| == 1 then parts[0]
    else parts[0] + sep + Join(parts[1..], sep)
  }

  lemma {:induction false} IndexByteAfter(s: Bytes, c: Byte, t: Bytes)
    requires c !in s
    ensures IndexByte(s + [c] + t, c) == |s| && IndexByte(s, c) == |s|
    decreases |s|
  {
    if s != [] {
      assert (s + [c] + t)[1..] == s[1..] + [c] + t;
      IndexByteAfter(s[1..], c, t);
    }
  }

  /** Splitting undoes joining when no part contains the separator. */
  lemma {:induction false} SplitJoin(parts: seq<Bytes>, c: Byte)
    requires parts != [] && forall p | p in parts :: c !in p
    ensures Split(Join(parts, [c]), c) == parts
    decreases |parts|
  {
    var p := parts[0];
    if |parts| == 1 {
      IndexByteAfter(p, c, []);
    } else {
      var rest := Join(parts[1..], [c]);
      IndexByteAfter(p, c, rest);
      assert (p + [c] + rest)[|p| + 1..] == rest;
      assert (p + [c] + rest)[..|p|] == p;
      SplitJoin(parts[1..], c);
    }
  }
}
