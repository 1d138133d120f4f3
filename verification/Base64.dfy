/** Base64 (section 4 of RFC 4648) as Go's StdEncoding and RawURLEncoding read and write it. */
module Base64 {
  import opened Wrappers
  import opened Text

  function Digit(n: nat): Byte
    requires n < 64
  {
    if n < 26 then 'A' + n as char
    else if n < 52 then 'a' + (n - 26) as char
    else if n < 62 then '0' + (n - 52) as char
    else if n == 62 then '+'
    else '/'
  }

  /** The value of a character in the standard alphabet. */
  function StdValue(c: Byte): (v: Option<nat>)
    ensures v.Some? ==> v.value < 64
  {
    if 'A' <= c <= 'Z' then Some(c as int - 'A' as int)
    else if 'a' <= c <= 'z' then Some(c as int - 'a' as int + 26)
    else if '0' <= c <= '9' then Some(c as int - '0' as int + 52)
    else if c == '+' then Some(62)
    else if c == '/' then Some(63)
    else None
  }

  /** The value of a character in the URL alphabet. */
  function UrlValue(c: Byte): (v: Option<nat>)
    ensures v.Some? ==> v.value < 64
  {
    if c == '-' then Some(62)
    else if c == '_' then Some(63)
    else if c == '+' || c == '/' then None
    else StdValue(c)
  }

  function Encode(s: Bytes): Bytes
    decreases |s|
  {
    if s == [] then []
    else
      var a := s[0] as int;
      if |s| == 1 then [Digit(a / 4), Digit(a % 4 * 16), '=', '=']
      else
        var b := s[1] as int;
        if |s| == 2 then [Digit(a / 4), Digit(a % 4 * 16 + b / 16), Digit(b % 16 * 4), '=']
        else
          var c := s[2] as int;
          [Digit(a / 4), Digit(a % 4 * 16 + b / 16), Digit(b % 16 * 4 + c / 64), Digit(c % 64)] + Encode(s[3..])
  }

  function Octet(n: nat): Byte {
    (n % 256) as char
  }

  /** The bytes of two, three or four sextets; leftover bits are ignored, as Go does unless told
      to be strict. */
  function Bytes1(x: nat, y: nat): Bytes {
    [Octet(x * 4 + y / 16)]
  }

  function Bytes2(x: nat, y: nat, z: nat): Bytes {
    [Octet(x * 4 + y / 16), Octet(y % 16 * 16 + z / 4)]
  }

  function Bytes3(x: nat, y: nat, z: nat, w: nat): Bytes {
    [Octet(x * 4 + y / 16), Octet(y % 16 * 16 + z / 4), Octet(z % 4 * 64 + w)]
  }

  /** StdEncoding.DecodeString: whole quanta, the last one padded. */
  function DecodeStd(s: Bytes): Option<Bytes>
    decreases |s|
  {
    if s == [] then Some([])
    else if |s| < 4 then None
    else
      var x :- StdValue(s[0]);
      var y :- StdValue(s[1]);
      if s[2] == '=' then
        if s[3] == '=' && |s| == 4 then Some(Bytes1(x, y)) else None
      else
        var z :- StdValue(s[2]);
        if s[3] == '=' then
          if |s| == 4 then Some(Bytes2(x, y, z)) else None
        else
          var w :- StdValue(s[3]);
          var rest :- DecodeStd(s[4..]);
          Some(Bytes3(x, y, z, w) + rest)
  }

  /** RawURLEncoding.DecodeString: no padding, the last quantum may be short. */
  function DecodeRawUrl(s: Bytes): Option<Bytes>
    decreases |s|
  {
    if s == [] then Some([])
    else if |s| == 1 then None
    else
      var x :- UrlValue(s[0]);
      var y :- UrlValue(s[1]);
      if |s| == 2 then Some(Bytes1(x, y))
      else
        var z :- UrlValue(s[2]);
        if |s| == 3 then Some(Bytes2(x, y, z))
        else
          var w :- UrlValue(s[3]);
          var rest :- DecodeRawUrl(s[4..]);
          Some(Bytes3(x, y, z, w) + rest)
  }

  lemma {:induction false} DigitHasItsValue(n: nat)
    requires n < 64
    ensures StdValue(Digit(n)) == Some(n) && Digit(n) != '='
  {
  }

  lemma {:induction false} Quantum(a: nat, b: nat, c: nat)
    requires a < 256 && b < 256 && c < 256
    ensures a / 4 < 64 && a % 4 * 16 + b / 16 < 64 && b % 16 * 4 + c / 64 < 64 && c % 64 < 64
    ensures (a / 4) * 4 + (a % 4 * 16 + b / 16) / 16 == a
    ensures (a % 4 * 16 + b / 16) % 16 * 16 + (b % 16 * 4 + c / 64) / 4 == b
    ensures (b % 16 * 4 + c / 64) % 4 * 64 + c % 64 == c
  {
  }

  lemma {:induction false} OctetOf(c: Byte)
    ensures Octet(c as int) == c
  {
  }

  lemma {:induction false} FullQuantum(p: Byte, q: Byte, r: Byte)
    ensures var a, b, c := p as int, q as int, r as int;
      Bytes3(a / 4, a % 4 * 16 + b / 16, b % 16 * 4 + c / 64, c % 64) == [p, q, r]
  {
    var a, b, c := p as int, q as int, r as int;
    Quantum(a, b, c);
    OctetOf(p);
    OctetOf(q);
    OctetOf(r);
  }

  lemma {:induction false} ShortQuantum(s: Bytes)
    requires 0 < |s| < 3
    ensures DecodeStd(Encode(s)) == Some(s)
  {
    var a, b := s[0] as int, if |s| > 1 then s[1] as int else 0;
    Quantum(a, b, 0);
    DigitHasItsValue(a / 4);
    DigitHasItsValue(a % 4 * 16 + b / 16);
    DigitHasItsValue(b % 16 * 4);
    OctetOf(s[0]);
    if |s| == 2 {
      OctetOf(s[1]);
      assert Bytes2(a / 4, a % 4 * 16 + b / 16, b % 16 * 4) == [s[0], s[1]] == s;
      var e := [Digit(a / 4), Digit(a % 4 * 16 + b / 16), Digit(b % 16 * 4), '='];
      assert Encode(s) == e;
      assert StdValue(e[2]) == Some(b % 16 * 4);
      assert DecodeStd(e) == Some(s);
    } else {
      assert Bytes1(a / 4, a % 4 * 16) == [s[0]] == s;
      var e := [Digit(a / 4), Digit(a % 4 * 16), '=', '='];
      assert Encode(s) == e;
      assert StdValue(e[1]) == Some(a % 4 * 16);
      assert DecodeStd(e) == Some(s);
    }
  }

  /** One whole quantum of three bytes in front. */
  lemma {:induction false} DecodeFull(e: Bytes, p: Byte, q: Byte, r: Byte, rest: Bytes)
    requires var a, b, c := p as int, q as int, r as int;
      e == [Digit(a / 4), Digit(a % 4 * 16 + b / 16), Digit(b % 16 * 4 + c / 64), Digit(c % 64)] + rest
    requires DecodeStd(rest).Some?
    ensures DecodeStd(e) == Some([p, q, r] + DecodeStd(rest).value)
  {
    var a, b, c := p as int, q as int, r as int;
    Quantum(a, b, c);
    DecodeFour(e, a / 4, a % 4 * 16 + b / 16, b % 16 * 4 + c / 64, c % 64, rest);
    FullQuantum(p, q, r);
  }

  lemma {:induction false} DecodeFour(e: Bytes, x: nat, y: nat, z: nat, w: nat, rest: Bytes)
    requires x < 64 && y < 64 && z < 64 && w < 64 && e == [Digit(x), Digit(y), Digit(z), Digit(w)] + rest
    requires DecodeStd(rest).Some?
    ensures DecodeStd(e) == Some(Bytes3(x, y, z, w) + DecodeStd(rest).value)
  {
    DigitHasItsValue(x);
    DigitHasItsValue(y);
    DigitHasItsValue(z);
    DigitHasItsValue(w);
    assert e[4..] == rest;
  }

  lemma {:induction false} EncodeFull(s: Bytes)
    requires |s| >= 3
    ensures var a, b, c := s[0] as int, s[1] as int, s[2] as int;
      Encode(s) == [Digit(a / 4), Digit(a % 4 * 16 + b / 16), Digit(b % 16 * 4 + c / 64), Digit(c % 64)] + Encode(s[3..])
  {
  }

  /** Decoding undoes encoding, for every byte string. */
  lemma {:induction false} DecodeEncode(s: Bytes)
    ensures DecodeStd(Encode(s)) == Some(s)
    decreases |s|
  {
    if |s| >= 3 {
      DecodeEncode(s[3..]);
      EncodeFull(s);
      DecodeFull(Encode(s), s[0], s[1], s[2], Encode(s[3..]));
      assert [s[0], s[1], s[2]] + s[3..] == s;
    } else if s != [] {
      ShortQuantum(s);
    }
  }

  predicate Base64Char(c: Byte) {
    StdValue(c).Some? || c == '='
  }

  lemma {:induction false} DigitIsBase64(n: nat)
    requires n < 64
    ensures Base64Char(Digit(n))
  {
    DigitHasItsValue(n);
  }

  lemma {:induction false} ShortQuantumShape(s: Bytes)
    requires 0 < |s| < 3
    ensures |Encode(s)| == 4 && forall i | 0 <= i < 4 :: Base64Char(Encode(s)[i])
  {
    var a, b := s[0] as int, if |s| > 1 then s[1] as int else 0;
    Quantum(a, b, 0);
    DigitIsBase64(a / 4);
    DigitIsBase64(a % 4 * 16 + b / 16);
    DigitIsBase64(b % 16 * 4);
  }

  lemma {:induction false} FullQuantumShape(s: Bytes)
    requires |s| >= 3
    ensures |Encode(s)| >= 4 && Encode(s) == Encode(s)[..4] + Encode(s[3..])
    ensures forall i | 0 <= i < 4 :: Base64Char(Encode(s)[i])
  {
    var a, b, c := s[0] as int, s[1] as int, s[2] as int;
    EncodeFull(s);
    Quantum(a, b, c);
    DigitIsBase64(a / 4);
    DigitIsBase64(a % 4 * 16 + b / 16);
    DigitIsBase64(b % 16 * 4 + c / 64);
    DigitIsBase64(c % 64);
  }

  /** What is encoded consists of the alphabet and padding, in whole quanta. */
  lemma {:induction false} EncodeShape(s: Bytes)
    ensures |Encode(s)| % 4 == 0 && (Encode(s) == [] <==> s == [])
    ensures forall c | c in Encode(s) :: Base64Char(c)
    decreases |s|
  {
    if s != [] {
      if |s| >= 3 {
        EncodeShape(s[3..]);
        FullQuantumShape(s);
      } else {
        ShortQuantumShape(s);
      }
    }
  }

  lemma {:induction false} ColonNeverDecodesStd(s: Bytes)
    requires ':' in s
    ensures DecodeStd(s).None?
    decreases |s|
  {
    if |s| >= 4 && ':' !in s[..4] {
      assert s == s[..4] + s[4..];
      ColonNeverDecodesStd(s[4..]);
    }
  }

  lemma {:induction false} ColonNeverDecodesRawUrl(s: Bytes)
    requires ':' in s
    ensures DecodeRawUrl(s).None?
    decreases |s|
  {
    if |s| >= 4 && ':' !in s[..4] {
      assert s == s[..4] + s[4..];
      ColonNeverDecodesRawUrl(s[4..]);
    }
  }

  /** A colon is in neither alphabet, so no text with one decodes. */
  lemma {:induction false} ColonNeverDecodes(s: Bytes)
    requires ':' in s
    ensures DecodeStd(s).None? && DecodeRawUrl(s).None?
  {
    ColonNeverDecodesStd(s);
    ColonNeverDecodesRawUrl(s);
  }

  // ---------------------------------------------------------------- the alphabet and its URL variant

  /** The alphabet of Table 1: upper case, lower case, digits, "+" and "/". */
  lemma {:induction false} AlphabetIs(n: nat)
    requires n < 63
    ensures Digit(0) == 'A' && Digit(25) == 'Z' && Digit(26) == 'a' && Digit(51) == 'z'
    ensures Digit(52) == '0' && Digit(61) == '9' && Digit(62) == '+' && Digit(63) == '/'
    ensures n !in {25, 51, 61, 62} ==> Digit(n + 1) as int == Digit(n) as int + 1
  {
  }

  function UrlDigit(n: nat): Byte
    requires n < 64
  {
    if n == 62 then '-' else if n == 63 then '_' else Digit(n)
  }

  /** Only the digits of an alphabet have a value in it. */
  lemma {:induction false} OnlyDigitsHaveValues(c: Byte)
    ensures StdValue(c).Some? ==> Digit(StdValue(c).value) == c
    ensures UrlValue(c).Some? ==> UrlDigit(UrlValue(c).value) == c
  {
  }

  /** RawURLEncoding.EncodeToString. */
  function RawUrlEncode(s: Bytes): Bytes
    decreases |s|
  {
    if s == [] then []
    else
      var a := s[0] as int;
      if |s| == 1 then [UrlDigit(a / 4), UrlDigit(a % 4 * 16)]
      else
        var b := s[1] as int;
        if |s| == 2 then [UrlDigit(a / 4), UrlDigit(a % 4 * 16 + b / 16), UrlDigit(b % 16 * 4)]
        else
          var c := s[2] as int;
          [UrlDigit(a / 4), UrlDigit(a % 4 * 16 + b / 16), UrlDigit(b % 16 * 4 + c / 64), UrlDigit(c % 64)]
          + RawUrlEncode(s[3..])
  }

  lemma {:induction false} UrlDigitHasItsValue(n: nat)
    requires n < 64
    ensures UrlValue(UrlDigit(n)) == Some(n) && UrlDigit(n) !in {'=', '+', '/'}
  {
    DigitHasItsValue(n);
  }

  lemma {:induction false} UrlFour(e: Bytes, x: nat, y: nat, z: nat, w: nat, rest: Bytes)
    requires x < 64 && y < 64 && z < 64 && w < 64 && e == [UrlDigit(x), UrlDigit(y), UrlDigit(z), UrlDigit(w)] + rest
    requires DecodeRawUrl(rest).Some?
    ensures DecodeRawUrl(e) == Some(Bytes3(x, y, z, w) + DecodeRawUrl(rest).value)
  {
    UrlDigitHasItsValue(x);
    UrlDigitHasItsValue(y);
    UrlDigitHasItsValue(z);
    UrlDigitHasItsValue(w);
    assert e[4..] == rest;
  }

  lemma {:induction false} UrlFull(e: Bytes, p: Byte, q: Byte, r: Byte, rest: Bytes)
    requires var a, b, c := p as int, q as int, r as int;
      e == [UrlDigit(a / 4), UrlDigit(a % 4 * 16 + b / 16), UrlDigit(b % 16 * 4 + c / 64), UrlDigit(c % 64)] + rest
    requires DecodeRawUrl(rest).Some?
    ensures DecodeRawUrl(e) == Some([p, q, r] + DecodeRawUrl(rest).value)
  {
    var a, b, c := p as int, q as int, r as int;
    Quantum(a, b, c);
    UrlFour(e, a / 4, a % 4 * 16 + b / 16, b % 16 * 4 + c / 64, c % 64, rest);
    FullQuantum(p, q, r);
  }

  lemma {:induction false} UrlTwo(e: Bytes, x: nat, y: nat)
    requires x < 64 && y < 64 && e == [UrlDigit(x), UrlDigit(y)]
    ensures DecodeRawUrl(e) == Some(Bytes1(x, y))
  {
    UrlDigitHasItsValue(x);
    UrlDigitHasItsValue(y);
  }

  lemma {:induction false} UrlThree(e: Bytes, x: nat, y: nat, z: nat)
    requires x < 64 && y < 64 && z < 64 && e == [UrlDigit(x), UrlDigit(y), UrlDigit(z)]
    ensures DecodeRawUrl(e) == Some(Bytes2(x, y, z))
  {
    UrlDigitHasItsValue(x);
    UrlDigitHasItsValue(y);
    UrlDigitHasItsValue(z);
  }

  lemma {:induction false} UrlOneByte(p: Byte)
    ensures DecodeRawUrl(RawUrlEncode([p])) == Some([p])
  {
    var a := p as int;
    Quantum(a, 0, 0);
    OctetOf(p);
    UrlTwo(RawUrlEncode([p]), a / 4, a % 4 * 16);
  }

  lemma {:induction false} TwoOctets(p: Byte, q: Byte)
    ensures var a, b := p as int, q as int;
      && a / 4 < 64 && a % 4 * 16 + b / 16 < 64 && b % 16 * 4 < 64
      && Bytes2(a / 4, a % 4 * 16 + b / 16, b % 16 * 4) == [p, q]
  {
    Quantum(p as int, q as int, 0);
    OctetOf(p);
    OctetOf(q);
  }

  lemma {:induction false} UrlTwoBytes(p: Byte, q: Byte)
    ensures DecodeRawUrl(RawUrlEncode([p, q])) == Some([p, q])
  {
    var a, b := p as int, q as int;
    TwoOctets(p, q);
    UrlThree([UrlDigit(a / 4), UrlDigit(a % 4 * 16 + b / 16), UrlDigit(b % 16 * 4)], a / 4, a % 4 * 16 + b / 16, b % 16 * 4);
  }

  lemma {:induction false} UrlShort(s: Bytes)
    requires 0 < |s| < 3
    ensures DecodeRawUrl(RawUrlEncode(s)) == Some(s)
  {
    if |s| == 1 {
      UrlOneByte(s[0]);
      assert s == [s[0]];
    } else {
      UrlTwoBytes(s[0], s[1]);
      assert s == [s[0], s[1]];
    }
  }

  lemma {:induction false} UrlEncodeFull(s: Bytes, rest: Bytes)
    requires |s| >= 3 && rest == RawUrlEncode(s[3..]) && DecodeRawUrl(rest) == Some(s[3..])
    ensures DecodeRawUrl(RawUrlEncode(s)) == Some(s)
  {
    UrlFull(RawUrlEncode(s), s[0], s[1], s[2], rest);
    assert [s[0], s[1], s[2]] + s[3..] == s;
  }

  /** Decoding undoes encoding in the URL alphabet without padding, too. */
  lemma {:induction false} DecodeRawUrlEncode(s: Bytes)
    ensures DecodeRawUrl(RawUrlEncode(s)) == Some(s)
    decreases |s|
  {
    if |s| >= 3 {
      DecodeRawUrlEncode(s[3..]);
      UrlEncodeFull(s, RawUrlEncode(s[3..]));
    } else if s != [] {
      UrlShort(s);
    }
  }

  lemma {:induction false} RawUrlDecodes(s: Bytes)
    requires DecodeRawUrl(s).Some?
    ensures forall c | c in s :: UrlValue(c).Some?
    decreases |s|
  {
    if |s| >= 4 {
      RawUrlDecodes(s[4..]);
      assert s == s[..4] + s[4..];
    }
  }

  /** What is encoded so holds nothing outside the URL alphabet. */
  lemma {:induction false} RawUrlShape(s: Bytes)
    ensures forall c | c in RawUrlEncode(s) :: c != '+' && c != '/' && c != '='
  {
    DecodeRawUrlEncode(s);
    NoneOutside(RawUrlEncode(s));
  }

  lemma {:induction false} NoneOutside(e: Bytes)
    requires DecodeRawUrl(e).Some?
    ensures forall c | c in e :: c != '+' && c != '/' && c != '='
  {
    RawUrlDecodes(e);
  }
}
