/** strconv.Itoa on the numbers the panel prints. */
module Decimal {
  import opened Text

  function Digit(n: nat): Byte
    requires n < 10
  {
    '0' + n as char
  }

  function Itoa(n: nat): (s: Bytes)
    ensures s != []
    decreases n
  {
    if n < 10 then [Digit(n)] else Itoa(n / 10) + [Digit(n % 10)]
  }

  function DigitValue(c: Byte): nat {
    if '0' <= c <= '9' then (c - '0') as nat else 0
  }

  function Value(s: Bytes): nat
    decreases |s|
  {
    if s == [] then 0 else 10 * Value(s[..|s| - 1]) + DigitValue(s[|s| - 1])
  }

  lemma {:induction false} ItoaReadsBack(n: nat)
    ensures Value(Itoa(n)) == n
    ensures forall c | c in Itoa(n) :: '0' <= c <= '9'
    decreases n
  {
    if n < 10 {
      assert [Digit(n)][..0] == [];
    } else {
      ItoaReadsBack(n / 10);
      var s := Itoa(n);
      assert s[..|s| - 1] == Itoa(n / 10);
    }
  }
}
