/** Decimal text: strconv.Atoi on 64-bit platforms, and the "%d" form of a length. */
module Decimal {
  import opened Options

  const MIN_INT := -0x8000_0000_0000_0000
  const MAX_INT := 0x7fff_ffff_ffff_ffff

  predicate IsDigit(c: char) {
    '0' <= c <= '9'
  }

  predicate AllDigits(s: string) {
    forall i :: 0 <= i < |s| ==> IsDigit(s[i])
  }

  function Value(s: string): nat
    requires AllDigits(s)
  {
    if s == [] then 0 else 10 * Value(s[..|s| - 1]) + (s[|s| - 1] as int - '0' as int)
  }

  /** An optional sign, at least one digit, and a value that fits an int. */
  function Atoi(s: string): Option<int> {
    var signed := s != [] && (s[0] == '-' || s[0] == '+');
    var digits := if signed then s[1..] else s;
    if digits == [] || !AllDigits(digits) then None
    else
      var n := if signed && s[0] == '-' then -(Value(digits) as int) else Value(digits);
      if MIN_INT <= n <= MAX_INT then Some(n) else None
  }

  function Digit(d: nat): char
    requires d < 10
  {
    ('0' as int + d) as char
  }

  function Print(n: nat): (s: string)
    ensures s != [] && AllDigits(s)
  {
    if n < 10 then [Digit(n)] else Print(n / 10) + [Digit(n % 10)]
  }

  /** Printing a number and reading the digits gives the number back. */
  lemma {:induction false} ValuePrint(n: nat)
    ensures Value(Print(n)) == n
  {
    if n < 10 {
      assert [Digit(n)][..0] == [];
    } else {
      ValuePrint(n / 10);
      assert Print(n)[..|Print(n)| - 1] == Print(n / 10);
    }
  }

  /** Printed numbers are read back, up to the end of the range. */
  lemma {:induction false} AtoiPrint(n: nat)
    ensures Atoi(Print(n)) == if n <= MAX_INT then Some(n) else None
  {
    ValuePrint(n);
    assert IsDigit(Print(n)[0]);
  }

  /** With a minus sign, down to the other end. */
  lemma {:induction false} AtoiNegative(n: nat)
    ensures Atoi("-" + Print(n)) == if n <= MAX_INT + 1 then Some(0 - n) else None
  {
    ValuePrint(n);
    assert ("-" + Print(n))[1..] == Print(n);
  }
}
