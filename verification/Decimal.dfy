/** Decimal numbers as Go prints them with %d and reads them with ParseInt(_, 10, 64). */
module Decimal {
  import opened Wrappers
  import opened Keys

  predicate IsDigit(c: char) {
    '0' <= c <= '9'
  }

  predicate AllDigits(s: string) {
    forall c :: c in s ==> IsDigit(c)
  }

  function Digit(d: nat): (c: char)
    requires d < 10
    ensures IsDigit(c)
  {
    (d as char) + '0'
  }

  function DigitValue(c: char): (d: nat)
    requires IsDigit(c)
    ensures d < 10
  {
    (c - '0') as int
  }

  function Print(n: nat): string {
    if n < 10 then [Digit(n)] else Print(n / 10) + [Digit(n % 10)]
  }

  function Value(s: string): nat
    requires AllDigits(s)
  {
    if s == [] then 0 else Value(s[..|s| - 1]) * 10 + DigitValue(s[|s| - 1])
  }

  /** An optional sign, at least one digit and nothing else; out of range is an error. */
  function ParseInt(s: string): Option<Version> {
    var signed := s != "" && (s[0] == '-' || s[0] == '+');
    var digits := if signed then s[1..] else s;
    if digits == "" || !AllDigits(digits) then None
    else
      var n: int := Value(digits);
      var v := if signed && s[0] == '-' then -n else n;
      if -SIGN_BIT <= v < SIGN_BIT then Some(v) else None
  }

  lemma {:induction false} PrintValue(n: nat)
    ensures Print(n) != "" && AllDigits(Print(n)) && Value(Print(n)) == n
  {
    var last := Print(n)[|Print(n)| - 1];
    assert DigitValue(Digit(n % 10)) == n % 10;
    if n < 10 {
      assert Print(n)[..0] == "";
      assert DigitValue(last) == n;
    } else {
      PrintValue(n / 10);
      assert Print(n)[..|Print(n)| - 1] == Print(n / 10);
    }
  }

  /** What was printed is read back exactly if it fits a signed word. */
  lemma PrintParses(n: nat)
    ensures ParseInt(Print(n)) == if n < SIGN_BIT then Some(n) else None
  {
    PrintValue(n);
    assert Print(n)[0] in Print(n);
  }
}
