/** Python's `str(n)` on an `int`, and the parse that inverts it.
    Jobs are keyed by `str(chat_id)`, so the property that matters is that
    the rendering is injective: two chats never share a job name. */
module Decimal {

  /** The character of one decimal digit. */
  function DigitChar(d: nat): (c: char)
    requires d < 10
    ensures '0' <= c <= '9'
    ensures DigitValue(c) == d
  {
    (('0' as int) + d) as char
  }

  function DigitValue(c: char): int {
    (c as int) - ('0' as int)
  }

  predicate IsDigits(s: string) {
    forall i :: 0 <= i < |s| ==> '0' <= s[i] <= '9'
  }

  /** A decimal numeral as `str` prints one: an optional minus sign,
      then at least one digit. */
  predicate IsNumeral(s: string) {
    if |s| > 0 && s[0] == '-' then |s| > 1 && IsDigits(s[1..]) else |s| > 0 && IsDigits(s)
  }

  /** The digits of `n`, most significant first, with no leading zero. */
  function NatDigits(n: nat): (s: string)
    ensures |s| > 0 && IsDigits(s)
    ensures s[0] == '0' <==> n == 0
  {
    if n < 10 then [DigitChar(n)] else NatDigits(n / 10) + [DigitChar(n % 10)]
  }

  /** The value of a string of digits. */
  function ParseDigits(s: string): nat
    requires IsDigits(s)
  {
    if s == [] then 0 else ParseDigits(s[..|s| - 1]) * 10 + DigitValue(s[|s| - 1])
  }

  /** The value of a numeral. */
  function Parse(s: string): int
    requires IsNumeral(s)
  {
    if s[0] == '-' then -(ParseDigits(s[1..]) as int) else ParseDigits(s)
  }

  lemma {:induction false} ParseNatDigits(n: nat)
    ensures ParseDigits(NatDigits(n)) == n
  {
    if n >= 10 {
      var s := NatDigits(n);
      assert s[..|s| - 1] == NatDigits(n / 10);
      ParseNatDigits(n / 10);
    }
  }

  /** `str(i)`: a numeral whose value is `i`, signed exactly when `i` is negative. */
  function Show(i: int): (s: string)
    ensures IsNumeral(s) && Parse(s) == i
    ensures s[0] == '-' <==> i < 0
  {
    if i < 0 then
      var digits := NatDigits(-i);
      ParseNatDigits(-i);
      assert ("-" + digits)[1..] == digits;
      "-" + digits
    else
      ParseNatDigits(i);
      NatDigits(i)
  }

  /** Distinct integers have distinct renderings. */
  lemma ShowInjective(i: int, j: int)
    ensures Show(i) == Show(j) <==> i == j
  {
  }
}
