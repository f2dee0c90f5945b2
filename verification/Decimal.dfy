/** Decimal integers as strconv prints and reads them. */
module Decimal {
  import opened Common

  const INT64_MAX: int := 0x7fff_ffff_ffff_ffff

  function DigitChar(d: nat): char
    requires d < 10
  {
    (('0' as int) + d) as char
  }

  predicate IsDigit(c: char) {
    '0' <= c <= '9'
  }

  predicate AllDigits(s: string) {
    forall i :: 0 <= i < |s| ==> IsDigit(s[i])
  }

  function Digits(n: nat): string {
    if n < 10 then [DigitChar(n)] else Digits(n / 10) + [DigitChar(n % 10)]
  }

  function DigitsValue(s: string): nat
    requires AllDigits(s)
  {
    if s == "" then 0 else 10 * DigitsValue(s[..|s| - 1]) + (s[|s| - 1] as int - '0' as int)
  }

  /** strconv.Itoa. */
  function Itoa(n: int): string {
    if n < 0 then "-" + Digits(-n) else Digits(n)
  }

  /** The value of an optionally signed digit string. */
  function SignedValue(s: string): Option<int> {
    var neg := |s| > 0 && s[0] == '-';
    var body := if |s| > 0 && (s[0] == '-' || s[0] == '+') then s[1..] else s;
    if body == "" || !AllDigits(body) then None
    else
      var v: int := DigitsValue(body);
      Some(if neg then -v else v)
  }

  /** strconv.Atoi and ParseInt(_, 10, 64): None is a syntax or range error. */
  function Atoi(s: string): Option<int> {
    var n := SignedValue(s);
    if n.Some? && -INT64_MAX - 1 <= n.value <= INT64_MAX then n else None
  }

  lemma {:induction false} DigitsFacts(n: nat)
    ensures Digits(n) != "" && AllDigits(Digits(n)) && DigitsValue(Digits(n)) == n
  {
    if n >= 10 {
      DigitsFacts(n / 10);
      var s := Digits(n);
      assert s[..|s| - 1] == Digits(n / 10);
    }
  }

  lemma AtoiOfItoa(n: int)
    requires -INT64_MAX - 1 <= n <= INT64_MAX
    ensures Atoi(Itoa(n)) == Some(n) && Itoa(n) != ""
  {
    DigitsFacts(if n < 0 then -n else n);
    if n < 0 {
      assert Itoa(n)[1..] == Digits(-n);
    } else {
      assert IsDigit(Itoa(n)[0]);
    }
  }

  lemma ItoaNonEmpty(n: int)
    ensures Itoa(n) != ""
  {
    DigitsFacts(if n < 0 then -n else n);
  }

  /** The value of a digit string, digit by digit. */
  lemma {:induction false} DigitsValueIs(s: string, c: char)
    requires AllDigits(s) && IsDigit(c)
    ensures DigitsValue("") == 0 && AllDigits(s + [c]) && DigitsValue(s + [c]) == 10 * DigitsValue(s) + (c as int - '0' as int)
  {
    assert (s + [c])[..|s|] == s;
  }

  /** Accepted are digits with at most one sign before them, leading zeros included, as far as 64 bits reach. */
  lemma {:induction false} AtoiSpelled(sign: string, digits: string)
    requires (sign == "" || sign == "+" || sign == "-") && digits != "" && AllDigits(digits)
    ensures var v: int := DigitsValue(digits); var n := if sign == "-" then -v else v;
      Atoi(sign + digits) == if -0x8000_0000_0000_0000 <= n <= 0x7fff_ffff_ffff_ffff then Some(n) else None
  {
    var s := sign + digits;
    if sign == "" {
      assert s == digits && IsDigit(s[0]);
    } else {
      assert s[1..] == digits;
    }
  }

  lemma AtoiOnlySpelled(s: string)
    requires Atoi(s).Some?
    ensures (s != "" && AllDigits(s)) || (|s| > 1 && (s[0] == '+' || s[0] == '-') && AllDigits(s[1..]))
  {
  }
}
