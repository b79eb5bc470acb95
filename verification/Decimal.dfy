/** Decimal notation, as strconv.Itoa and fmt's %d write it. */
module Decimal {

  predicate IsDigit(c: char) {
    '0' <= c <= '9'
  }

  predicate AllDigits(s: string) {
    forall i :: 0 <= i < |s| ==> IsDigit(s[i])
  }

  function DigitChar(d: nat): char
    requires d < 10
  {
    (48 + d) as char
  }

  function Itoa(n: nat): (s: string)
    ensures |s| > 0 && AllDigits(s)
  {
    if n < 10 then [DigitChar(n)] else Itoa(n / 10) + [DigitChar(n % 10)]
  }

  function Atoi(s: string): nat
    requires AllDigits(s)
  {
    if s == "" then 0 else 10 * Atoi(s[..|s| - 1]) + (s[|s| - 1] as nat - 48)
  }

  lemma {:induction false} AtoiOfItoa(n: nat)
    ensures Atoi(Itoa(n)) == n
  {
    if n < 10 {
      assert Itoa(n)[..0] == "";
    } else {
      var s := Itoa(n);
      assert s[..|s| - 1] == Itoa(n / 10);
      AtoiOfItoa(n / 10);
    }
  }

  /** A signed decimal, as %d writes an int64. */
  function FormatInt(n: int): string {
    if n < 0 then "-" + Itoa(-n) else Itoa(n)
  }

  lemma FormatIntInjective(a: int, b: int)
    requires FormatInt(a) == FormatInt(b)
    ensures a == b
  {
    assert (a < 0) == (FormatInt(a)[0] == '-');
    assert (b < 0) == (FormatInt(b)[0] == '-');
    if a < 0 {
      assert Itoa(-a) == FormatInt(a)[1..] == Itoa(-b);
      AtoiOfItoa(-a);
      AtoiOfItoa(-b);
    } else {
      AtoiOfItoa(a);
      AtoiOfItoa(b);
    }
  }
}
