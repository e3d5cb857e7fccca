/** Fixed-width decimal numbers, as printed and as read. */
module Digits {

  predicate IsDigit(c: char) { '0' <= c <= '9' }

  predicate AllDigits(s: string) { forall i | 0 <= i < |s| :: IsDigit(s[i]) }

  function DigitChar(d: nat): (c: char)
    requires d < 10
    ensures IsDigit(c) && c as int - '0' as int == d
  {
    (d + '0' as int) as char
  }

  function Pow10(w: nat): nat { if w == 0 then 1 else 10 * Pow10(w - 1) }

  /** n in w digits, zero-padded. */
  function Fixed(n: nat, w: nat): (s: string)
    ensures |s| == w && AllDigits(s)
  {
    if w == 0 then "" else Fixed(n / 10, w - 1) + [DigitChar(n % 10)]
  }

  function Number(s: string): nat
    requires AllDigits(s)
  {
    if s == "" then 0 else 10 * Number(s[..|s| - 1]) + (s[|s| - 1] as int - '0' as int)
  }

  lemma {:induction false} ReadsBack(n: nat, w: nat)
    requires n < Pow10(w)
    ensures Number(Fixed(n, w)) == n
  {
    if w > 0 {
      ReadsBack(n / 10, w - 1);
      assert Fixed(n, w)[..w - 1] == Fixed(n / 10, w - 1);
    }
  }

  lemma {:induction false} PrintsBack(s: string)
    requires AllDigits(s)
    ensures Number(s) < Pow10(|s|) && Fixed(Number(s), |s|) == s
  {
    if s != "" {
      PrintsBack(s[..|s| - 1]);
    }
  }

  /** The first digit counts most. */
  lemma {:induction false} FirstDigitCountsMost(s: string)
    requires s != "" && AllDigits(s)
    ensures Number(s) == (s[0] as int - 48) * Pow10(|s| - 1) + Number(s[1..])
  {
    if |s| > 1 {
      var front := s[..|s| - 1];
      FirstDigitCountsMost(front);
      assert front[1..] == s[1..][..|s| - 2];
      assert Pow10(|s| - 1) == 10 * Pow10(|s| - 2);
      Shifted(s[0] as int - 48, Pow10(|s| - 2));
    }
  }

  lemma Shifted(d: int, p: int)
    ensures 10 * (d * p) == d * (10 * p)
  {}
}
