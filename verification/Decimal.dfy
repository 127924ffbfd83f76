/** Decimal text of natural numbers: fixed width for dates, shortest form inside idempotency keys. */
module Decimal {
  import opened Wrappers

  function DigitChar(d: nat): (c: char)
    requires d < 10
    ensures '0' <= c <= '9'
  {
    '0' + d as char
  }

  function DigitValue(c: char): Option<nat> {
    if '0' <= c <= '9' then Some((c - '0') as nat) else None
  }

  lemma DigitValueOfChar(d: nat)
    requires d < 10
    ensures DigitValue(DigitChar(d)) == Some(d)
  {
  }

  function Pow10(w: nat): nat {
    if w == 0 then 1 else 10 * Pow10(w - 1)
  }

  /** The last w decimal digits of n, zero-padded. */
  function Padded(n: nat, w: nat): (s: string)
    ensures |s| == w
  {
    if w == 0 then "" else Padded(n / 10, w - 1) + [DigitChar(n % 10)]
  }

  /** The value of a string of digits; a missing value stands for NaN. */
  function DigitsValue(s: string): Option<nat> {
    if s == "" then Some(0) else
      var front := DigitsValue(s[..|s| - 1]);
      var last := DigitValue(s[|s| - 1]);
      if front.Some? && last.Some? then Some(10 * front.value + last.value) else None
  }

  lemma {:induction false} ValueOfPadded(n: nat, w: nat)
    requires n < Pow10(w)
    ensures DigitsValue(Padded(n, w)) == Some(n)
  {
    if w > 0 {
      ValueOfPadded(n / 10, w - 1);
      DigitValueOfChar(n % 10);
      var s := Padded(n, w);
      assert s[..|s| - 1] == Padded(n / 10, w - 1);
    }
  }

  lemma {:induction false} PaddedIsDigits(n: nat, w: nat)
    ensures forall i :: 0 <= i < w ==> '0' <= Padded(n, w)[i] <= '9'
  {
    if w > 0 {
      PaddedIsDigits(n / 10, w - 1);
    }
  }

  /** The shortest decimal text, as String(n) prints it. */
  function Shortest(n: nat): (s: string)
    ensures s != ""
    ensures forall i :: 0 <= i < |s| ==> '0' <= s[i] <= '9'
  {
    if n < 10 then [DigitChar(n)] else Shortest(n / 10) + [DigitChar(n % 10)]
  }

  /** No leading zero, but for zero itself. */
  lemma {:induction false} ShortestIsCanonical(n: nat)
    ensures Shortest(n)[0] == '0' <==> n == 0
    ensures n == 0 ==> Shortest(n) == "0"
  {
    if n >= 10 {
      ShortestIsCanonical(n / 10);
      assert Shortest(n)[0] == Shortest(n / 10)[0];
    }
  }

  lemma {:induction false} ValueOfShortest(n: nat)
    ensures DigitsValue(Shortest(n)) == Some(n)
  {
    DigitValueOfChar(n % 10);
    var s := Shortest(n);
    if n < 10 {
      assert s[..|s| - 1] == "";
    } else {
      ValueOfShortest(n / 10);
      assert s[..|s| - 1] == Shortest(n / 10);
    }
  }
}
