/** Decimal digit strings: ASCII digit tests, the value a digit string denotes,
    and zero-padded decimal rendering (the inverse of reading a value back). */
module Digits {

  predicate IsDigit(c: char) {
    '0' <= c <= '9'
  }

  predicate AllDigits(s: string) {
    forall i :: 0 <= i < |s| ==> IsDigit(s[i])
  }

  function DigitValue(c: char): (d: nat)
    requires IsDigit(c)
    ensures d < 10
  {
    c as int - '0' as int
  }

  function DigitChar(d: nat): (c: char)
    requires d < 10
    ensures IsDigit(c) && DigitValue(c) == d
  {
    ('0' as int + d) as char
  }

  function Pow10(n: nat): (p: nat)
    ensures p >= 1
  {
    if n == 0 then 1 else 10 * Pow10(n - 1)
  }

  /** The number a string of decimal digits denotes (leading zeros allowed). */
  function Value(s: string): nat
    requires AllDigits(s)
  {
    if s == [] then 0 else DigitValue(s[0]) * Pow10(|s| - 1) + Value(s[1..])
  }

  /** Appending a digit shifts the value one decimal place. */
  lemma {:induction false} ValueAppend(s: string, c: char)
    requires AllDigits(s) && IsDigit(c)
    ensures AllDigits(s + [c])
    ensures Value(s + [c]) == Value(s) * 10 + DigitValue(c)
  {
    if s != [] {
      assert (s + [c])[1..] == s[1..] + [c];
      ValueAppend(s[1..], c);
      var q := Pow10(|s| - 1);
      assert Pow10(|s|) == 10 * q;
      ShiftDecimal(DigitValue(s[0]), q, Value(s[1..]));
    }
  }

  lemma ShiftDecimal(d: int, q: int, v: int)
    ensures d * (10 * q) + v * 10 == (d * q + v) * 10
  {
  }

  /** A string of k digits denotes a number below 10^k. */
  lemma {:induction false} ValueBelowPow10(s: string)
    requires AllDigits(s)
    ensures Value(s) < Pow10(|s|)
  {
    if s != [] {
      ValueBelowPow10(s[1..]);
      var q := Pow10(|s| - 1);
      assert Pow10(|s|) == 10 * q;
      LeadingDigitBound(DigitValue(s[0]), q);
    }
  }

  lemma LeadingDigitBound(d: nat, q: nat)
    requires d <= 9
    ensures d * q <= 9 * q
  {
  }

  /** Decimal rendering of n with at least w digits, zero-padded on the left. */
  function Render(n: nat, w: nat): (s: string)
    ensures AllDigits(s) && |s| >= 1 && |s| >= w
    decreases n, w
  {
    if n < 10 && w <= 1 then [DigitChar(n)]
    else Render(n / 10, if w > 0 then w - 1 else 0) + [DigitChar(n % 10)]
  }

  /** Reading a rendered number back gives the number. */
  lemma {:induction false} ValueOfRender(n: nat, w: nat)
    ensures Value(Render(n, w)) == n
    decreases n, w
  {
    var s := Render(n, w);
    if n < 10 && w <= 1 {
    } else {
      var w' := if w > 0 then w - 1 else 0;
      ValueOfRender(n / 10, w');
      ValueAppend(Render(n / 10, w'), DigitChar(n % 10));
    }
  }

  /** A number below 10^k, padded to at most k digits, renders in at most k digits. */
  lemma {:induction false} RenderWidth(n: nat, w: nat, k: nat)
    requires 1 <= k && w <= k && n < Pow10(k)
    ensures |Render(n, w)| <= k
    decreases n, w
  {
    if n < 10 && w <= 1 {
    } else {
      RenderWidth(n / 10, if w > 0 then w - 1 else 0, k - 1);
    }
  }
}
