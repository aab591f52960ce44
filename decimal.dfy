/** Decimal rendering of naturals, which is what JavaScript's
    `Number.prototype.toString()` produces for integers below 10^21, its inverse,
    and `String.prototype.padStart` with a one-character filler. Frame numbers
    and CSS pixel sizes are turned into text with these. */
module Decimal {

  predicate IsDigit(c: char) {
    '0' <= c <= '9'
  }

  predicate AllDigits(s: string) {
    forall i :: 0 <= i < |s| ==> IsDigit(s[i])
  }

  function Pow10(k: nat): (p: nat)
    ensures p >= 1
  {
    if k == 0 then 1 else 10 * Pow10(k - 1)
  }

  function DigitChar(d: nat): (c: char)
    requires d < 10
    ensures IsDigit(c)
    ensures (c == '0') == (d == 0)
  {
    (48 + d) as char
  }

  function DigitValue(c: char): (d: nat)
    requires IsDigit(c)
    ensures d < 10
    ensures DigitChar(d) == c
  {
    c as int - 48
  }

  /** The shortest decimal numeral of `n`: no sign, no leading zero except for 0 itself. */
  function ToDecimal(n: nat): string
    decreases n
  {
    if n < 10 then [DigitChar(n)] else ToDecimal(n / 10) + [DigitChar(n % 10)]
  }

  lemma {:induction false} ToDecimalDigits(n: nat)
    ensures |ToDecimal(n)| >= 1 && AllDigits(ToDecimal(n))
    ensures ToDecimal(n)[0] == '0' ==> n == 0
    decreases n
  {
    if n >= 10 {
      ToDecimalDigits(n / 10);
      var s := ToDecimal(n);
      assert s == ToDecimal(n / 10) + [DigitChar(n % 10)];
      assert s[0] == ToDecimal(n / 10)[0];
    }
  }

  /** The number a string of decimal digits denotes (leading zeros allowed). */
  function Value(s: string): nat
    requires AllDigits(s)
  {
    if s == [] then 0 else Value(s[..|s| - 1]) * 10 + DigitValue(s[|s| - 1])
  }

  lemma {:induction false} ValueOfToDecimal(n: nat)
    ensures AllDigits(ToDecimal(n)) && Value(ToDecimal(n)) == n
    decreases n
  {
    ToDecimalDigits(n);
    var s := ToDecimal(n);
    if n >= 10 {
      ValueOfToDecimal(n / 10);
      assert s[..|s| - 1] == ToDecimal(n / 10);
    }
  }

  lemma ToDecimalInjective(m: nat, n: nat)
    requires ToDecimal(m) == ToDecimal(n)
    ensures m == n
  {
    ValueOfToDecimal(m);
    ValueOfToDecimal(n);
  }

  /** A numeral fits in `k` characters exactly when the number is below 10^k. */
  lemma {:induction false} ToDecimalLength(n: nat, k: nat)
    requires k >= 1
    ensures |ToDecimal(n)| <= k <==> n < Pow10(k)
    decreases n
  {
    if n >= 10 {
      if k == 1 {
        assert Pow10(1) == 10;
      } else {
        ToDecimalLength(n / 10, k - 1);
      }
    } else {
      assert Pow10(1) == 10;
      Pow10Monotone(1, k);
    }
  }

  lemma {:induction false} Pow10Monotone(j: nat, k: nat)
    requires j <= k
    ensures Pow10(j) <= Pow10(k)
    decreases k
  {
    if j < k {
      Pow10Monotone(j, k - 1);
    }
  }

  lemma {:induction false} ValueAppend(a: string, b: string)
    requires AllDigits(a) && AllDigits(b)
    ensures AllDigits(a + b)
    ensures Value(a + b) == Value(a) * Pow10(|b|) + Value(b)
    decreases |b|
  {
    var ab := a + b;
    assert AllDigits(ab) by {
      forall i | 0 <= i < |ab| ensures IsDigit(ab[i]) {
        if i < |a| { assert ab[i] == a[i]; } else { assert ab[i] == b[i - |a|]; }
      }
    }
    if b != [] {
      var b' := b[..|b| - 1];
      var d := DigitValue(b[|b| - 1]);
      assert ab[..|ab| - 1] == a + b';
      assert ab[|ab| - 1] == b[|b| - 1];
      ValueAppend(a, b');
      var va, vb', p := Value(a), Value(b'), Pow10(|b'|);
      assert Value(ab) == (va * p + vb') * 10 + d;
      assert Value(b) == vb' * 10 + d;
      assert Pow10(|b|) == p * 10;
      ShiftDigit(va, p, vb', d);
    } else {
      assert ab == a;
    }
  }

  lemma ShiftDigit(v: nat, p: nat, w: nat, d: nat)
    ensures (v * p + w) * 10 + d == v * (p * 10) + (w * 10 + d)
  {
  }

  lemma {:induction false} ValueOfZeros(z: string)
    requires forall i :: 0 <= i < |z| ==> z[i] == '0'
    ensures AllDigits(z) && Value(z) == 0
    decreases |z|
  {
    if z != [] {
      ValueOfZeros(z[..|z| - 1]);
    }
  }

  /** `s.padStart(width, fill)`: prefix `s` with copies of `fill` up to `width`
      characters; a string already that long is returned unchanged. */
  function PadStart(s: string, width: nat, fill: char): string {
    if |s| >= width then s else seq(width - |s|, _ => fill) + s
  }

  /** The result is `width` long (or `s` itself when longer), ends with `s`, and
      everything before `s` is `fill`. */
  lemma PadStartShape(s: string, width: nat, fill: char)
    ensures var r := PadStart(s, width, fill);
      |r| == (if |s| >= width then |s| else width) &&
      r[|r| - |s|..] == s &&
      forall i :: 0 <= i < |r| - |s| ==> r[i] == fill
  {
  }

  /** Padding with zeros does not change the number a numeral denotes. */
  lemma ValueOfZeroPadded(s: string, width: nat)
    requires AllDigits(s)
    ensures AllDigits(PadStart(s, width, '0'))
    ensures Value(PadStart(s, width, '0')) == Value(s)
  {
    var r := PadStart(s, width, '0');
    PadStartShape(s, width, '0');
    var z := r[..|r| - |s|];
    assert r == z + s;
    ValueOfZeros(z);
    ValueAppend(z, s);
  }
}
