/** Decimal digits and the numbers they denote. */
module Decimal {
  import opened Text

  /** 10^k as the exact value of `pow(10, k)`. */
  function Pow10(k: nat): (p: real)
    ensures p > 0.0
  {
    if k == 0 then 1.0 else 10.0 * Pow10(k - 1)
  }

  /** `number` times or, for a negative exponent, divided by 10^k. */
  function Scaled(number: real, k: nat, down: bool): real {
    if down then number / Pow10(k) else number * Pow10(k)
  }

  /** 10^k, counted out. */
  function TenTo(k: nat): nat {
    if k == 0 then 1 else 10 * TenTo(k - 1)
  }

  lemma {:induction false} Pow10Is(k: nat)
    ensures Pow10(k) == TenTo(k) as real && TenTo(k) > 0
  {
    if k > 0 { Pow10Is(k - 1); }
  }

  function Signed(number: real, negative: bool): real {
    if negative then -number else number
  }

  function Digit(c: char): (d: nat)
    requires IsDigit(c)
    ensures d < 10
  {
    c as int - '0' as int
  }

  /** The ten digits, in order. */
  lemma DigitIs(d: nat)
    requires d < 10
    ensures IsDigit("0123456789"[d]) && Digit("0123456789"[d]) == d
  {}

  predicate AllDigits(s: string) { forall i | 0 <= i < |s| :: IsDigit(s[i]) }

  /** The number a string of decimal digits denotes. */
  function DigitsValue(s: string): nat
    requires AllDigits(s)
  {
    if s == "" then 0 else 10 * DigitsValue(s[..|s| - 1]) + Digit(s[|s| - 1])
  }

  /** Digits in front of others weigh as much as those are many. */
  lemma {:induction false} DigitsConcat(a: string, b: string)
    requires AllDigits(a) && AllDigits(b)
    ensures AllDigits(a + b) && DigitsValue(a + b) == DigitsValue(a) * TenTo(|b|) + DigitsValue(b)
  {
    if b == "" {
      assert a + b == a;
    } else {
      var front := b[..|b| - 1];
      assert (a + b)[..|a + b| - 1] == a + front;
      DigitsConcat(a, front);
      TenTimes(DigitsValue(a), TenTo(|front|));
    }
  }

  lemma TenTimes(d: nat, p: nat)
    ensures 10 * (d * p) == d * (10 * p)
  {}

  /** The number that decimal digits right behind a decimal point denote. */
  function FractionValue(s: string): real
    requires AllDigits(s)
  {
    DigitsValue(s) as real / Pow10(|s|)
  }

  /** The decimal numeral an output stream writes for `n`. */
  function NatText(n: nat): (s: string)
    ensures s != "" && AllDigits(s)
    ensures s[0] == '0' ==> n == 0 && s == "0"
    ensures DigitsValue(s) == n
  {
    var last := [('0' as int + n % 10) as char];
    if n < 10 then last else NatText(n / 10) + last
  }

  function IntText(n: int): string {
    if n < 0 then "-" + NatText(-n) else NatText(n)
  }

  /** Digit `d` with `k` digits behind it. */
  function Place(d: nat, k: nat): nat {
    if k == 0 then d else 10 * Place(d, k - 1)
  }

  /** A digit times its power of ten, as the loop adds it. */
  function Weighted(d: nat, k: nat): real { d as real * Pow10(k) }

  lemma {:induction false} PlaceWeight(d: nat, k: nat)
    ensures Place(d, k) as real == Weighted(d, k)
  {
    if k > 0 {
      PlaceWeight(d, k - 1);
      assert Place(d, k) as real == 10.0 * (d as real * Pow10(k - 1)) == d as real * (10.0 * Pow10(k - 1));
    }
  }

  lemma NoDigits()
    ensures DigitsValue("") == 0
  {}

  /** The digits from `i` on: the first of them by its weight, and the rest. */
  lemma PlacesFrom(s: string, i: nat)
    requires i < |s| && AllDigits(s)
    ensures DigitsValue(s[i..]) as real == Weighted(Digit(s[i]), |s| - i - 1) + DigitsValue(s[i + 1..]) as real
  {
    FirstDigit(s[i..]);
    hide DigitsValue, Place, Weighted;
    PlaceWeight(Digit(s[i]), |s| - i - 1);
    assert s[i..][1..] == s[i + 1..];
  }

  /** Place value seen from the front: the first digit weighs 10^(length - 1). */
  lemma {:induction false} FirstDigit(s: string)
    requires s != "" && AllDigits(s)
    ensures DigitsValue(s) == Place(Digit(s[0]), |s| - 1) + DigitsValue(s[1..])
  {
    if |s| > 1 {
      var front := s[..|s| - 1];
      FirstDigit(front);
      assert front[1..] == s[1..][..|s[1..]| - 1];
    } else {
      assert s[..0] == "" && s[1..] == "";
    }
  }

  /** One more digit behind the decimal point weighs 1 / 10^(position + 1). */
  lemma NextPlace(s: string, i: nat)
    requires i < |s| && AllDigits(s[..i + 1])
    ensures FractionValue(s[..i + 1]) == FractionValue(s[..i]) + Digit(s[i]) as real / Pow10(i + 1)
  {
    var p := Pow10(i);
    var v := DigitsValue(s[..i]) as real;
    var d := Digit(s[i]) as real;
    assert s[..i + 1][..i] == s[..i];
    assert DigitsValue(s[..i + 1]) as real == 10.0 * v + d;
    assert (10.0 * v + d) / (10.0 * p) == v / p + d / (10.0 * p);
  }
}
