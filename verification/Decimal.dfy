/** Decimal text of integers, without leading zeros, and the (length, text) order on it. */
module Decimal {

  function Digit(d: nat): (c: char)
    requires d < 10
    ensures '0' <= c <= '9'
  {
    "0123456789"[d]
  }

  predicate Digits(s: string) {
    forall i :: 0 <= i < |s| ==> '0' <= s[i] <= '9'
  }

  function OfNat(n: nat): (s: string)
    ensures Digits(s) && |s| >= 1
  {
    if n < 10 then [Digit(n)] else OfNat(n / 10) + [Digit(n % 10)]
  }

  function OfInt(n: int): (s: string)
    ensures s != "" && (s[0] == '-' <==> n < 0)
  {
    if n < 0 then "-" + OfNat(-n) else OfNat(n)
  }

  function DigitValue(c: char): (d: nat)
    requires '0' <= c <= '9'
    ensures d < 10
  {
    c as int - '0' as int
  }

  /** The number a digit string denotes. */
  function ToNat(s: string): nat
    requires Digits(s)
  {
    if s == "" then 0 else 10 * ToNat(s[..|s| - 1]) + DigitValue(s[|s| - 1])
  }

  lemma DigitRoundTrip(d: nat)
    requires d < 10
    ensures DigitValue(Digit(d)) == d
  {
    assert d == 0 || d == 1 || d == 2 || d == 3 || d == 4 || d == 5 || d == 6 || d == 7 || d == 8 || d == 9;
  }

  lemma {:induction false} RoundTrip(n: nat)
    ensures ToNat(OfNat(n)) == n
    ensures n == 0 || OfNat(n)[0] != '0'
  {
    var s := OfNat(n);
    if n < 10 {
      DigitRoundTrip(n);
      assert s[..0] == "";
    } else {
      RoundTrip(n / 10);
      DigitRoundTrip(n % 10);
      assert s[..|s| - 1] == OfNat(n / 10);
    }
  }

  lemma OfIntInjective(m: int, n: int)
    ensures OfInt(m) == OfInt(n) ==> m == n
  {
    hide OfNat, ToNat, Digits;
    if OfInt(m) == OfInt(n) {
      if m >= 0 {
        RoundTrip(m);
        RoundTrip(n);
      } else {
        DropFirst('-', OfNat(-m));
        DropFirst('-', OfNat(-n));
        RoundTrip(-m);
        RoundTrip(-n);
      }
    }
  }

  lemma DropFirst(c: char, s: string)
    ensures ([c] + s)[1..] == s
  {
  }

  // ----- the (length, text) order ------------------------------------------------------

  /** Text order on strings, character by character, a proper prefix first. */
  predicate TextLess(a: string, b: string) {
    if b == "" then false
    else if a == "" then true
    else a[0] < b[0] || (a[0] == b[0] && TextLess(a[1..], b[1..]))
  }

  predicate ShortlexLess(a: string, b: string) {
    |a| < |b| || (|a| == |b| && TextLess(a, b))
  }

  lemma {:induction false} TextLessSnoc(a: string, c: char, b: string, d: char)
    requires |a| == |b|
    ensures TextLess(a + [c], b + [d]) <==> TextLess(a, b) || (a == b && c < d)
  {
    if a != "" {
      TextLessSnoc(a[1..], c, b[1..], d);
      assert (a + [c])[1..] == a[1..] + [c] && (b + [d])[1..] == b[1..] + [d];
      assert a == [a[0]] + a[1..] && b == [b[0]] + b[1..];
    } else {
      assert (a + [c])[1..] == "" && (b + [d])[1..] == "";
    }
  }

  lemma DigitOrder(d: nat, e: nat)
    requires d < 10 && e < 10
    ensures Digit(d) < Digit(e) <==> d < e
  {
    DigitRoundTrip(d);
    DigitRoundTrip(e);
  }

  lemma {:induction false} LengthMonotone(m: nat, n: nat)
    requires m <= n
    ensures |OfNat(m)| <= |OfNat(n)|
  {
    if n >= 10 && m >= 10 {
      LengthMonotone(m / 10, n / 10);
    }
  }

  /** Ordering decimal identities by (length, text) is ordering them by value. */
  lemma {:induction false} ShortlexIsNumeric(m: nat, n: nat)
    ensures ShortlexLess(OfNat(m), OfNat(n)) <==> m < n
  {
    if m <= n {
      LengthMonotone(m, n);
    } else {
      LengthMonotone(n, m);
    }
    if |OfNat(m)| == |OfNat(n)| {
      if m < 10 {
        assert |OfNat(n)| == 1;
        assert n < 10;
        DigitOrder(m, n);
        TextLessSnoc("", Digit(m), "", Digit(n));
        assert "" + [Digit(m)] == OfNat(m) && "" + [Digit(n)] == OfNat(n);
      } else {
        assert n >= 10;
        ShortlexIsNumeric(m / 10, n / 10);
        DigitOrder(m % 10, n % 10);
        TextLessSnoc(OfNat(m / 10), Digit(m % 10), OfNat(n / 10), Digit(n % 10));
        RoundTrip(m / 10);
        RoundTrip(n / 10);
      }
    }
  }
}
