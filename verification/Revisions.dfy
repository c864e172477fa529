/**
 * Canonical revisions: unsigned decimal integers without leading zeros, compared as text.
 */
module Revisions {
  predicate IsDigit(c: char) {
    '0' <= c <= '9'
  }

  predicate Digits(s: string) {
    forall i :: 0 <= i < |s| ==> IsDigit(s[i])
  }

  /** A canonical decimal of any length; the wire format also caps it at 39 digits. */
  predicate IsRevision(s: string) {
    |s| > 0 && Digits(s) && (s[0] == '0' ==> |s| == 1)
  }

  type Revision = s: string | IsRevision(s) witness "0"

  /** JavaScript's `<` on strings: code unit by code unit, a proper prefix first. */
  predicate TextLess(a: string, b: string) {
    if b == "" then false
    else if a == "" then true
    else if a[0] != b[0] then a[0] < b[0]
    else TextLess(a[1..], b[1..])
  }

  /** Numeric comparison without converting to a number: -1, 0 or 1. */
  function CompareRevisions(a: string, b: string): int {
    if |a| != |b| then (if |a| < |b| then -1 else 1)
    else if a == b then 0
    else if TextLess(a, b) then -1
    else 1
  }

  function Pow10(n: nat): (p: nat)
    ensures p >= 1
  {
    if n == 0 then 1 else 10 * Pow10(n - 1)
  }

  /** The integer a string of digits writes. */
  function Value(s: string): nat
    requires Digits(s)
  {
    if s == "" then 0 else (s[0] - '0') as nat * Pow10(|s| - 1) + Value(s[1..])
  }

  lemma {:induction false} MulStep(d: nat, e: nat, p: nat)
    requires d < e
    ensures d * p + p <= e * p
  {
    if d + 1 < e {
      MulStep(d, e - 1, p);
    }
  }

  lemma {:induction false} ValueBound(s: string)
    requires Digits(s)
    ensures Value(s) < Pow10(|s|)
  {
    if s != "" {
      ValueBound(s[1..]);
      MulStep((s[0] - '0') as nat, 10, Pow10(|s| - 1));
    }
  }

  lemma {:induction false} Pow10Monotone(m: nat, n: nat)
    requires m <= n
    ensures Pow10(m) <= Pow10(n)
  {
    if m < n {
      Pow10Monotone(m, n - 1);
    }
  }

  /** A smaller first digit outweighs everything after it. */
  lemma HeadDecides(a: string, b: string)
    requires Digits(a) && Digits(b) && |a| == |b| > 0
    requires a[0] < b[0]
    ensures Value(a) < Value(b)
  {
    ValueBound(a[1..]);
    MulStep((a[0] - '0') as nat, (b[0] - '0') as nat, Pow10(|a| - 1));
  }

  /** On strings of digits of one length, text order is numeric order. */
  lemma {:induction false} TextOrder(a: string, b: string)
    requires Digits(a) && Digits(b) && |a| == |b|
    ensures TextLess(a, b) <==> Value(a) < Value(b)
    ensures a == b <==> Value(a) == Value(b)
  {
    if a != "" {
      if a[0] < b[0] {
        HeadDecides(a, b);
      } else if b[0] < a[0] {
        HeadDecides(b, a);
      } else {
        TextOrder(a[1..], b[1..]);
        assert a == [a[0]] + a[1..] && b == [b[0]] + b[1..];
      }
    }
  }

  /** A longer canonical decimal is a larger number. */
  lemma LongerIsLarger(a: Revision, b: Revision)
    requires |a| < |b|
    ensures Value(a) < Value(b)
  {
    ValueBound(a);
    Pow10Monotone(|a|, |b| - 1);
    MulStep(0, (b[0] - '0') as nat, Pow10(|b| - 1));
  }

  /** compareRevisions is numeric order, for canonical decimals of any length, and equal only for equal text. */
  lemma CompareIsNumeric(a: Revision, b: Revision)
    ensures CompareRevisions(a, b) < 0 <==> Value(a) < Value(b)
    ensures CompareRevisions(a, b) > 0 <==> Value(a) > Value(b)
    ensures CompareRevisions(a, b) == 0 <==> a == b
    ensures a == b <==> Value(a) == Value(b)
  {
    if |a| < |b| {
      LongerIsLarger(a, b);
    } else if |b| < |a| {
      LongerIsLarger(b, a);
    } else {
      TextOrder(a, b);
    }
  }
}
