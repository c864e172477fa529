/**
 * The order an object lists its keys in: array indices first and by number, then every other
 * key by code units.
 */
module KeyOrder {
  import opened JsValues

  // ----- numbers ------------------------------------------------------------------------

  function Pow10(n: nat): nat {
    if n == 0 then 1 else 10 * Pow10(n - 1)
  }

  lemma DigitsTail(s: JsString)
    requires Digits(s) && s != []
    ensures Digits(s[1..]) && 48 <= s[0] <= 57
  {
    assert s[0] in s;
    forall u <- s[1..] ensures 48 <= u <= 57 { assert u in s; }
  }

  /** The number a run of digits writes. */
  function NumberOf(s: JsString): nat
    requires Digits(s)
  {
    if s == [] then 0
    else
      DigitsTail(s);
      (s[0] - 48) * Pow10(|s| - 1) + NumberOf(s[1..])
  }

  lemma {:induction false} NumberBelow(s: JsString)
    requires Digits(s)
    ensures NumberOf(s) < Pow10(|s|)
  {
    if s != [] {
      DigitsTail(s);
      NumberBelow(s[1..]);
      Scaled(s[0] - 48, 9, Pow10(|s| - 1));
    }
  }

  lemma {:induction false} Scaled(a: nat, b: nat, n: nat)
    ensures a <= b ==> a * n <= b * n
    ensures a < b ==> a * n + n <= b * n
    decreases b
  {
    if a < b {
      Scaled(a, b - 1, n);
      assert b * n == (b - 1) * n + n;
    }
  }

  /** Runs of one length compare as their numbers. */
  lemma {:induction false} SameLength(a: JsString, b: JsString)
    requires Digits(a) && Digits(b) && |a| == |b|
    ensures LexLess(a, b) <==> NumberOf(a) < NumberOf(b)
  {
    if a != [] {
      DigitsTail(a);
      DigitsTail(b);
      SameLength(a[1..], b[1..]);
      NumberBelow(a[1..]);
      NumberBelow(b[1..]);
      Scaled(a[0] - 48, b[0] - 48, Pow10(|a| - 1));
      Scaled(b[0] - 48, a[0] - 48, Pow10(|a| - 1));
    }
  }

  lemma {:induction false} PowerGrows(m: nat, n: nat)
    requires m <= n
    ensures Pow10(m) <= Pow10(n)
  {
    if m < n { PowerGrows(m, n - 1); }
  }

  /** A longer run without a leading zero is the larger number. */
  lemma {:induction false} Longer(a: JsString, b: JsString)
    requires Digits(a) && Digits(b) && |a| < |b| && b[0] != 48
    ensures NumberOf(a) < NumberOf(b)
  {
    DigitsTail(b);
    NumberBelow(a);
    PowerGrows(|a|, |b| - 1);
    Scaled(1, b[0] - 48, Pow10(|b| - 1));
  }

  // ----- indices --------------------------------------------------------------------------

  /** A number as JavaScript writes it. */
  predicate IsDecimal(s: JsString) {
    s != [] && Digits(s) && (s[0] == 48 ==> |s| == 1)
  }

  /** One more digit in front. */
  lemma {:induction false} OneDigit(s: JsString, i: nat, digit: nat, power: nat, rest: nat)
    requires Digits(s) && i < |s| && s[i] == 48 + digit && Pow10(|s| - i - 1) == power && Digits(s[i + 1..]) && NumberOf(s[i + 1..]) == rest
    ensures Digits(s[i..]) && NumberOf(s[i..]) == digit * power + rest
  {
    forall u <- s[i..] ensures 48 <= u <= 57 { assert u in s; }
    assert s[i..][1..] == s[i + 1..] && s[i..][0] == s[i];
  }

  lemma {:induction false} LimitTail(l: JsString)
    requires l == [52, 50, 57, 52, 57, 54, 55, 50, 57, 53]
    ensures Digits(l[5..]) && NumberOf(l[5..]) == 67295
  {
    assert Digits(l) && l[10..] == [];
    assert Pow10(0) == 1 && Pow10(1) == 10 && Pow10(2) == 100 && Pow10(3) == 1000 && Pow10(4) == 10000;
    OneDigit(l, 9, 5, 1, 0);
    OneDigit(l, 8, 9, 10, 5);
    OneDigit(l, 7, 2, 100, 95);
    OneDigit(l, 6, 7, 1000, 295);
    OneDigit(l, 5, 6, 10000, 7295);
  }

  lemma {:induction false} LimitMiddle(l: JsString)
    requires l == [52, 50, 57, 52, 57, 54, 55, 50, 57, 53]
    ensures Digits(l[3..]) && NumberOf(l[3..]) == 4967295
  {
    LimitTail(l);
    assert Digits(l);
    assert Pow10(5) == 100000 && Pow10(6) == 1000000 by { Powers(); }
    OneDigit(l, 4, 9, 100000, 67295);
    OneDigit(l, 3, 4, 1000000, 967295);
  }

  lemma {:induction false} LimitFront(l: JsString)
    requires l == [52, 50, 57, 52, 57, 54, 55, 50, 57, 53]
    ensures Digits(l[1..]) && NumberOf(l[1..]) == 294967295
  {
    LimitMiddle(l);
    assert Digits(l);
    assert Pow10(7) == 10000000 && Pow10(8) == 100000000 by { Powers(); }
    OneDigit(l, 2, 9, 10000000, 4967295);
    OneDigit(l, 1, 2, 100000000, 94967295);
  }

  lemma {:induction false} LimitNumber(l: JsString)
    requires l == [52, 50, 57, 52, 57, 54, 55, 50, 57, 53]
    ensures Digits(l) && NumberOf(l) == 4294967295
  {
    LimitFront(l);
    assert Digits(l) && l[0..] == l;
    assert Pow10(9) == 1000000000 by { Powers(); }
    OneDigit(l, 0, 4, 1000000000, 294967295);
  }

  lemma Powers()
    ensures Pow10(5) == 100000 && Pow10(6) == 1000000 && Pow10(7) == 10000000 && Pow10(8) == 100000000 && Pow10(9) == 1000000000
  {
    assert Pow10(4) == 10000;
  }

  lemma {:induction false} LimitIs()
    ensures Units("4294967295") == [52, 50, 57, 52, 57, 54, 55, 50, 57, 53]
  {
  }

  /** A key is an array index exactly when it writes a number below 2 to the 32 less one. */
  lemma {:induction false} IndexIs(s: JsString)
    ensures IsIndex(s) <==> IsDecimal(s) && NumberOf(s) < 4294967295
  {
    var limit := Units("4294967295");
    LimitIs();
    LimitNumber(limit);
    if IsDecimal(s) {
      if |s| < 10 {
        Longer(s, limit);
      } else if |s| == 10 {
        SameLength(s, limit);
      } else {
        Longer(limit, s);
      }
    }
  }

  // ----- the order ---------------------------------------------------------------------------

  /** The first place the two differ decides; a string that ends there comes first. */
  predicate DiffersAt(a: JsString, b: JsString, i: int) {
    0 <= i <= |a| && i < |b| && a[..i] == b[..i] && (i == |a| || a[i] < b[i])
  }

  lemma {:induction false} LexDiffers(a: JsString, b: JsString)
    ensures LexLess(a, b) <==> exists i :: DiffersAt(a, b, i)
  {
    if b != [] && a != [] {
      LexDiffers(a[1..], b[1..]);
      if a[0] == b[0] {
        if i :| DiffersAt(a[1..], b[1..], i) {
          assert a[..i + 1] == [a[0]] + a[1..][..i] && b[..i + 1] == [b[0]] + b[1..][..i];
          assert DiffersAt(a, b, i + 1);
        }
        if i :| DiffersAt(a, b, i) {
          assert i > 0 && a[1..][..i - 1] == a[..i][1..] && b[1..][..i - 1] == b[..i][1..];
          assert DiffersAt(a[1..], b[1..], i - 1);
        }
      } else {
        if a[0] < b[0] { assert DiffersAt(a, b, 0); }
        if i :| DiffersAt(a, b, i) { assert i > 0 ==> a[..i][0] == b[..i][0]; }
      }
    } else if b != [] {
      assert DiffersAt(a, b, 0);
    }
  }

  /** Indices come first and compare as numbers; other keys compare by code units. */
  lemma {:induction false} KeyOrderIs(a: JsString, b: JsString)
    ensures IsIndex(a) && !IsIndex(b) ==> KeyLess(a, b) && !KeyLess(b, a)
    ensures IsIndex(a) && IsIndex(b) ==> (KeyLess(a, b) <==> NumberOf(a) < NumberOf(b))
    ensures !IsIndex(a) && !IsIndex(b) ==> (KeyLess(a, b) <==> exists i :: DiffersAt(a, b, i))
  {
    LexDiffers(a, b);
    if IsIndex(a) && IsIndex(b) {
      if |a| == |b| { SameLength(a, b); }
      if |a| < |b| { Longer(a, b); }
      if |b| < |a| { Longer(b, a); }
    }
  }
}
