/**
 Resource versions are decimal counters, but the controller compares them as strings. When the
 two orders agree.
 */
module Versions {
  import opened Strings

  ghost predicate Digits(s: string) {
    forall i :: 0 <= i < |s| ==> '0' <= s[i] <= '9'
  }

  /** A number in decimal, without leading zeros. */
  ghost predicate Decimal(s: string) {
    Digits(s) && s != "" && (|s| > 1 ==> s[0] != '0')
  }

  ghost function Pow10(n: nat): nat {
    if n == 0 then 1 else 10 * Pow10(n - 1)
  }

  ghost function Digit(c: char): nat
    requires '0' <= c <= '9'
  {
    c as nat - '0' as nat
  }

  ghost function Val(s: string): nat
    requires Digits(s)
  {
    if s == "" then 0 else Digit(s[0]) * Pow10(|s| - 1) + Val(s[1..])
  }

  lemma {:induction false} ValBound(s: string)
    requires Digits(s)
    ensures Val(s) < Pow10(|s|)
  {
    if s != "" {
      ValBound(s[1..]);
      Lead(Digit(s[0]), 10, Pow10(|s| - 1), Val(s[1..]), 0);
    }
  }

  lemma Scale(a: nat, b: nat, p: nat)
    requires a <= b
    ensures a * p <= b * p
  {
  }

  /** The leading digit decides. */
  lemma Lead(d: nat, e: nat, p: nat, v: nat, w: nat)
    requires d < e && v < p
    ensures d * p + v < e * p + w
  {
    assert (d + 1) * p == d * p + p;
    Scale(d + 1, e, p);
  }

  lemma {:induction false} PowGrows(m: nat, n: nat)
    requires m <= n
    ensures 0 < Pow10(m) <= Pow10(n)
  {
    if m < n {
      PowGrows(m, n - 1);
    } else if m > 0 {
      PowGrows(m - 1, n - 1);
    }
  }

  /** A longer number is a greater one. */
  lemma LongerIsGreater(a: string, b: string)
    requires Decimal(a) && Decimal(b) && |a| < |b|
    ensures Val(a) < Val(b)
  {
    ValBound(a);
    PowGrows(|a|, |b| - 1);
    Scale(1, Digit(b[0]), Pow10(|b| - 1));
  }

  /** At equal length, string order is numeric order. */
  lemma {:induction false} SameLength(a: string, b: string)
    requires Digits(a) && Digits(b) && |a| == |b|
    ensures Less(a, b) <==> Val(a) < Val(b)
  {
    if a != "" {
      SameLength(a[1..], b[1..]);
      if a[0] < b[0] {
        FirstDigit(a, b);
      } else if b[0] < a[0] {
        FirstDigit(b, a);
      }
    }
  }

  lemma FirstDigit(a: string, b: string)
    requires Digits(a) && Digits(b) && |a| == |b| > 0 && a[0] < b[0]
    ensures Val(a) < Val(b)
  {
    hide Pow10;
    ValBound(a[1..]);
    Lead(Digit(a[0]), Digit(b[0]), Pow10(|a| - 1), Val(a[1..]), Val(b[1..]));
  }

  /** A shorter text comes before a longer one unless it is above the longer one's beginning. */
  lemma {:induction false} ShorterText(a: string, b: string)
    requires |a| < |b|
    ensures Less(a, b) <==> !Less(b[..|a|], a)
  {
    if a != "" {
      ShorterText(a[1..], b[1..]);
      assert b[..|a|][1..] == b[1..][..|a[1..]|];
    }
  }

  /**
   Exactly when string order recognises a numerically newer version: when the number of digits is
   the same, or when the old digits are not above the leading digits of the new ones.
   */
  lemma NewerRecognised(a: string, b: string)
    requires Decimal(a) && Decimal(b) && Val(a) < Val(b)
    ensures |a| <= |b|
    ensures Less(a, b) <==> |a| == |b| || !Less(b[..|a|], a)
  {
    if |b| < |a| {
      LongerIsGreater(b, a);
    } else if |a| == |b| {
      SameLength(a, b);
    } else {
      ShorterText(a, b);
    }
  }

  ghost function Nines(n: nat): string {
    seq(n, i => '9')
  }

  ghost function Zeros(n: nat): string {
    seq(n, i => '0')
  }

  lemma {:induction false} RolloverValues(n: nat)
    ensures Digits(Nines(n)) && Digits(Zeros(n)) && Val(Nines(n)) + 1 == Pow10(n) && Val(Zeros(n)) == 0
  {
    if n > 0 {
      RolloverValues(n - 1);
      assert Nines(n)[1..] == Nines(n - 1) && Zeros(n)[1..] == Zeros(n - 1);
    }
  }

  /** Whenever the counter gains a digit, the next version comes before the last one in string order. */
  lemma Rollover(n: nat)
    requires n > 0
    ensures var last, next := Nines(n), "1" + Zeros(n);
            && Decimal(last) && Decimal(next) && Val(next) == Val(last) + 1
            && !Less(last, next)
  {
    var last, next := Nines(n), "1" + Zeros(n);
    RolloverValues(n);
    assert next[1..] == Zeros(n) && Digit('1') == 1;
    assert last[0] == '9' && next[0] == '1';
  }
}
