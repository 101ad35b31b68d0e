/**
 * Decimal digit strings as numbers.
 *
 * Balances cross every boundary of the faucet as digit strings, because no
 * native number type on the way holds a u128. `Value` says which number a
 * string denotes, `Decimal` is the one canonical string of a number, and the
 * lemmas say the two are inverse to each other.
 */
module Digits {

  predicate IsDigit(c: char) {
    '0' <= c <= '9'
  }

  predicate AllDigits(s: string) {
    forall i | 0 <= i < |s| :: IsDigit(s[i])
  }

  // The strings the source accepts as a decimal: one digit or more.
  predicate IsDecimal(s: string) {
    |s| > 0 && AllDigits(s)
  }

  // No leading zero, except for zero itself.
  predicate Canonical(s: string) {
    IsDecimal(s) && (s[0] != '0' || |s| == 1)
  }

  function DigitOf(c: char): (d: nat)
    requires IsDigit(c)
    ensures d < 10
  {
    c as int - '0' as int
  }

  function DigitChar(d: nat): (c: char)
    requires d < 10
    ensures IsDigit(c) && DigitOf(c) == d
  {
    ('0' as int + d) as char
  }

  // n with `places` zeros written after it: n times ten to that power.
  function Shift(n: nat, places: nat): nat {
    if places == 0 then n else 10 * Shift(n, places - 1)
  }

  // The number the first n digits spell.
  function ValueTo(s: string, n: nat): nat
    requires AllDigits(s) && n <= |s|
  {
    if n == 0 then 0 else ValueTo(s, n - 1) * 10 + DigitOf(s[n - 1])
  }

  // The number the digits from i on spell.
  function ValueFrom(s: string, i: nat): nat
    requires AllDigits(s) && i <= |s|
    decreases |s| - i
  {
    if i == |s| then 0 else Shift(DigitOf(s[i]), |s| - 1 - i) + ValueFrom(s, i + 1)
  }

  function Value(s: string): nat
    requires AllDigits(s)
  {
    ValueTo(s, |s|)
  }

  function Decimal(n: nat): (s: string)
    ensures Canonical(s) && Value(s) == n
    ensures n > 0 ==> s[0] != '0'
  {
    if n < 10 then
      assert ValueTo([DigitChar(n)], 0) == 0;
      [DigitChar(n)]
    else
      var high, last := Decimal(n / 10), DigitChar(n % 10);
      SamePrefix(high, high + [last], |high|);
      high + [last]
  }

  function Zeros(n: nat): (s: string)
    ensures |s| == n && AllDigits(s) && forall i | 0 <= i < n :: s[i] == '0'
  {
    seq(n, _ => '0')
  }

  lemma {:induction false} ShiftAdds(a: nat, b: nat, places: nat)
    ensures Shift(a + b, places) == Shift(a, places) + Shift(b, places)
  {
    if places > 0 {
      ShiftAdds(a, b, places - 1);
    }
  }

  lemma {:induction false} ShiftTwice(n: nat, p: nat, q: nat)
    ensures Shift(Shift(n, p), q) == Shift(n, p + q)
  {
    if q > 0 {
      ShiftTwice(n, p, q - 1);
    }
  }

  lemma {:induction false} ShiftTen(n: nat, places: nat)
    ensures Shift(10 * n, places) == Shift(n, places + 1)
  {
    if places > 0 {
      ShiftTen(n, places - 1);
    }
  }

  lemma {:induction false} ShiftOrders(a: nat, b: nat, places: nat)
    ensures a <= Shift(a, places)
    ensures a < b <==> Shift(a, places) < Shift(b, places)
    ensures a < b ==> Shift(a, places) + Shift(1, places) <= Shift(b, places)
    ensures Shift(0, places) == 0
  {
    if places > 0 {
      ShiftOrders(a, b, places - 1);
    }
  }

  lemma {:induction false} MorePlacesMore(p: nat, q: nat)
    requires p <= q
    ensures Shift(1, p) <= Shift(1, q)
  {
    if p < q {
      MorePlacesMore(p, q - 1);
    }
  }

  // Shifting is multiplication by a power of ten.
  lemma {:induction false} ShiftIsProduct(n: nat, places: nat)
    ensures Shift(n, places) == n * Shift(1, places)
  {
    if places > 0 {
      ShiftIsProduct(n, places - 1);
      assert 10 * (n * Shift(1, places - 1)) == n * (10 * Shift(1, places - 1));
    }
  }

  lemma {:induction false} SamePrefix(s: string, t: string, n: nat)
    requires AllDigits(s) && AllDigits(t) && n <= |s| && n <= |t|
    requires forall k | 0 <= k < n :: s[k] == t[k]
    ensures ValueTo(s, n) == ValueTo(t, n)
  {
    if n > 0 {
      SamePrefix(s, t, n - 1);
    }
  }

  lemma {:induction false} SameSuffix(s: string, i: nat, t: string, j: nat)
    requires AllDigits(s) && AllDigits(t) && i <= |s| && j <= |t| && |s| - i == |t| - j
    requires forall k | i <= k < |s| :: s[k] == t[k - i + j]
    ensures ValueFrom(s, i) == ValueFrom(t, j)
    decreases |s| - i
  {
    if i < |s| {
      SameSuffix(s, i + 1, t, j + 1);
    }
  }

  // A string is what stands left of i, shifted, plus what stands right of it.
  lemma {:induction false} Split(s: string, i: nat)
    requires AllDigits(s) && i <= |s|
    ensures Value(s) == Shift(ValueTo(s, i), |s| - i) + ValueFrom(s, i)
    decreases |s| - i
  {
    if i < |s| {
      Split(s, i + 1);
      ShiftAdds(10 * ValueTo(s, i), DigitOf(s[i]), |s| - i - 1);
      ShiftTen(ValueTo(s, i), |s| - i - 1);
    }
  }

  lemma ValueFromStart(s: string)
    requires AllDigits(s)
    ensures Value(s) == ValueFrom(s, 0)
  {
    Split(s, 0);
    ShiftOrders(0, 0, |s|);
  }

  lemma ValueOfConcat(high: string, low: string)
    requires AllDigits(high) && AllDigits(low)
    ensures AllDigits(high + low)
    ensures Value(high + low) == Shift(Value(high), |low|) + Value(low)
  {
    Split(high + low, |high|);
    SamePrefix(high + low, high, |high|);
    SameSuffix(high + low, |high|, low, 0);
    ValueFromStart(low);
  }

  lemma ValueOfCons(c: char, rest: string)
    requires IsDigit(c) && AllDigits(rest)
    ensures AllDigits([c] + rest)
    ensures Value([c] + rest) == Shift(DigitOf(c), |rest|) + Value(rest)
  {
    ValueOfConcat([c], rest);
    assert ValueTo([c], 0) == 0;
  }

  lemma {:induction false} ValueBelow(s: string, n: nat)
    requires AllDigits(s) && n <= |s|
    ensures ValueTo(s, n) < Shift(1, n)
  {
    if n > 0 {
      ValueBelow(s, n - 1);
    }
  }

  lemma {:induction false} SuffixBelow(s: string, i: nat)
    requires AllDigits(s) && i <= |s|
    ensures ValueFrom(s, i) < Shift(1, |s| - i)
    decreases |s| - i
  {
    if i < |s| {
      var places := |s| - 1 - i;
      SuffixBelow(s, i + 1);
      ShiftOrders(DigitOf(s[i]), 10 * 1, places);
      ShiftTen(1, places);
    }
  }

  // A leading zero adds nothing; a leading non-zero digit bounds from below.
  lemma LeadingDigit(s: string)
    requires IsDecimal(s)
    ensures s[0] == '0' ==> Value(s) == ValueFrom(s, 1) && Value(s) < Shift(1, |s| - 1)
    ensures s[0] != '0' ==> Value(s) >= Shift(1, |s| - 1)
  {
    ValueFromStart(s);
    SuffixBelow(s, 1);
    ShiftOrders(0, DigitOf(s[0]), |s| - 1);
  }

  lemma {:induction false} ValueOfZeros(n: nat, k: nat)
    requires k <= n
    ensures ValueTo(Zeros(n), k) == 0
  {
    if k > 0 {
      ValueOfZeros(n, k - 1);
    }
  }

  // Of two canonical strings the longer one is the larger number.
  lemma LongerIsLarger(a: string, b: string)
    requires Canonical(a) && Canonical(b) && |a| < |b|
    ensures Value(a) < Value(b)
  {
    ValueBelow(a, |a|);
    LeadingDigit(b);
    MorePlacesMore(|a|, |b| - 1);
  }

  lemma {:induction false} SameValueSameDigits(a: string, b: string, n: nat)
    requires AllDigits(a) && AllDigits(b) && n <= |a| && n <= |b| && ValueTo(a, n) == ValueTo(b, n)
    ensures forall k | 0 <= k < n :: a[k] == b[k]
  {
    if n > 0 {
      SameValueSameDigits(a, b, n - 1);
    }
  }

  // Equal numbers have equal canonical strings.
  lemma CanonicalUnique(a: string, b: string)
    requires Canonical(a) && Canonical(b) && Value(a) == Value(b)
    ensures a == b
  {
    if |a| < |b| {
      LongerIsLarger(a, b);
    } else if |b| < |a| {
      LongerIsLarger(b, a);
    } else {
      SameValueSameDigits(a, b, |a|);
    }
  }

  lemma CanonicalIsDecimal(s: string)
    requires Canonical(s)
    ensures s == Decimal(Value(s))
  {
    CanonicalUnique(s, Decimal(Value(s)));
  }
}
