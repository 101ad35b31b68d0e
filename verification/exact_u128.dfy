/**
 * The exact u128 codec of the core module
 * (faucet-module/src/lez_faucet_module.cpp).
 *
 * `u128` is a bounded type, so the proofs below also say that no intermediate
 * value of the parser leaves 128 bits: the source's arithmetic never wraps.
 */
module ExactU128 {
  import opened Wrappers
  import opened Digits

  const MAX: nat := 0x1_0000_0000_0000_0000_0000_0000_0000_0000 - 1

  newtype u128 = n: int | 0 <= n < 0x1_0000_0000_0000_0000_0000_0000_0000_0000

  // The decimals that fit, which are the strings parseU128 accepts.
  predicate FitsU128(raw: string) {
    IsDecimal(raw) && Value(raw) <= MAX
  }

  method ParseU128(raw: string) returns (parsed: Option<u128>)
    ensures parsed.Some? <==> FitsU128(raw)
    ensures parsed.Some? ==> parsed.value as nat == Value(raw)
  {
    if |raw| == 0 {
      return None;
    }
    var value: u128 := 0;
    var index := 0;
    while index < |raw|
      invariant 0 <= index <= |raw|
      invariant AllDigits(raw[..index]) && value as nat == ValueTo(raw[..index], index)
    {
      assert raw[..index + 1][..index] == raw[..index];
      if !IsDigit(raw[index]) {
        return None;
      }
      var digit := DigitOf(raw[index]) as u128;
      PrefixStep(raw, index);
      if value > (MAX as u128 - digit) / 10 {
        if AllDigits(raw) {
          Overflows(raw, index);
        }
        return None;
      }
      value := value * 10 + digit;
      index := index + 1;
    }
    assert raw[..|raw|] == raw;
    return Some(value);
  }

  lemma PrefixStep(raw: string, index: nat)
    requires index < |raw| && AllDigits(raw[..index]) && IsDigit(raw[index])
    ensures AllDigits(raw[..index + 1])
    ensures ValueTo(raw[..index + 1], index + 1) == ValueTo(raw[..index], index) * 10 + DigitOf(raw[index])
  {
    assert forall k | 0 <= k < index :: raw[..index + 1][k] == raw[..index][k];
    SamePrefix(raw[..index + 1], raw[..index], index);
  }

  // A prefix that no longer fits is never brought back by the digits after it.
  lemma Overflows(raw: string, index: nat)
    requires AllDigits(raw) && index < |raw|
    requires ValueTo(raw[..index], index) * 10 + DigitOf(raw[index]) > MAX
    ensures Value(raw) > MAX
  {
    SamePrefix(raw, raw[..index], index);
    Split(raw, index + 1);
    ShiftOrders(ValueTo(raw, index + 1), 0, |raw| - index - 1);
  }

  function Reversed(s: string): string {
    seq(|s|, i requires 0 <= i < |s| => s[|s| - 1 - i])
  }

  method U128String(value: u128) returns (text: string)
    ensures text == Decimal(value as nat)
  {
    if value == 0 {
      return "0";
    }
    var out := "";
    var rest := value;
    while rest != 0
      invariant rest == 0 ==> out != ""
      invariant if rest == 0 then Reversed(out) == Decimal(value as nat)
                else Decimal(rest as nat) + Reversed(out) == Decimal(value as nat)
      decreases rest
    {
      var last := DigitChar((rest % 10) as nat);
      ghost var decimal := Decimal(rest as nat);
      if rest >= 10 {
        assert decimal == Decimal((rest / 10) as nat) + [last];
      } else {
        assert decimal == [last];
      }
      PushFront(out, last);
      out := out + [last];
      rest := rest / 10;
    }
    text := Reversed(out);
  }

  lemma PushFront(s: string, c: char)
    ensures Reversed(s + [c]) == [c] + Reversed(s)
  {
  }

  /**
   * One decimal field as the module re-renders it: the canonical string of the
   * same number, or nothing when the field is not a decimal that fits.
   */
  function NormalizedField(raw: string): Option<string> {
    if FitsU128(raw) then Some(Decimal(Value(raw))) else None
  }

  method NormalizeField(raw: string) returns (field: Option<string>)
    ensures field == NormalizedField(raw)
  {
    var parsed := ParseU128(raw);
    if parsed.None? {
      return None;
    }
    var text := U128String(parsed.value);
    return Some(text);
  }

  // Rendering inverts parsing on canonical strings, and parsing inverts rendering.
  lemma RenderInvertsParse(raw: string, n: nat)
    ensures FitsU128(raw) && Canonical(raw) ==> NormalizedField(raw) == Some(raw)
    ensures n <= MAX ==> FitsU128(Decimal(n)) && Value(Decimal(n)) == n
    ensures n > MAX ==> !FitsU128(Decimal(n))
  {
    if FitsU128(raw) && Canonical(raw) {
      CanonicalIsDecimal(raw);
    }
  }

  // Normalizing twice is normalizing once, and it never changes the number.
  lemma NormalizingIsIdempotent(raw: string)
    requires NormalizedField(raw).Some?
    ensures var once := NormalizedField(raw).value;
            NormalizedField(once) == Some(once) && Canonical(once) && Value(once) == Value(raw)
  {
    RenderInvertsParse(NormalizedField(raw).value, 0);
  }
}
