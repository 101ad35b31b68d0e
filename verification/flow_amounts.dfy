/**
 * Rendering a smallest-unit integer as an amount with a decimal point
 * (faucet-ui/src/qml/FaucetFlow.js).
 *
 * The view splits and groups digits and never divides. `ReadAmount` is the
 * arithmetic reading of a rendered amount; reading what was rendered gives the
 * number back, so no two numbers are ever rendered alike.
 */
module FlowAmounts {
  import opened Wrappers
  import opened Digits
  import opened FlowDecimals

  // ---- thousands ---------------------------------------------------------

  // The digits from i on, a comma before every complete group of three.
  function GroupedFrom(text: string, i: nat): string
    requires i <= |text|
    decreases |text| - i, 0
  {
    if i == |text| then "" else [text[i]] + AfterDigit(text, i + 1)
  }

  function AfterDigit(text: string, i: nat): string
    requires i <= |text|
    decreases |text| - i, 1
  {
    if i < |text| && (|text| - i) % 3 == 0 then "," + GroupedFrom(text, i) else GroupedFrom(text, i)
  }

  method GroupDigits(value: string) returns (grouped: string)
    ensures grouped == if IsDecimal(value) then GroupedFrom(value, 0) else value
  {
    if !IsDecimal(value) {
      return value;
    }
    grouped := "";
    var counted := 0;
    var index := |value| - 1;
    while index >= 0
      invariant -1 <= index < |value| && counted == |value| - 1 - index
      invariant grouped == if index < 0 then GroupedFrom(value, 0) else AfterDigit(value, index + 1)
    {
      grouped := [value[index]] + grouped;
      counted := counted + 1;
      if counted % 3 == 0 && index > 0 {
        grouped := "," + grouped;
      }
      index := index - 1;
    }
  }

  // The characters from i on that are not commas.
  function WithoutCommas(s: string, i: nat): string
    requires i <= |s|
    decreases |s| - i
  {
    if i == |s| then ""
    else if s[i] == ',' then WithoutCommas(s, i + 1)
    else [s[i]] + WithoutCommas(s, i + 1)
  }

  lemma {:induction false} SameTail(s: string, i: nat, t: string, j: nat)
    requires i <= |s| && j <= |t| && |s| - i == |t| - j
    requires forall k | i <= k < |s| :: s[k] == t[k - i + j]
    ensures WithoutCommas(s, i) == WithoutCommas(t, j)
    decreases |s| - i
  {
    if i < |s| {
      SameTail(s, i + 1, t, j + 1);
    }
  }

  lemma WithoutCommasOfCons(c: char, rest: string)
    ensures WithoutCommas([c] + rest, 0) == if c == ',' then WithoutCommas(rest, 0) else [c] + WithoutCommas(rest, 0)
  {
    SameTail([c] + rest, 1, rest, 0);
  }

  predicate PointFree(s: string) {
    forall k | 0 <= k < |s| :: s[k] != '.'
  }

  // Grouping only inserts commas: removing them gives the digits back.
  lemma {:induction false} UngroupingRestores(text: string, i: nat)
    requires AllDigits(text) && i <= |text|
    ensures WithoutCommas(GroupedFrom(text, i), 0) == text[i..]
    ensures PointFree(GroupedFrom(text, i))
    decreases |text| - i
  {
    if i < |text| {
      var tail := AfterDigit(text, i + 1);
      UngroupingRestores(text, i + 1);
      WithoutCommasOfCons(',', GroupedFrom(text, i + 1));
      WithoutCommasOfCons(text[i], tail);
      assert PointFree(tail);
      assert text[i..] == [text[i]] + text[i + 1..];
    }
  }

  // Commas stand behind three, six, nine digits from the right, and nowhere
  // else; the digits between them are the number's, in order.
  lemma {:induction false} GroupsOfThree(text: string, i: nat)
    requires i < |text|
    ensures var (grouped, n) := (GroupedFrom(text, i), |text| - i);
            && |grouped| == n + (n - 1) / 3
            && forall p: nat | p < |grouped| ::
                 grouped[|grouped| - 1 - p] == if p % 4 == 3 then ',' else text[|text| - 1 - (p - p / 4)]
    decreases |text| - i
  {
    if i + 1 < |text| {
      GroupsOfThree(text, i + 1);
      var rest, grouped, n := GroupedFrom(text, i + 1), GroupedFrom(text, i), |text| - i;
      assert |grouped| == |rest| + if (n - 1) % 3 == 0 then 2 else 1;
      assert (n - 1) / 3 == (n - 2) / 3 + if (n - 1) % 3 == 0 then 1 else 0;
      forall p: nat | p < |grouped|
        ensures grouped[|grouped| - 1 - p] == if p % 4 == 3 then ',' else text[|text| - 1 - (p - p / 4)]
      {
        if p < |rest| {
          assert grouped[|grouped| - 1 - p] == rest[|rest| - 1 - p];
        }
      }
    } else {
      assert GroupedFrom(text, i + 1) == "" && AfterDigit(text, i + 1) == "";
    }
  }

  // ---- decimal places ----------------------------------------------------

  // `decimals` arrives as a JavaScript number or as text.
  datatype Decimals = Count(n: real) | Written(text: string)

  // The number of places is k: the very number, or a text of one or two digits
  // that spells it.
  predicate Names(decimals: Decimals, k: nat) {
    match decimals
    case Count(n) => k as real == n
    case Written(raw) => IsDecimal(Trim(raw)) && |Trim(raw)| <= 2 && Value(Trim(raw)) == k
  }

  lemma ShortValue(text: string)
    requires IsDecimal(text) && |text| <= 2
    ensures Value(text) == if |text| == 1 then DigitOf(text[0]) else DigitOf(text[0]) * 10 + DigitOf(text[1])
  {
    assert ValueTo(text, 0) == 0;
    assert ValueTo(text, 1) == DigitOf(text[0]);
  }

  function DecimalPlaces(decimals: Decimals): (places: int)
    ensures -1 <= places <= 38
    ensures forall k: nat | k <= 38 :: Names(decimals, k) <==> places == k
  {
    match decimals
    case Count(n) => if 0.0 <= n <= 38.0 && n.Floor as real == n then n.Floor else -1
    case Written(raw) =>
      var text := Trim(raw);
      if !IsDecimal(text) || |text| > 2 then -1
      else
        ShortValue(text);
        var units := DigitOf(text[|text| - 1]);
        var places := if |text| == 2 then units + DigitOf(text[0]) * 10 else units;
        if places <= MAX_PLACES then places else -1
  }

  // ---- amounts -----------------------------------------------------------

  // Zeros in front until a digit stands left of the point.
  function Padded(text: string, places: nat): (padded: string)
    ensures |padded| > places && |padded| >= |text|
    decreases places - |text|
  {
    if |text| <= places then Padded("0" + text, places) else text
  }

  // Where the trailing zeros of s begin, but not before `low`.
  function FractionEnd(s: string, low: nat, end: nat): (r: nat)
    requires low <= end <= |s|
    ensures low <= r <= end && (r > low ==> s[r - 1] != '0')
    ensures forall k | r <= k < end :: s[k] == '0'
  {
    if low < end && s[end - 1] == '0' then FractionEnd(s, low, end - 1) else end
  }

  function WholePart(text: string, places: nat): string {
    var padded := Padded(text, places);
    padded[..|padded| - places]
  }

  function FractionPart(text: string, places: nat): string {
    var padded := Padded(text, places);
    padded[|padded| - places..FractionEnd(padded, |padded| - places, |padded|)]
  }

  // The rendering of the decimal `text`, which must be canonical.
  function FormattedAmount(text: string, places: nat): string {
    Joined(WholePart(text, places), FractionPart(text, places))
  }

  function Joined(whole: string, fraction: string): string {
    if fraction == "" then GroupedFrom(whole, 0) else GroupedFrom(whole, 0) + "." + fraction
  }

  method FormatAmount(value: string, decimals: Decimals) returns (amount: string)
    ensures amount == if IsDecimal(value) && DecimalPlaces(decimals) >= 0
                      then FormattedAmount(Decimal(Value(value)), DecimalPlaces(decimals)) else ""
  {
    NormalizedIsCanonical(value);
    var text := NormalizedDecimal(value);
    var places := DecimalPlaces(decimals);
    if text == "" || places < 0 {
      return "";
    }
    amount := PlacePoint(text, places);
  }

  // The digit surgery of formatAmount, once both arguments are usable.
  method PlacePoint(digits: string, places: nat) returns (amount: string)
    requires IsDecimal(digits)
    ensures amount == FormattedAmount(digits, places)
  {
    var text := digits;
    if places == 0 {
      amount := GroupDigits(text);
      assert text[..|text|] == text;
      return;
    }
    while |text| <= places
      invariant IsDecimal(text)
      invariant Padded(text, places) == Padded(digits, places)
    {
      text := "0" + text;
    }
    var whole := text[..|text| - places];
    var fraction := text[|text| - places..FractionEnd(text, |text| - places, |text|)];
    amount := GroupDigits(whole);
    amount := if fraction == "" then amount else amount + "." + fraction;
  }

  // ---- reading back ------------------------------------------------------

  function PointAt(s: string, i: nat): (at: nat)
    requires i <= |s|
    ensures i <= at <= |s| && (at < |s| ==> s[at] == '.')
    ensures forall k | i <= k < at :: s[k] != '.'
    decreases |s| - i
  {
    if i == |s| || s[i] == '.' then i else PointAt(s, i + 1)
  }

  // The text left and right of the decimal point.
  function AmountParts(amount: string): (string, string) {
    var point := PointAt(amount, 0);
    (amount[..point], if point < |amount| then amount[point + 1..] else "")
  }

  /** The smallest-unit integer a rendered amount stands for: the amount times 10^places. */
  function ReadAmount(amount: string, places: nat): Option<nat> {
    ReadParts(AmountParts(amount), places)
  }

  function ReadParts(parts: (string, string), places: nat): Option<nat> {
    var whole, fraction := WithoutCommas(parts.0, 0), parts.1;
    if IsDecimal(whole) && AllDigits(fraction) && |fraction| <= places then
      Some(Shift(Value(whole), places) + Shift(Value(fraction), places - |fraction|))
    else None
  }

  lemma {:induction false} PaddingKeepsValue(text: string, places: nat)
    requires IsDecimal(text)
    ensures AllDigits(Padded(text, places))
    ensures Value(Padded(text, places)) == Value(text)
    decreases places - |text|
  {
    if |text| <= places {
      ValueOfCons('0', text);
      ShiftOrders(0, 0, |text|);
      PaddingKeepsValue("0" + text, places);
    }
  }

  lemma {:induction false} TrailingZerosShift(s: string, from: nat, end: nat)
    requires AllDigits(s) && from <= end <= |s|
    requires forall k | from <= k < end :: s[k] == '0'
    ensures ValueTo(s, end) == Shift(ValueTo(s, from), end - from)
  {
    if from < end {
      TrailingZerosShift(s, from, end - 1);
    }
  }

  // A slice of digits, read where it stands.
  lemma SliceValue(s: string, low: nat, high: nat)
    requires AllDigits(s) && low <= high <= |s|
    ensures AllDigits(s[low..high]) && AllDigits(s[..low])
    ensures ValueTo(s, high) == Shift(Value(s[..low]), high - low) + Value(s[low..high])
  {
    var taken, slice, head := s[..high], s[low..high], s[..low];
    Split(taken, low);
    SamePrefix(s, taken, high);
    SamePrefix(taken, head, low);
    SameSuffix(taken, low, slice, 0);
    ValueFromStart(slice);
  }

  lemma PartsAddUp(text: string, places: nat)
    requires IsDecimal(text)
    ensures IsDecimal(WholePart(text, places)) && AllDigits(FractionPart(text, places))
    ensures |FractionPart(text, places)| <= places
    ensures Value(text) == Shift(Value(WholePart(text, places)), places)
                         + Shift(Value(FractionPart(text, places)), places - |FractionPart(text, places)|)
  {
    var padded := Padded(text, places);
    PaddingKeepsValue(text, places);
    var low := |padded| - places;
    var end := FractionEnd(padded, low, |padded|);
    var whole, fraction := WholePart(text, places), FractionPart(text, places);
    TrailingZerosShift(padded, end, |padded|);
    SliceValue(padded, low, end);
    ShiftAdds(Shift(Value(whole), end - low), Value(fraction), |padded| - end);
    ShiftTwice(Value(whole), end - low, |padded| - end);
  }

  // Reading a rendered amount and scaling it by 10^places gives the integer back.
  lemma FormatIsExact(text: string, places: nat)
    requires IsDecimal(text)
    ensures ReadAmount(FormattedAmount(text, places), places) == Some(Value(text))
  {
    var whole, fraction := WholePart(text, places), FractionPart(text, places);
    PartsAddUp(text, places);
    JoinedParts(whole, fraction);
    ReadGrouped(whole, fraction, places);
  }

  lemma JoinedParts(whole: string, fraction: string)
    requires AllDigits(whole)
    ensures AmountParts(Joined(whole, fraction)) == (GroupedFrom(whole, 0), fraction)
  {
    UngroupingRestores(whole, 0);
    PartsOfJoined(GroupedFrom(whole, 0), fraction);
  }

  lemma ReadGrouped(whole: string, fraction: string, places: nat)
    requires IsDecimal(whole) && AllDigits(fraction) && |fraction| <= places
    ensures ReadParts((GroupedFrom(whole, 0), fraction), places)
            == Some(Shift(Value(whole), places) + Shift(Value(fraction), places - |fraction|))
  {
    UngroupingRestores(whole, 0);
    assert whole[0..] == whole;
  }

  lemma PartsOfJoined(grouped: string, fraction: string)
    requires PointFree(grouped)
    ensures AmountParts(if fraction == "" then grouped else grouped + "." + fraction) == (grouped, fraction)
  {
    if fraction == "" {
      assert grouped[..|grouped|] == grouped;
    } else {
      var amount := grouped + "." + fraction;
      assert amount[|grouped|] == '.';
      assert forall k | 0 <= k < |grouped| :: amount[k] == grouped[k];
      assert PointAt(amount, 0) == |grouped|;
      assert amount[..|grouped|] == grouped && amount[|grouped| + 1..] == fraction;
    }
  }

  // Two numbers rendered alike are the same number.
  lemma FormatIsInjective(a: string, b: string, places: nat)
    requires IsDecimal(a) && IsDecimal(b)
    requires FormattedAmount(a, places) == FormattedAmount(b, places)
    ensures Value(a) == Value(b)
  {
    FormatIsExact(a, places);
    FormatIsExact(b, places);
  }

  // No rendering carries a zero it could drop: the fraction never ends in 0
  // and, when the integer is canonical, neither does the whole part start with one.
  lemma FormatIsMinimal(n: nat, places: nat)
    ensures var fraction := FractionPart(Decimal(n), places);
            fraction != "" ==> fraction[|fraction| - 1] != '0'
    ensures Canonical(WholePart(Decimal(n), places))
  {
    var text := Decimal(n);
    var padded := Padded(text, places);
    PartsAddUp(text, places);
    PaddedOnlyToOneDigit(text, places);
    var low := |padded| - places;
    var end := FractionEnd(padded, low, |padded|);
    if end > low {
      assert FractionPart(text, places)[end - low - 1] == padded[end - 1];
    }
  }

  lemma {:induction false} PaddedOnlyToOneDigit(text: string, places: nat)
    requires text != ""
    ensures Padded(text, places) == text || |Padded(text, places)| == places + 1
    decreases places - |text|
  {
    if |text| <= places {
      PaddedOnlyToOneDigit("0" + text, places);
    }
  }
}
