/**
 * The exact decimal arithmetic of the faucet's view
 * (faucet-ui/src/qml/FaucetFlow.js).
 *
 * The view never converts a balance to a JavaScript number. It compares, adds
 * and renders digit strings, and it shows a receipt only when the two balances
 * of that receipt differ by exactly the prize. Everything here relates those
 * string operations to arithmetic on natural numbers.
 */
module FlowDecimals {
  import opened Wrappers
  import opened Digits

  const MAX_U128: nat := 340282366920938463463374607431768211455
  const MAX_U128_TEXT := "340282366920938463463374607431768211455"
  const MAX_PLACES: nat := 38
  const MAX_HASH_LENGTH: nat := 128

  // ---- comparison --------------------------------------------------------

  // Where the leading zeros end.
  function ZerosEnd(s: string, i: nat): (end: nat)
    requires i <= |s|
    ensures i <= end <= |s| && (end < |s| ==> s[end] != '0')
    ensures forall k | i <= k < end :: s[k] == '0'
    decreases |s| - i
  {
    if i < |s| && s[i] == '0' then ZerosEnd(s, i + 1) else i
  }

  function NormalizedDecimal(text: string): string {
    if !IsDecimal(text) then ""
    else
      var stripped := text[ZerosEnd(text, 0)..];
      if stripped == "" then "0" else stripped
  }

  lemma {:induction false} LeadingZerosAddNothing(s: string, i: nat)
    requires AllDigits(s) && i <= |s|
    ensures ValueFrom(s, i) == ValueFrom(s, ZerosEnd(s, i))
    decreases |s| - i
  {
    if i < |s| && s[i] == '0' {
      LeadingZerosAddNothing(s, i + 1);
      ShiftOrders(0, 0, |s| - 1 - i);
    }
  }

  lemma NormalizedDigits(text: string)
    requires IsDecimal(text)
    ensures Canonical(NormalizedDecimal(text))
    ensures Value(NormalizedDecimal(text)) == Value(text)
  {
    var end, normal := ZerosEnd(text, 0), NormalizedDecimal(text);
    ValueFromStart(text);
    LeadingZerosAddNothing(text, 0);
    if end < |text| {
      SameSuffix(text, end, normal, 0);
      ValueFromStart(normal);
    } else {
      ZeroIsZero();
    }
  }

  lemma ZeroIsZero()
    ensures Canonical("0") && Value("0") == 0
  {
    assert ValueTo("0", 0) == 0;
  }

  // Normalizing keeps the number and reaches its one canonical string; the
  // empty string is the answer to exactly the inputs that are not decimals.
  lemma NormalizedIsCanonical(text: string)
    ensures NormalizedDecimal(text) == if IsDecimal(text) then Decimal(Value(text)) else ""
  {
    if IsDecimal(text) {
      NormalizedDigits(text);
      CanonicalIsDecimal(NormalizedDecimal(text));
    }
  }

  lemma NormalizingTwiceIsOnce(text: string)
    ensures NormalizedDecimal(NormalizedDecimal(text)) == NormalizedDecimal(text)
  {
    NormalizedIsCanonical(text);
    NormalizedIsCanonical(NormalizedDecimal(text));
  }

  // JavaScript's `<` on two strings.
  predicate TextLess(a: string, b: string) {
    TextLessFrom(a, b, 0)
  }

  predicate TextLessFrom(a: string, b: string, i: nat)
    requires i <= |a| && i <= |b|
    decreases |a| - i
  {
    if i == |b| then false
    else if i == |a| then true
    else if a[i] != b[i] then a[i] < b[i]
    else TextLessFrom(a, b, i + 1)
  }

  function CompareDecimals(left: string, right: string): Option<int> {
    var a, b := NormalizedDecimal(left), NormalizedDecimal(right);
    if a == "" || b == "" then None
    else if |a| != |b| then Some(if |a| < |b| then -1 else 1)
    else if a == b then Some(0)
    else Some(if TextLess(a, b) then -1 else 1)
  }

  lemma {:induction false} TextOrderFrom(a: string, b: string, i: nat)
    requires AllDigits(a) && AllDigits(b) && |a| == |b| && i <= |a|
    ensures TextLessFrom(a, b, i) <==> ValueFrom(a, i) < ValueFrom(b, i)
    decreases |a| - i
  {
    if i < |a| {
      if a[i] == b[i] {
        TextOrderFrom(a, b, i + 1);
      } else {
        SuffixBelow(a, i + 1);
        SuffixBelow(b, i + 1);
        ShiftOrders(DigitOf(a[i]), DigitOf(b[i]), |a| - 1 - i);
        ShiftOrders(DigitOf(b[i]), DigitOf(a[i]), |a| - 1 - i);
      }
    }
  }

  lemma TextOrderIsNumericOrder(a: string, b: string)
    requires AllDigits(a) && AllDigits(b) && |a| == |b|
    ensures TextLess(a, b) <==> Value(a) < Value(b)
    ensures Value(a) == Value(b) ==> a == b
  {
    TextOrderFrom(a, b, 0);
    ValueFromStart(a);
    ValueFromStart(b);
    if Value(a) == Value(b) {
      SameValueSameDigits(a, b, |a|);
    }
  }

  // Comparing two strings is comparing the two numbers they denote.
  lemma CompareIsNumericOrder(left: string, right: string)
    ensures CompareDecimals(left, right) ==
            if !IsDecimal(left) || !IsDecimal(right) then None
            else if Value(left) < Value(right) then Some(-1)
            else if Value(left) == Value(right) then Some(0)
            else Some(1)
  {
    if IsDecimal(left) && IsDecimal(right) {
      NormalizedDigits(left);
      NormalizedDigits(right);
      CanonicalOrder(NormalizedDecimal(left), NormalizedDecimal(right));
    } else {
      NormalizedIsCanonical(left);
      NormalizedIsCanonical(right);
    }
  }

  lemma CanonicalOrder(a: string, b: string)
    requires Canonical(a) && Canonical(b)
    ensures |a| < |b| ==> Value(a) < Value(b)
    ensures |b| < |a| ==> Value(b) < Value(a)
    ensures |a| == |b| ==> (TextLess(a, b) <==> Value(a) < Value(b))
    ensures a == b <==> Value(a) == Value(b)
  {
    if |a| < |b| {
      LongerIsLarger(a, b);
    } else if |b| < |a| {
      LongerIsLarger(b, a);
    } else {
      TextOrderIsNumericOrder(a, b);
    }
  }

  predicate IsU128Decimal(value: string, allowZero: bool) {
    var normalized := NormalizedDecimal(value);
    if normalized == "" || (!allowZero && normalized == "0") then false
    else
      || |normalized| < |MAX_U128_TEXT|
      || (|normalized| == |MAX_U128_TEXT| && (normalized == MAX_U128_TEXT || TextLess(normalized, MAX_U128_TEXT)))
  }

  lemma AppendFour(high: string, low: string, n: nat, m: nat)
    requires AllDigits(high) && Value(high) == n
    requires |low| == 4 && AllDigits(low)
    requires m == ((DigitOf(low[0]) * 10 + DigitOf(low[1])) * 10 + DigitOf(low[2])) * 10 + DigitOf(low[3])
    ensures AllDigits(high + low) && Value(high + low) == n * 10000 + m
  {
    ValueOfConcat(high, low);
    assert ValueTo(low, 1) == ValueTo(low, 0) * 10 + DigitOf(low[0]);
    assert ValueTo(low, 2) == ValueTo(low, 1) * 10 + DigitOf(low[1]);
    assert ValueTo(low, 3) == ValueTo(low, 2) * 10 + DigitOf(low[2]);
    assert Shift(n, 1) == 10 * Shift(n, 0);
    assert Shift(n, 2) == 10 * Shift(n, 1);
    assert Shift(n, 3) == 10 * Shift(n, 2);
  }

  // The constant the source spells out is the largest u128.
  lemma MaxU128Text()
    ensures Canonical(MAX_U128_TEXT) && Value(MAX_U128_TEXT) == MAX_U128
  {
    assert ValueTo("340", 1) == 3 && ValueTo("340", 2) == 34;
    AppendFour("340", "2823", 340, 2823);
    var t2 := "340" + "2823";
    AppendFour(t2, "6692", 3402823, 6692);
    var t3 := t2 + "6692";
    AppendFour(t3, "0938", 34028236692, 938);
    MaxU128Middle(t3 + "0938");
  }

  lemma MaxU128Middle(high: string)
    requires high == "340282366920938"
    requires AllDigits(high) && Value(high) == 340282366920938
    ensures Canonical(MAX_U128_TEXT) && Value(MAX_U128_TEXT) == MAX_U128
  {
    AppendFour(high, "4634", 340282366920938, 4634);
    var t5 := high + "4634";
    AppendFour(t5, "6337", 3402823669209384634, 6337);
    var t6 := t5 + "6337";
    AppendFour(t6, "4607", 34028236692093846346337, 4607);
    var t7 := t6 + "4607";
    AppendFour(t7, "4317", 340282366920938463463374607, 4317);
    MaxU128End(t7 + "4317");
  }

  lemma MaxU128End(high: string)
    requires high == "3402823669209384634633746074317"
    requires AllDigits(high) && Value(high) == 3402823669209384634633746074317
    ensures Canonical(MAX_U128_TEXT) && Value(MAX_U128_TEXT) == MAX_U128
  {
    AppendFour(high, "6821", 3402823669209384634633746074317, 6821);
    var t9 := high + "6821";
    AppendFour(t9, "1455", 34028236692093846346337460743176821, 1455);
    assert t9 + "1455" == MAX_U128_TEXT;
  }

  // The string test for "fits in a u128" is the numeric one.
  lemma U128TestIsNumeric(value: string, allowZero: bool)
    ensures IsU128Decimal(value, allowZero) <==>
            IsDecimal(value) && Value(value) <= MAX_U128 && (allowZero || Value(value) > 0)
  {
    NormalizedIsCanonical(value);
    if IsDecimal(value) {
      var a := NormalizedDecimal(value);
      NormalizedDigits(value);
      ZeroIsZero();
      CanonicalOrder(a, "0");
      MaxU128Text();
      CanonicalOrder(a, MAX_U128_TEXT);
    }
  }

  // ---- addition ----------------------------------------------------------

  // The digit a column contributes; a shorter operand contributes nothing.
  function DigitAt(s: string, i: int): (d: nat)
    requires AllDigits(s) && -1 <= i < |s|
    ensures d < 10
  {
    if i < 0 then 0 else DigitOf(s[i])
  }

  function Previous(i: int): int {
    if i < 0 then i else i - 1
  }

  // The number the columns right of i spell.
  function ReadFrom(s: string, i: int): nat
    requires AllDigits(s) && -1 <= i < |s|
  {
    ValueFrom(s, i + 1)
  }

  function Prepend(d: nat, s: string): (r: string)
    requires d < 10 && AllDigits(s)
    ensures AllDigits(r) && |r| == |s| + 1 && r[0] == DigitChar(d)
    ensures Value(r) == Shift(d, |s|) + Value(s)
  {
    ValueOfCons(DigitChar(d), s);
    [DigitChar(d)] + s
  }

  function CarryWeight(carry: nat, position: nat): nat {
    if carry == 0 then 0 else Shift(1, position)
  }

  // The column total, the carry it hands on and the digit it writes.
  function ColumnTotal(a: string, i: int, b: string, j: int, carry: nat): (digit: nat)
    requires AllDigits(a) && AllDigits(b) && -1 <= i < |a| && -1 <= j < |b| && carry <= 1
    ensures digit < 20
  {
    carry + DigitAt(a, i) + DigitAt(b, j)
  }

  function CarryOf(digit: nat): (carry: nat)
    ensures carry <= 1
  {
    if digit > 9 then 1 else 0
  }

  // What the loop has established when columns i and j come next.
  ghost predicate AdditionState(a: string, i: int, b: string, j: int, carry: nat, sum: string) {
    && AllDigits(a) && AllDigits(b) && AllDigits(sum)
    && -1 <= i < |a| && -1 <= j < |b| && carry <= 1
    && (if i >= 0 then |sum| == |a| - 1 - i else |sum| >= |a|)
    && (if j >= 0 then |sum| == |b| - 1 - j else |sum| >= |b|)
    && (|sum| <= |a| || |sum| <= |b| || (sum[0] == '1' && carry == 0))
    && CarryWeight(carry, |sum|) + Value(sum) == ReadFrom(a, i) + ReadFrom(b, j)
  }

  /**
   * Schoolbook addition from the right. For two decimals the result is the
   * canonical string of the sum of the two numbers, at any length.
   */
  method AddDecimals(left: string, right: string) returns (sum: string)
    ensures sum == if IsDecimal(left) && IsDecimal(right) then Decimal(Value(left) + Value(right)) else ""
  {
    var a, b := NormalizedDecimal(left), NormalizedDecimal(right);
    NormalizedIsCanonical(left);
    NormalizedIsCanonical(right);
    if a == "" || b == "" {
      return "";
    }
    NormalizedDigits(left);
    NormalizedDigits(right);
    sum := AddColumns(a, b);
  }

  // What the columns from i and j leftwards still write in front of `sum`.
  function Columns(a: string, i: int, b: string, j: int, carry: nat, sum: string): string
    requires AllDigits(a) && AllDigits(b) && AllDigits(sum)
    requires -1 <= i < |a| && -1 <= j < |b| && carry <= 1
    decreases i + j + 2 + carry
  {
    if i < 0 && j < 0 && carry == 0 then sum
    else
      var digit := ColumnTotal(a, i, b, j, carry);
      Columns(a, Previous(i), b, Previous(j), CarryOf(digit), Prepend(digit % 10, sum))
  }

  lemma ColumnWritten(a: string, i: int, b: string, j: int, carry: nat, sum: string)
    requires AllDigits(a) && AllDigits(b) && AllDigits(sum)
    requires -1 <= i < |a| && -1 <= j < |b| && carry <= 1 && (i >= 0 || j >= 0 || carry > 0)
    ensures var digit := ColumnTotal(a, i, b, j, carry);
            Columns(a, i, b, j, carry, sum) ==
              Columns(a, Previous(i), b, Previous(j), CarryOf(digit), Prepend(digit % 10, sum))
  {
  }

  // Nothing is left to write.
  lemma AllWritten(a: string, b: string, sum: string)
    requires AllDigits(a) && AllDigits(b) && AllDigits(sum)
    ensures Columns(a, -1, b, -1, 0, sum) == sum
  {
  }

  // The loop of the addition, over two operands already normalized.
  method AddColumns(a: string, b: string) returns (sum: string)
    requires Canonical(a) && Canonical(b)
    ensures sum == Decimal(Value(a) + Value(b))
  {
    hide Columns, Decimal;
    var carry := 0;
    sum := "";
    var i, j := |a| - 1, |b| - 1;
    while i >= 0 || j >= 0 || carry > 0
      invariant -1 <= i < |a| && -1 <= j < |b| && 0 <= carry <= 1 && AllDigits(sum)
      invariant Columns(a, i, b, j, carry, sum) == Columns(a, |a| - 1, b, |b| - 1, 0, "")
      decreases i + j + 2 + carry
    {
      ColumnWritten(a, i, b, j, carry, sum);
      var digit := carry;
      if i >= 0 {
        digit := digit + DigitOf(a[i]);
        i := i - 1;
      }
      if j >= 0 {
        digit := digit + DigitOf(b[j]);
        j := j - 1;
      }
      carry := if digit > 9 then 1 else 0;
      sum := Prepend(digit % 10, sum);
    }
    AllWritten(a, b, sum);
    ColumnsAdd(a, |a| - 1, b, |b| - 1, 0, "");
    sum := if sum == "" then "0" else sum;
  }

  lemma {:induction false} ColumnsAdd(a: string, i: int, b: string, j: int, carry: nat, sum: string)
    requires Canonical(a) && Canonical(b) && AdditionState(a, i, b, j, carry, sum)
    ensures Columns(a, i, b, j, carry, sum) == Decimal(Value(a) + Value(b))
    ensures Columns(a, i, b, j, carry, sum) != ""
    decreases i + j + 2 + carry
  {
    if i < 0 && j < 0 && carry == 0 {
      ValueFromStart(a);
      ValueFromStart(b);
      SumIsCanonical(a, b, sum);
    } else {
      var carryOut, extended := AddColumn(a, i, b, j, carry, sum);
      ColumnsAdd(a, Previous(i), b, Previous(j), carryOut, extended);
    }
  }

  // One column of the addition keeps the sum of what has been read so far.
  lemma AddColumn(a: string, i: int, b: string, j: int, carry: nat, sum: string)
    returns (carryOut: nat, extended: string)
    requires AdditionState(a, i, b, j, carry, sum)
    requires i >= 0 || j >= 0 || carry > 0
    ensures carryOut == CarryOf(ColumnTotal(a, i, b, j, carry))
    ensures extended == Prepend(ColumnTotal(a, i, b, j, carry) % 10, sum)
    ensures AdditionState(a, Previous(i), b, Previous(j), carryOut, extended)
  {
    var digit := ColumnTotal(a, i, b, j, carry);
    carryOut, extended := CarryOf(digit), Prepend(digit % 10, sum);
    ColumnSum(a, i, b, j, carry, sum);
    if i < 0 && j < 0 {
      assert digit == 1 && extended[0] == '1';
    }
  }

  lemma ColumnSum(a: string, i: int, b: string, j: int, carry: nat, sum: string)
    requires AdditionState(a, i, b, j, carry, sum)
    ensures var digit := ColumnTotal(a, i, b, j, carry);
            CarryWeight(CarryOf(digit), |sum| + 1) + Value(Prepend(digit % 10, sum))
            == ReadFrom(a, Previous(i)) + ReadFrom(b, Previous(j))
  {
    ColumnValue(a, i, |sum|);
    ColumnValue(b, j, |sum|);
    ShiftedDigits(carry, DigitAt(a, i), DigitAt(b, j), |sum|);
    CarryOut(ColumnTotal(a, i, b, j, carry), |sum|);
  }

  lemma ColumnValue(s: string, i: int, position: nat)
    requires AllDigits(s) && -1 <= i < |s|
    requires i >= 0 ==> position == |s| - 1 - i
    ensures ReadFrom(s, Previous(i)) == Shift(DigitAt(s, i), position) + ReadFrom(s, i)
  {
    if i < 0 {
      ShiftOrders(0, 0, position);
    }
  }

  lemma ShiftedDigits(carry: nat, a: nat, b: nat, position: nat)
    requires carry <= 1
    ensures Shift(carry + a + b, position) == CarryWeight(carry, position) + Shift(a, position) + Shift(b, position)
  {
    ShiftAdds(carry, a, position);
    ShiftAdds(carry + a, b, position);
    ShiftOrders(0, 1, position);
  }

  lemma CarryOut(digit: nat, position: nat)
    requires digit < 20
    ensures Shift(digit, position) == CarryWeight(CarryOf(digit), position + 1) + Shift(digit % 10, position)
  {
    if digit > 9 {
      ShiftAdds(10, digit - 10, position);
      ShiftTen(1, position);
    }
  }

  lemma SumIsCanonical(a: string, b: string, sum: string)
    requires Canonical(a) && Canonical(b) && AllDigits(sum)
    requires Value(sum) == Value(a) + Value(b)
    requires |a| <= |sum| && |b| <= |sum|
    requires |sum| <= |a| || |sum| <= |b| || sum[0] == '1'
    ensures sum == Decimal(Value(a) + Value(b))
  {
    if sum[0] != '1' && |sum| > 1 {
      NoLeadingZero(if |sum| <= |a| then a else b, sum);
    }
    CanonicalIsDecimal(sum);
  }

  lemma NoLeadingZero(a: string, sum: string)
    requires Canonical(a) && AllDigits(sum) && |sum| == |a| > 1 && Value(a) <= Value(sum)
    ensures sum[0] != '0'
  {
    LeadingDigit(sum);
    LeadingDigit(a);
  }

  // ---- receipts ----------------------------------------------------------

  // The text fields of a result payload after String() has been applied.
  datatype Payload = Payload(address: string, accountId: string, amount: string, balanceBefore: string,
                             balanceAfter: string, txHash: string, retries: string)

  datatype Receipt = Receipt(address: string, accountId: string, amount: string, balanceBefore: string,
                             balanceAfter: string, txHash: string, retried: bool)

  // The characters JavaScript's trim() removes and /\s/ matches.
  predicate IsJsSpace(c: char) {
    var code := c as int;
    || 9 <= code <= 13 || code == 32 || code == 0xA0 || code == 0x1680 || 0x2000 <= code <= 0x200A
    || code in {0x2028, 0x2029, 0x202F, 0x205F, 0x3000, 0xFEFF}
  }

  function TrimStart(s: string): string {
    if s != "" && IsJsSpace(s[0]) then TrimStart(s[1..]) else s
  }

  function TrimEnd(s: string): string {
    if s != "" && IsJsSpace(s[|s| - 1]) then TrimEnd(s[..|s| - 1]) else s
  }

  function Trim(s: string): string {
    TrimEnd(TrimStart(s))
  }

  // Trimming takes away the white space at both ends, and nothing else.
  lemma TrimIsExact(s: string)
    ensures exists i, j | 0 <= i <= j <= |s| :: Trim(s) == s[i..j] && IsTrimmedTo(s, i, j)
  {
    var rest := TrimStart(s);
    var i := StartTrimmed(s);
    var j := EndTrimmed(rest);
    forall k | i + j <= k < |s|
      ensures IsJsSpace(s[k])
    {
      assert s[k] == rest[k - i];
    }
    assert IsTrimmedTo(s, i, i + j);
    assert rest[..j] == s[i..i + j];
  }

  predicate IsTrimmedTo(s: string, i: nat, j: nat) {
    && i <= j <= |s|
    && (forall k | 0 <= k < i :: IsJsSpace(s[k])) && (forall k | j <= k < |s| :: IsJsSpace(s[k]))
    && (i < j ==> !IsJsSpace(s[i]) && !IsJsSpace(s[j - 1]))
  }

  lemma {:induction false} StartTrimmed(s: string) returns (i: nat)
    ensures i <= |s| && TrimStart(s) == s[i..] && (forall k | 0 <= k < i :: IsJsSpace(s[k]))
    ensures i < |s| ==> !IsJsSpace(s[i])
  {
    hide IsJsSpace;
    if s != "" && IsJsSpace(s[0]) {
      var rest := StartTrimmed(s[1..]);
      i := rest + 1;
      assert forall k | 1 <= k < i :: s[k] == s[1..][k - 1];
    } else {
      i := 0;
    }
  }

  lemma {:induction false} EndTrimmed(s: string) returns (j: nat)
    ensures j <= |s| && TrimEnd(s) == s[..j] && (forall k | j <= k < |s| :: IsJsSpace(s[k]))
    ensures j > 0 ==> !IsJsSpace(s[j - 1])
    decreases |s|
  {
    hide IsJsSpace;
    if s != "" && IsJsSpace(s[|s| - 1]) {
      j := EndTrimmed(s[..|s| - 1]);
      assert forall k | j <= k < |s| - 1 :: s[k] == s[..|s| - 1][k];
    } else {
      j := |s|;
    }
  }

  predicate HashWellFormed(hash: string) {
    hash != "" && |hash| <= MAX_HASH_LENGTH && forall i | 0 <= i < |hash| :: !IsJsSpace(hash[i])
  }

  // When a payload proves one credit of exactly the prize, in numbers.
  predicate ProvesCredit(payload: Payload, prize: string) {
    && payload.address != ""
    && 0 < |Trim(payload.txHash)| <= 128
    && (forall i | 0 <= i < |Trim(payload.txHash)| :: !IsJsSpace(Trim(payload.txHash)[i]))
    && IsDecimal(payload.amount) && IsDecimal(payload.balanceBefore) && IsDecimal(payload.balanceAfter)
    && IsDecimal(prize)
    && Value(payload.balanceAfter) == Value(payload.balanceBefore) + Value(payload.amount)
    && Value(payload.amount) == Value(prize)
  }

  // The receipt of a proven payload, its figures as canonical decimals.
  function ProvenReceipt(payload: Payload): Receipt
    requires IsDecimal(payload.amount) && IsDecimal(payload.balanceBefore)
  {
    var before, amount := Value(payload.balanceBefore), Value(payload.amount);
    Receipt(payload.address, payload.accountId, Decimal(amount), Decimal(before), Decimal(before + amount),
            Trim(payload.txHash), IsDecimal(payload.retries) && Value(payload.retries) != 0)
  }

  lemma ZeroText(text: string)
    ensures (NormalizedDecimal(text) != "" && NormalizedDecimal(text) != "0") <==>
            IsDecimal(text) && Value(text) != 0
  {
    NormalizedIsCanonical(text);
    if IsDecimal(text) {
      NormalizedDigits(text);
      ZeroIsZero();
      CanonicalOrder(NormalizedDecimal(text), "0");
    }
  }

  // Comparing normalised texts is comparing values: two decimals normalise to
  // one text exactly when they are one number.
  lemma TextsDecide(a: string, b: string)
    requires IsDecimal(a) && IsDecimal(b)
    ensures NormalizedDecimal(a) == NormalizedDecimal(b) <==> Value(a) == Value(b)
  {
    NormalizedIsCanonical(a);
    NormalizedIsCanonical(b);
    assert Value(Decimal(Value(a))) == Value(a) && Value(Decimal(Value(b))) == Value(b);
  }

  /**
   * A receipt is shown for exactly the payloads that prove the credit, and its
   * figures are the canonical strings of the payload's numbers.
   */
  method ReceiptView(payload: Payload, expectedAmount: string) returns (view: Option<Receipt>)
    ensures view.Some? <==> ProvesCredit(payload, expectedAmount)
    ensures view.Some? ==> view.value == ProvenReceipt(payload)
  {
    hide NormalizedDecimal, Trim, Decimal, ValueTo, ZerosEnd, IsJsSpace;
    var prize := NormalizedDecimal(expectedAmount);
    var amount := NormalizedDecimal(payload.amount);
    var before := NormalizedDecimal(payload.balanceBefore);
    var after := NormalizedDecimal(payload.balanceAfter);
    var txHash := Trim(payload.txHash);
    NormalizedIsCanonical(expectedAmount);
    NormalizedIsCanonical(payload.amount);
    NormalizedIsCanonical(payload.balanceBefore);
    NormalizedIsCanonical(payload.balanceAfter);
    ZeroText(payload.retries);
    if payload.address == "" || amount == "" || before == "" || after == "" {
      return None;
    }
    if !HashWellFormed(txHash) {
      return None;
    }
    var sum := AddDecimals(before, amount);
    NormalizedIsCanonical(sum);
    TextsDecide(sum, payload.balanceAfter);
    if sum != after {
      return None;
    }
    if prize == "" {
      return None;
    }
    TextsDecide(payload.amount, expectedAmount);
    if amount != prize {
      return None;
    }
    var retries := NormalizedDecimal(payload.retries);
    return Some(Receipt(payload.address, payload.accountId, amount, before, after, txHash,
                        retries != "" && retries != "0"));
  }
}
