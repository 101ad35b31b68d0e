/**
 * Which numbers the parser accepts, against section 6 of RFC 8259
 * (faucet-module/src/lez_faucet_module.cpp:498-535).
 */
module JsonNumbers {
  import opened Wrappers
  import opened Digits
  import opened JsonValues
  import opened JsonGrammar
  import opened JsonRoundTrip

  // ---- the standard's grammar, part by part --------------------------------------------

  // One digit or more, from a up to b.
  predicate DigitsSpan(s: string, a: nat, b: nat) {
    a < b <= |s| && forall k | a <= k < b :: IsDigit(s[k])
  }

  // int = zero / ( digit1-9 *DIGIT )
  predicate IsInt(s: string, a: nat, b: nat) {
    DigitsSpan(s, a, b) && (s[a] == '0' ==> b == a + 1)
  }

  // frac = decimal-point 1*DIGIT, or nothing
  predicate IsFraction(s: string, a: nat, b: nat) {
    a == b || (a < |s| && s[a] == '.' && DigitsSpan(s, a + 1, b))
  }

  // exp = e [ minus / plus ] 1*DIGIT, or nothing
  predicate IsExponent(s: string, a: nat, b: nat) {
    || a == b
    || (a < |s| && (s[a] == 'e' || s[a] == 'E')
        && (DigitsSpan(s, a + 1, b)
            || (a + 1 < |s| && (s[a + 1] == '+' || s[a + 1] == '-') && DigitsSpan(s, a + 2, b))))
  }

  // Where the integer part starts: behind a minus sign, if there is one.
  function IntStart(s: string): nat {
    if |s| > 0 && s[0] == '-' then 1 else 0
  }

  // number = [ minus ] int [ frac ] [ exp ]
  predicate IsRfcNumber(s: string) {
    exists whole, fraction | 0 <= whole <= |s| && 0 <= fraction <= |s| ::
      IsInt(s, IntStart(s), whole) && IsFraction(s, whole, fraction) && IsExponent(s, fraction, |s|)
  }

  // A zero with another digit behind it opens the integer part.
  predicate HasLeadingZero(s: string) {
    var i := IntStart(s);
    i + 1 < |s| && s[i] == '0' && IsDigit(s[i + 1])
  }

  // ---- the scanner against it ---------------------------------------------------------------

  lemma {:induction false} ScanSpans(s: string, i: nat)
    requires i <= |s|
    ensures DigitRun(s, i).Some? ==> DigitsSpan(s, i, DigitRun(s, i).value)
    ensures DigitsEnd(s, i) > i ==> DigitsSpan(s, i, DigitsEnd(s, i))
    decreases |s| - i
  {
    if i < |s| && IsDigit(s[i]) {
      ScanSpans(s, i + 1);
    }
  }

  // A run that something else ends is scanned to its end.
  lemma {:induction false} SpanScans(s: string, a: nat, b: nat)
    requires DigitsSpan(s, a, b) && (b < |s| ==> !IsDigit(s[b]))
    ensures DigitRun(s, a) == Some(b) && DigitsEnd(s, a) == b
    decreases b - a
  {
    if a + 1 < b {
      SpanScans(s, a + 1, b);
    } else {
      assert DigitsEnd(s, b) == b;
      assert DigitsEnd(s, a) == DigitsEnd(s, a + 1);
    }
  }

  lemma AcceptedHasParts(s: string)
    requires IsNumberLexeme(s)
    ensures exists whole, fraction | 0 <= whole <= |s| && 0 <= fraction <= |s| ::
              DigitsSpan(s, IntStart(s), whole) && IsFraction(s, whole, fraction) && IsExponent(s, fraction, |s|)
  {
    var i := IntStart(s);
    var whole := DigitRun(s, i).value;
    var fraction := FractionEnd(s, whole).value;
    ScanSpans(s, i);
    if whole < |s| { ScanSpans(s, whole + 1); }
    if fraction < |s| { ScanSpans(s, fraction + 1); }
    if fraction + 1 < |s| { ScanSpans(s, fraction + 2); }
    assert IsFraction(s, whole, fraction) && IsExponent(s, fraction, |s|);
  }

  lemma PartsAreAccepted(s: string, whole: nat, fraction: nat)
    requires DigitsSpan(s, IntStart(s), whole) && fraction <= |s|
    requires IsFraction(s, whole, fraction) && IsExponent(s, fraction, |s|)
    ensures IsNumberLexeme(s)
  {
    SpanScans(s, IntStart(s), whole);
    if whole < fraction {
      SpanScans(s, whole + 1, fraction);
    }
    if fraction < |s| {
      SpanScans(s, if DigitsSpan(s, fraction + 1, |s|) then fraction + 1 else fraction + 2, |s|);
    }
  }

  /**
   * The parser accepts every number of the standard, and beyond them exactly
   * the lexemes whose integer part opens with a superfluous zero.
   */
  lemma LooserOnlyByLeadingZeros(s: string)
    ensures IsRfcNumber(s) <==> IsNumberLexeme(s) && !HasLeadingZero(s)
  {
    if IsRfcNumber(s) {
      var whole, fraction :| 0 <= whole <= |s| && 0 <= fraction <= |s| && IsInt(s, IntStart(s), whole)
                             && IsFraction(s, whole, fraction) && IsExponent(s, fraction, |s|);
      PartsAreAccepted(s, whole, fraction);
    }
    if IsNumberLexeme(s) && !HasLeadingZero(s) {
      AcceptedHasParts(s);
    }
  }

  // The looseness is real: "01" is read as a number and kept as it stands,
  // and the standard has no such number.
  lemma LeadingZeroIsAccepted()
    ensures Parse("01") == Some(Number("01")) && IsNumberLexeme("01") && !IsRfcNumber("01")
  {
    var s := "01";
    assert DigitsSpan(s, 0, 2);
    PartsAreAccepted(s, 2, 2);
    LooserOnlyByLeadingZeros(s);
    ParseDump(Number(s));
  }
}
