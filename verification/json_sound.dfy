/**
 * What a successful parse guarantees, and what the escapes of a string mean.
 */
module JsonSound {
  import opened Wrappers
  import opened Digits
  import opened JsonValues
  import opened JsonGrammar
  import opened JsonRoundTrip

  // ---- every parsed value can be printed and read again ----------------------

  // A value at this depth keeps the nesting bound.
  ghost predicate Sound(json: Json, depth: nat) {
    WellFormed(json) && depth + Height(json) <= MAX_DEPTH
  }

  // The text stands in the document at i.
  ghost predicate Within(text: string, doc: string, i: nat) {
    i + |text| <= |doc| && forall k | 0 <= k < |text| :: text[k] == doc[i + k]
  }

  lemma {:induction false} DigitsEndInside(doc: string, i: nat, text: string, k: nat)
    requires Within(text, doc, i) && k <= |text| && DigitsEnd(doc, i + k) <= i + |text|
    ensures i + DigitsEnd(text, k) == DigitsEnd(doc, i + k)
    decreases |text| - k
  {
    if k < |text| && IsDigit(text[k]) {
      DigitsEndInside(doc, i, text, k + 1);
      assert DigitsEnd(doc, i + k) == DigitsEnd(doc, i + (k + 1));
    }
  }

  lemma ExponentInside(doc: string, i: nat, text: string, k: nat)
    requires Within(text, doc, i) && k <= |text| && ExponentEnd(doc, i + k) == Some(i + |text|)
    ensures ExponentEnd(text, k) == Some(|text|)
  {
    if k < |text| {
      var signed := i + k + 1 < |doc| && (doc[i + k + 1] == '+' || doc[i + k + 1] == '-');
      DigitsEndInside(doc, i, text, if signed then k + 2 else k + 1);
    }
  }

  lemma FractionInside(doc: string, i: nat, text: string, k: nat)
    requires Within(text, doc, i) && k <= |text|
    requires FractionEnd(doc, i + k).Some? && FractionEnd(doc, i + k).value <= i + |text|
    ensures FractionEnd(text, k) == Some(FractionEnd(doc, i + k).value - i)
  {
    if k < |text| && text[k] == '.' {
      DigitsEndInside(doc, i, text, k + 1);
    }
  }

  lemma NumberInside(doc: string, i: nat, text: string)
    requires Within(text, doc, i) && NumberEnd(doc, i) == Some(i + |text|)
    ensures IsNumberLexeme(text)
  {
    hide FractionEnd, ExponentEnd;
    var sign := if doc[i] == '-' then 1 else 0;
    assert text[0] == doc[i];
    var whole := DigitsEnd(doc, i + sign);
    DigitsEndInside(doc, i, text, sign);
    FractionInside(doc, i, text, whole - i);
    ExponentInside(doc, i, text, FractionEnd(doc, whole).value - i);
  }

  // The slice a number is read from is an accepted number by itself.
  lemma LexemeIsNumber(doc: string, i: nat)
    requires i <= |doc| && NumberEnd(doc, i).Some?
    ensures IsNumberLexeme(doc[i..NumberEnd(doc, i).value])
  {
    hide NumberEnd, IsNumberLexeme;
    NumberInside(doc, i, doc[i..NumberEnd(doc, i).value]);
  }

  lemma {:induction false} ElementsFit(json: Json, i: nat, depth: nat)
    requires json.Array? && i <= |json.elements| && depth <= MAX_DEPTH
    requires forall k | 0 <= k < |json.elements| :: Sound(json.elements[k], depth + 1)
    ensures depth + ElementsHeight(json, i) <= MAX_DEPTH
    decreases |json.elements| - i
  {
    if i < |json.elements| {
      ElementsFit(json, i + 1, depth);
      assert Sound(json.elements[i], depth + 1);
    }
  }

  lemma {:induction false} MembersFit(json: Json, i: nat, depth: nat)
    requires json.Object? && i <= |json.members| && depth <= MAX_DEPTH
    requires forall k | 0 <= k < |json.members| :: Sound(json.members[k].value, depth + 1)
    ensures depth + MembersHeight(json, i) <= MAX_DEPTH
    decreases |json.members| - i
  {
    if i < |json.members| {
      MembersFit(json, i + 1, depth);
      assert Sound(json.members[i].value, depth + 1);
    }
  }

  lemma SetKeepsSound(members: seq<Member>, key: string, value: Json, depth: nat)
    requires UniqueKeys(members) && Sound(value, depth)
    requires forall k | 0 <= k < |members| :: Sound(members[k].value, depth)
    ensures UniqueKeys(SetMember(members, key, value))
    ensures forall k | 0 <= k < |SetMember(members, key, value)| :: Sound(SetMember(members, key, value)[k].value,
         depth)
  {
    hide Sound;
    SetThenAt(members, key, value, key);
  }

  lemma {:induction false} ValueSound(doc: string, i: nat, depth: nat)
    requires i <= |doc| && ValueAt(doc, i, depth).Some?
    ensures Sound(ValueAt(doc, i, depth).value.0, depth)
    decreases |doc| - i, 1
  {
    hide NumberEnd, StringFrom, MembersAt, ElementsAt;
    if doc[i] == '{' {
      var at := SkipSpace(doc, i + 1);
      if !(at < |doc| && doc[at] == '}') {
        MembersSound(doc, at, depth, []);
      }
    } else if doc[i] == '[' {
      var at := SkipSpace(doc, i + 1);
      if !(at < |doc| && doc[at] == ']') {
        ElementsSound(doc, at, depth, []);
      }
    } else if doc[i] !in {'"', 't', 'f', 'n'} {
      LexemeIsNumber(doc, i);
    }
  }

  lemma {:induction false} ElementsSound(doc: string, i: nat, depth: nat, elements: seq<Json>)
    requires i <= |doc| && depth <= MAX_DEPTH && ElementsAt(doc, i, depth, elements).Some?
    requires forall k | 0 <= k < |elements| :: Sound(elements[k], depth + 1)
    ensures Sound(ElementsAt(doc, i, depth, elements).value.0, depth)
    decreases |doc| - i, 2
  {
    hide ValueAt, Height;
    var start := SkipSpace(doc, i);
    var element := ValueAt(doc, start, depth + 1).value;
    ValueSound(doc, start, depth + 1);
    var read := elements + [element.0];
    var at := SkipSpace(doc, element.1);
    if doc[at] == ',' {
      ElementsSound(doc, at + 1, depth, read);
    } else {
      ElementsFit(Array(read), 0, depth);
      ArraySound(read, depth);
    }
  }

  lemma ArraySound(elements: seq<Json>, depth: nat)
    requires depth + ElementsHeight(Array(elements), 0) <= MAX_DEPTH
    requires forall k | 0 <= k < |elements| :: Sound(elements[k], depth + 1)
    ensures Sound(Array(elements), depth)
  {
    assert forall k | 0 <= k < |elements| :: Sound(elements[k], depth + 1) && WellFormed(elements[k]);
  }

  lemma ObjectSound(members: seq<Member>, depth: nat)
    requires depth + MembersHeight(Object(members), 0) <= MAX_DEPTH && UniqueKeys(members)
    requires forall k | 0 <= k < |members| :: Sound(members[k].value, depth + 1)
    ensures Sound(Object(members), depth)
  {
    assert forall k | 0 <= k < |members| :: Sound(members[k].value, depth + 1) && WellFormed(members[k].value);
  }

  lemma {:induction false} MembersSound(doc: string, i: nat, depth: nat, members: seq<Member>)
    requires i <= |doc| && depth <= MAX_DEPTH && MembersAt(doc, i, depth, members).Some? && UniqueKeys(members)
    requires forall k | 0 <= k < |members| :: Sound(members[k].value, depth + 1)
    ensures Sound(MembersAt(doc, i, depth, members).value.0, depth)
    decreases |doc| - i, 2
  {
    hide ValueAt, KeyAt, Height, SetMember;
    var key := KeyAt(doc, i).value;
    var value := ValueAt(doc, key.1, depth + 1).value;
    ValueSound(doc, key.1, depth + 1);
    SetKeepsSound(members, key.0, value.0, depth + 1);
    var read := SetMember(members, key.0, value.0);
    var at := SkipSpace(doc, value.1);
    if doc[at] == ',' {
      MembersSound(doc, at + 1, depth, read);
    } else {
      MembersFit(Object(read), 0, depth);
      ObjectSound(read, depth);
    }
  }

  /**
   * Whatever text was parsed, the value it became is printed and read back
   * unchanged: re-serializing is stable after the first parse.
   */
  lemma ReprintIsStable(doc: string)
    requires Parse(doc).Some?
    ensures WellFormed(Parse(doc).value) && Height(Parse(doc).value) <= MAX_DEPTH
    ensures Parse(Dump(Parse(doc).value)) == Parse(doc)
  {
    hide ValueAt, Dump;
    ValueSound(doc, SkipSpace(doc, 0), 0);
    ParseDump(Parse(doc).value);
  }

  // ---- code points -----------------------------------------------------------

  // Section 3 of RFC 3629, read in the other direction.
  function Utf8Decode(bytes: string): nat
    requires 1 <= |bytes| <= 4 && (bytes[0] as int) >= UTF8_LEADS[|bytes| - 1]
    requires forall k | 1 <= k < |bytes| :: 0x80 <= bytes[k] as int
  {
    var lead := bytes[0] as int - UTF8_LEADS[|bytes| - 1];
    if |bytes| == 1 then lead
    else if |bytes| == 2 then lead * 0x40 + Bits(bytes[1])
    else if |bytes| == 3 then (lead * 0x40 + Bits(bytes[1])) * 0x40 + Bits(bytes[2])
    else ((lead * 0x40 + Bits(bytes[1])) * 0x40 + Bits(bytes[2])) * 0x40 + Bits(bytes[3])
  }

  const UTF8_LEADS: seq<nat> := [0, 0xC0, 0xE0, 0xF0]

  function Bits(byte: char): nat
    requires 0x80 <= byte as int
  {
    byte as int - 0x80
  }

  predicate Surrogate(point: nat) {
    0xD800 <= point <= 0xDFFF
  }

  // Every scalar value survives its encoding, and a lone surrogate becomes
  // the replacement character.
  lemma Utf8IsExact(point: nat)
    requires point < 0x110000
    ensures var bytes := Utf8(point);
            && bytes[0] as int >= UTF8_LEADS[|bytes| - 1]
            && Utf8Decode(bytes) == if Surrogate(point) then 0xFFFD else point
  {
    var code := if Surrogate(point) then 0xFFFD else point;
    assert code / 0x1000 == code / 0x40 / 0x40;
    assert code / 0x40000 == code / 0x40 / 0x40 / 0x40;
  }

  // The short escapes of section 7 of RFC 8259, and there are no others.
  lemma ShortEscapesDecode(doc: string, i: nat, out: string)
    requires i + 1 < |doc| && doc[i] == '\\' && doc[i + 1] != 'u'
    ensures var (letters, meant) := ("\"\\/bfnrt", [0x22, 0x5C, 0x2F, 0x08, 0x0C, 0x0A, 0x0D, 0x09]);
            && (forall k | 0 <= k < 8 && letters[k] == doc[i + 1] ::
                  StringFrom(doc, i, out) == StringFrom(doc, i + 2, out + [meant[k] as char]))
            && (doc[i + 1] !in letters ==> StringFrom(doc, i, out).None?)
  {
    assert ShortEscape(doc[i + 1]).None? ==> StringFrom(doc, i, out).None?;
  }

  // The two halves of an escaped code point beyond the basic plane.
  function HighHalf(point: nat): nat
    requires 0x10000 <= point < 0x110000
  {
    0xD800 + (point - 0x10000) / 0x400
  }

  function LowHalf(point: nat): nat
    requires 0x10000 <= point < 0x110000
  {
    0xDC00 + (point - 0x10000) % 0x400
  }

  // An escaped surrogate pair decodes to the one code point it stands for.
  lemma SurrogatePairDecodes(doc: string, i: nat, point: nat)
    requires 0x10000 <= point < 0x110000
    requires Hex4(doc, i) == Some(HighHalf(point))
    requires Stands(doc, i + 4, "\\u") && Hex4(doc, i + 6) == Some(LowHalf(point))
    ensures UnicodeEscape(doc, i) == Some((point, i + 10))
  {
  }
}
