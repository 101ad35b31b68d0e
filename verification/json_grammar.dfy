/**
 * What the module's recursive-descent parser accepts, as functions of the
 * document and a cursor (faucet-module/src/lez_faucet_module.cpp).
 *
 * Escapes follow section 7 of RFC 8259 and encoded code points section 3 of
 * RFC 3629. Numbers are looser than section 6 of RFC 8259: leading zeros are
 * accepted, as in the source.
 */
module JsonGrammar {
  import opened Wrappers
  import opened Digits
  import opened JsonValues

  predicate IsSpace(c: char) {
    c == ' ' || c == '\t' || c == '\n' || c == '\r'
  }

  function SkipSpace(doc: string, i: nat): (at: nat)
    requires i <= |doc|
    ensures i <= at <= |doc|
    decreases |doc| - i
  {
    if i < |doc| && IsSpace(doc[i]) then SkipSpace(doc, i + 1) else i
  }

  // The text stands at position i of the document.
  predicate Stands(doc: string, i: nat, text: string) {
    i + |text| <= |doc| && forall k | 0 <= k < |text| :: doc[i + k] == text[k]
  }

  // ---- strings -----------------------------------------------------------

  function HexValue(c: char): Option<nat> {
    if '0' <= c <= '9' then Some(c as int - '0' as int)
    else if 'a' <= c <= 'f' then Some(c as int - 'a' as int + 10)
    else if 'A' <= c <= 'F' then Some(c as int - 'A' as int + 10)
    else None
  }

  // The first n of the four hex digits at i.
  function HexPrefix(doc: string, i: nat, n: nat): Option<nat>
    requires i + n <= |doc|
  {
    if n == 0 then Some(0)
    else
      var high, digit := HexPrefix(doc, i, n - 1), HexValue(doc[i + n - 1]);
      if high.None? || digit.None? then None else Some(high.value * 16 + digit.value)
  }

  function Hex4(doc: string, i: nat): (code: Option<nat>)
    ensures code.Some? ==> i + 4 <= |doc| && code.value < 0x10000
  {
    if i + 4 > |doc| then None
    else
      HexIsBounded(doc, i);
      HexPrefix(doc, i, 4)
  }

  lemma HexIsBounded(doc: string, i: nat)
    requires i + 4 <= |doc|
    ensures HexPrefix(doc, i, 4).Some? ==> HexPrefix(doc, i, 4).value < 0x10000
  {
    assert HexPrefix(doc, i, 1).Some? ==> HexPrefix(doc, i, 1).value < 0x10 by {
      assert HexPrefix(doc, i, 0) == Some(0);
    }
    assert HexPrefix(doc, i, 2).Some? ==> HexPrefix(doc, i, 2).value < 0x100;
    assert HexPrefix(doc, i, 3).Some? ==> HexPrefix(doc, i, 3).value < 0x1000;
  }

  predicate HighSurrogate(code: nat) {
    0xD800 <= code <= 0xDBFF
  }

  predicate LowSurrogate(code: nat) {
    0xDC00 <= code <= 0xDFFF
  }

  // The code point escaped at i, just past `\u`, and where its escape ends.
  function UnicodeEscape(doc: string, i: nat): (r: Option<(nat, nat)>)
    ensures r.Some? ==> i < r.value.1 <= |doc| && r.value.0 < 0x110000
  {
    var first := Hex4(doc, i);
    if first.None? then None
    else if HighSurrogate(first.value) && Stands(doc, i + 4, "\\u")
         && Hex4(doc, i + 6).Some? && LowSurrogate(Hex4(doc, i + 6).value) then
      Some((0x10000 + (first.value - 0xD800) * 0x400 + (Hex4(doc, i + 6).value - 0xDC00), i + 10))
    else Some((first.value, i + 4))
  }

  // Lead and continuation bytes of section 3 of RFC 3629; a lone surrogate
  // becomes the replacement character.
  function Utf8(point: nat): (bytes: string)
    requires point < 0x110000
    ensures 1 <= |bytes| <= 4 && forall k | 0 <= k < |bytes| :: bytes[k] as int < 0x100
  {
    var code := if 0xD800 <= point <= 0xDFFF then 0xFFFD else point;
    if code < 0x80 then [code as char]
    else if code < 0x800 then [(0xC0 + code / 0x40) as char, Continuation(code)]
    else if code < 0x10000 then
      [(0xE0 + code / 0x1000) as char, Continuation(code / 0x40), Continuation(code)]
    else
      [(0xF0 + code / 0x40000) as char, Continuation(code / 0x1000), Continuation(code / 0x40), Continuation(code)]
  }

  function Continuation(bits: nat): (byte: char)
    ensures 0x80 <= byte as int < 0xC0
  {
    (0x80 + bits % 0x40) as char
  }

  function ShortEscape(c: char): Option<char> {
    if c == '"' || c == '\\' || c == '/' then Some(c)
    else if c == 'b' then Some(8 as char)
    else if c == 'f' then Some(12 as char)
    else if c == 'n' then Some('\n')
    else if c == 'r' then Some('\r')
    else if c == 't' then Some('\t')
    else None
  }

  // Decodes from i, after the opening quote, behind what `out` already holds.
  function StringFrom(doc: string, i: nat, out: string): (r: Option<(string, nat)>)
    requires i <= |doc|
    ensures r.Some? ==> i < r.value.1 <= |doc|
    decreases |doc| - i
  {
    if i == |doc| then None
    else if doc[i] == '"' then Some((out, i + 1))
    else if (doc[i] as int) < 0x20 then None
    else if doc[i] != '\\' then StringFrom(doc, i + 1, out + [doc[i]])
    else if i + 1 == |doc| then None
    else if doc[i + 1] == 'u' then
      var escape := UnicodeEscape(doc, i + 2);
      if escape.None? then None
      else StringFrom(doc, escape.value.1, out + Utf8(escape.value.0))
    else
      var escape := ShortEscape(doc[i + 1]);
      if escape.None? then None else StringFrom(doc, i + 2, out + [escape.value])
  }

  // ---- numbers -----------------------------------------------------------

  function DigitsEnd(doc: string, i: nat): (end: nat)
    requires i <= |doc|
    ensures i <= end <= |doc|
    decreases |doc| - i
  {
    if i < |doc| && IsDigit(doc[i]) then DigitsEnd(doc, i + 1) else i
  }

  // Where a run of at least one digit ends.
  function DigitRun(doc: string, i: nat): (end: Option<nat>)
    requires i <= |doc|
    ensures end.Some? ==> i < end.value <= |doc|
  {
    if DigitsEnd(doc, i) == i then None else Some(DigitsEnd(doc, i))
  }

  function FractionEnd(doc: string, i: nat): (end: Option<nat>)
    requires i <= |doc|
    ensures end.Some? ==> i <= end.value <= |doc|
  {
    if i < |doc| && doc[i] == '.' then DigitRun(doc, i + 1) else Some(i)
  }

  function ExponentEnd(doc: string, i: nat): (end: Option<nat>)
    requires i <= |doc|
    ensures end.Some? ==> i <= end.value <= |doc|
  {
    if i < |doc| && (doc[i] == 'e' || doc[i] == 'E') then
      DigitRun(doc, if i + 1 < |doc| && (doc[i + 1] == '+' || doc[i + 1] == '-') then i + 2 else i + 1)
    else Some(i)
  }

  function NumberEnd(doc: string, i: nat): (end: Option<nat>)
    requires i <= |doc|
    ensures end.Some? ==> i < end.value <= |doc|
  {
    var whole := DigitRun(doc, if i < |doc| && doc[i] == '-' then i + 1 else i);
    if whole.None? then None
    else
      var fraction := FractionEnd(doc, whole.value);
      if fraction.None? then None else ExponentEnd(doc, fraction.value)
  }

  predicate IsNumberLexeme(lexeme: string) {
    NumberEnd(lexeme, 0) == Some(|lexeme|)
  }

  // ---- values ------------------------------------------------------------

  function LiteralAt(doc: string, i: nat, literal: string, value: Json): (r: Option<(Json, nat)>)
    requires |literal| > 0
    ensures r.Some? ==> i < r.value.1 <= |doc|
  {
    if Stands(doc, i, literal) then Some((value, i + |literal|)) else None
  }

  function ValueAt(doc: string, i: nat, depth: nat): (r: Option<(Json, nat)>)
    requires i <= |doc|
    ensures r.Some? ==> i < r.value.1 <= |doc|
    decreases |doc| - i, 1
  {
    if depth > MAX_DEPTH || i == |doc| then None
    else if doc[i] == '{' then
      var at := SkipSpace(doc, i + 1);
      if at < |doc| && doc[at] == '}' then Some((Object([]), at + 1)) else MembersAt(doc, at, depth, [])
    else if doc[i] == '[' then
      var at := SkipSpace(doc, i + 1);
      if at < |doc| && doc[at] == ']' then Some((Array([]), at + 1)) else ElementsAt(doc, at, depth, [])
    else if doc[i] == '"' then
      var text := StringFrom(doc, i + 1, "");
      if text.None? then None else Some((String(text.value.0), text.value.1))
    else if doc[i] == 't' then LiteralAt(doc, i, "true", Bool(true))
    else if doc[i] == 'f' then LiteralAt(doc, i, "false", Bool(false))
    else if doc[i] == 'n' then LiteralAt(doc, i, "null", Null)
    else
      var end := NumberEnd(doc, i);
      if end.None? then None else Some((Number(doc[i..end.value]), end.value))
  }

  // The rest of an array behind the elements already read.
  function ElementsAt(doc: string, i: nat, depth: nat, elements: seq<Json>): (r: Option<(Json, nat)>)
    requires i <= |doc|
    ensures r.Some? ==> i < r.value.1 <= |doc|
    decreases |doc| - i, 2
  {
    var start := SkipSpace(doc, i);
    var element := ValueAt(doc, start, depth + 1);
    if element.None? then None
    else
      var read := elements + [element.value.0];
      var at := SkipSpace(doc, element.value.1);
      if at == |doc| then None
      else if doc[at] == ',' then ElementsAt(doc, at + 1, depth, read)
      else if doc[at] == ']' then Some((Array(read), at + 1))
      else None
  }

  // A member's key and the position of its value, behind the colon.
  function KeyAt(doc: string, i: nat): (r: Option<(string, nat)>)
    requires i <= |doc|
    ensures r.Some? ==> i < r.value.1 <= |doc|
  {
    var start := SkipSpace(doc, i);
    if start == |doc| || doc[start] != '"' then None
    else
      var key := StringFrom(doc, start + 1, "");
      if key.None? then None
      else
        var colon := SkipSpace(doc, key.value.1);
        if colon == |doc| || doc[colon] != ':' then None
        else Some((key.value.0, SkipSpace(doc, colon + 1)))
  }

  function MembersAt(doc: string, i: nat, depth: nat, members: seq<Member>): (r: Option<(Json, nat)>)
    requires i <= |doc|
    ensures r.Some? ==> i < r.value.1 <= |doc|
    decreases |doc| - i, 2
  {
    var key := KeyAt(doc, i);
    if key.None? then None
    else
      var value := ValueAt(doc, key.value.1, depth + 1);
      if value.None? then None
      else
        var read := SetMember(members, key.value.0, value.value.0);
        var at := SkipSpace(doc, value.value.1);
        if at == |doc| then None
        else if doc[at] == ',' then MembersAt(doc, at + 1, depth, read)
        else if doc[at] == '}' then Some((Object(read), at + 1))
        else None
  }

  function Parse(doc: string): Option<Json> {
    var value := ValueAt(doc, SkipSpace(doc, 0), 0);
    if value.Some? && SkipSpace(doc, value.value.1) == |doc| then Some(value.value.0) else None
  }
}
