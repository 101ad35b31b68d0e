/**
 * Reading what was written gives the value back: as the module prints it, or
 * with white space between its tokens and keys that repeat.
 *
 * The parser meets a written value at some position of a longer document, so
 * every lemma speaks of a document in which the text stands at that position.
 */
module JsonRoundTrip {
  import opened Wrappers
  import opened Digits
  import opened JsonValues
  import opened JsonGrammar

  // The values the module builds: keys unique, numbers in an accepted spelling.
  ghost predicate WellFormed(json: Json)
    decreases json
  {
    match json
    case Number(lexeme) => IsNumberLexeme(lexeme)
    case Array(elements) => forall i | 0 <= i < |elements| :: WellFormed(elements[i])
    case Object(members) => UniqueKeys(members) && forall i | 0 <= i < |members| :: WellFormed(members[i].value)
    case _ => true
  }

  // Numbers in an accepted spelling; keys may repeat.
  ghost predicate Spelled(json: Json)
    decreases json
  {
    match json
    case Number(lexeme) => IsNumberLexeme(lexeme)
    case Array(elements) => forall i | 0 <= i < |elements| :: Spelled(elements[i])
    case Object(members) => forall i | 0 <= i < |members| :: Spelled(members[i].value)
    case _ => true
  }

  // ---- a value written with white space between its tokens --------------------

  // Space, tab, line feed and carriage return, section 2 of RFC 8259.
  predicate IsPad(ws: string) {
    forall k | 0 <= k < |ws| ::
      ws[k] as int == 0x20 || ws[k] as int == 0x09 || ws[k] as int == 0x0A || ws[k] as int == 0x0D
  }

  function Spread(json: Json, ws: string): string
    decreases json, 1, 0
  {
    match json
    case Array(elements) => "[" + (ws + SpreadElements(json, ws, 0))
    case Object(members) => "{" + (ws + SpreadMembers(json, ws, 0))
    case _ => Dump(json)
  }

  function SpreadElements(json: Json, ws: string, i: nat): string
    requires json.Array? && i <= |json.elements|
    decreases json, 0, |json.elements| - i
  {
    if i == |json.elements| then "]"
    else
      var rest := Spread(json.elements[i], ws) + (ws + SpreadElements(json, ws, i + 1));
      if i == 0 then rest else "," + (ws + rest)
  }

  function SpreadMembers(json: Json, ws: string, i: nat): string
    requires json.Object? && i <= |json.members|
    decreases json, 0, |json.members| - i
  {
    if i == |json.members| then "}"
    else
      var rest := SpreadMember(json, ws, i) + (ws + SpreadMembers(json, ws, i + 1));
      if i == 0 then rest else "," + (ws + rest)
  }

  function SpreadMember(json: Json, ws: string, i: nat): string
    requires json.Object? && i < |json.members|
    decreases json, 0, 0
  {
    Quoted(json.members[i].key) + (ws + (":" + (ws + Spread(json.members[i].value, ws))))
  }

  // ---- what keys that repeat come to -------------------------------------------

  function Merged(json: Json): Json
    decreases json, 1, 0
  {
    match json
    case Array(elements) => Array(MergedElements(json, |elements|))
    case Object(members) => Object(MergedMembers(json, |members|))
    case _ => json
  }

  function MergedElements(json: Json, n: nat): (merged: seq<Json>)
    requires json.Array? && n <= |json.elements|
    ensures |merged| == n && forall k | 0 <= k < n :: merged[k] == Merged(json.elements[k])
    decreases json, 0, n
  {
    if n == 0 then [] else MergedElements(json, n - 1) + [Merged(json.elements[n - 1])]
  }

  function MergedMembers(json: Json, n: nat): seq<Member>
    requires json.Object? && n <= |json.members|
    decreases json, 0, n
  {
    if n == 0 then []
    else SetMember(MergedMembers(json, n - 1), json.members[n - 1].key, Merged(json.members[n - 1].value))
  }

  // The last of equal keys gives the value.
  lemma {:induction false} LastKeyWins(json: Json, n: nat, last: nat)
    requires json.Object? && last < n <= |json.members|
    requires forall k | last < k < n :: json.members[k].key != json.members[last].key
    ensures UniqueKeys(MergedMembers(json, n))
    ensures At(Object(MergedMembers(json, n)), json.members[last].key) == Merged(json.members[last].value)
    decreases n
  {
    MergedAreUnique(json, n - 1);
    var member := json.members[n - 1];
    SetThenAt(MergedMembers(json, n - 1), member.key, Merged(member.value), json.members[last].key);
    if last < n - 1 {
      LastKeyWins(json, n - 1, last);
    }
  }

  lemma {:induction false} MergedAreUnique(json: Json, n: nat)
    requires json.Object? && n <= |json.members|
    ensures UniqueKeys(MergedMembers(json, n))
  {
    if n > 0 {
      MergedAreUnique(json, n - 1);
      var member := json.members[n - 1];
      SetThenAt(MergedMembers(json, n - 1), member.key, Merged(member.value), member.key);
    }
  }

  // The keys of the first n members, each in the place where it came first.
  ghost predicate Placed(members: seq<Member>, n: nat, merged: seq<Member>) {
    && n <= |members|
    && (forall i | 0 <= i < |merged| :: IndexOf(members, merged[i].key, 0) < n)
    && (forall i, j | 0 <= i < j < |merged| ::
          IndexOf(members, merged[i].key, 0) < IndexOf(members, merged[j].key, 0))
    && (forall k | 0 <= k < n :: IndexOf(merged, members[k].key, 0) < |merged|)
  }

  lemma {:induction false} FirstKeyPlaces(json: Json, n: nat)
    requires json.Object? && n <= |json.members|
    ensures Placed(json.members, n, MergedMembers(json, n))
  {
    hide Placed, SetMember;
    if n > 0 {
      FirstKeyPlaces(json, n - 1);
      PlacedNext(json.members, n, MergedMembers(json, n - 1), Merged(json.members[n - 1].value));
    } else {
      NothingPlaced(json.members);
    }
  }

  lemma NothingPlaced(members: seq<Member>)
    ensures Placed(members, 0, [])
  {
  }

  lemma KeysAfterSet(members: seq<Member>, key: string, value: Json)
    ensures var merged := SetMember(members, key, value);
            && |merged| == (if IndexOf(members, key, 0) == |members| then |members| + 1 else |members|)
            && (forall i | 0 <= i < |members| :: merged[i].key == members[i].key)
            && (|merged| > |members| ==> merged[|members|].key == key)
  {
  }

  lemma PlacedNext(members: seq<Member>, n: nat, before: seq<Member>, value: Json)
    requires 0 < n <= |members| && Placed(members, n - 1, before)
    ensures Placed(members, n, SetMember(before, members[n - 1].key, value))
  {
    hide SetMember, IndexOf;
    var key := members[n - 1].key;
    var merged := SetMember(before, key, value);
    KeysAfterSet(before, key, value);
    if |merged| > |before| {
      FirstOf(members, key, n - 1);
      NewKeyIsLast(members, n, before, IndexOf(members, key, 0));
    }
    forall k | 0 <= k < n
      ensures IndexOf(merged, members[k].key, 0) < |merged|
    {
      StaysListed(before, key, value, members[k].key);
    }
    OrderKept(members, n, before, merged);
  }

  lemma NewKeyIsLast(members: seq<Member>, n: nat, before: seq<Member>, first: nat)
    requires 0 < n <= |members| && first == IndexOf(members, members[n - 1].key, 0)
    requires IndexOf(before, members[n - 1].key, 0) == |before|
    requires first < n - 1 ==> IndexOf(before, members[first].key, 0) < |before|
    ensures first >= n - 1
  {
    hide IndexOf;
  }

  lemma OrderKept(members: seq<Member>, n: nat, before: seq<Member>, merged: seq<Member>)
    requires 0 < n <= |members| && Placed(members, n - 1, before) && |before| <= |merged| <= |before| + 1
    requires forall i | 0 <= i < |before| :: merged[i].key == before[i].key
    requires |merged| > |before| ==> IndexOf(members, merged[|before|].key, 0) == n - 1
    ensures forall i | 0 <= i < |merged| :: IndexOf(members, merged[i].key, 0) < n
    ensures forall i, j | 0 <= i < j < |merged| ::
              IndexOf(members, merged[i].key, 0) < IndexOf(members, merged[j].key, 0)
  {
    hide IndexOf;
    forall i, j | 0 <= i < j < |merged|
      ensures IndexOf(members, merged[i].key, 0) < IndexOf(members, merged[j].key, 0)
    {
      assert IndexOf(members, before[i].key, 0) < n - 1;
    }
  }

  lemma FirstOf(members: seq<Member>, key: string, k: nat)
    requires k < |members| && members[k].key == key
    ensures IndexOf(members, key, 0) <= k
  {
  }

  lemma StaysListed(members: seq<Member>, key: string, value: Json, other: string)
    requires other == key || IndexOf(members, other, 0) < |members|
    ensures IndexOf(SetMember(members, key, value), other, 0) < |SetMember(members, key, value)|
  {
    var updated, at := SetMember(members, key, value), IndexOf(members, other, 0);
    assert other != key ==> updated[at].key == other;
    assert other == key ==> updated[at].key == other;
  }

  lemma StandsInParts(doc: string, i: nat, first: string, second: string)
    ensures Stands(doc, i, first + second) <==> Stands(doc, i, first) && Stands(doc, i + |first|, second)
  {
    var both := first + second;
    if Stands(doc, i, both) {
      assert forall k | 0 <= k < |first| :: both[k] == first[k];
      assert forall k | 0 <= k < |second| ::
          both[|first| + k] == second[k] && doc[i + (|first| + k)] == both[|first| + k];
    }
  }

  // ---- strings -----------------------------------------------------------

  lemma HexDigitBack(n: nat)
    requires n < 16
    ensures HexValue(HexDigit(n)) == Some(n)
  {
  }

  lemma ControlEscapeBack(doc: string, i: nat, c: char)
    requires c as int < 0x20
    requires Stands(doc, i, ['0', '0', HexDigit(c as int / 16), HexDigit(c as int % 16)])
    ensures UnicodeEscape(doc, i) == Some((c as nat, i + 4)) && Utf8(c as nat) == [c]
  {
    var text := ['0', '0', HexDigit(c as int / 16), HexDigit(c as int % 16)];
    assert doc[i] == text[0] && doc[i + 1] == text[1] && doc[i + 2] == text[2] && doc[i + 3] == text[3];
    HexDigitBack(c as int / 16);
    HexDigitBack(c as int % 16);
    assert HexPrefix(doc, i, 0) == Some(0);
    assert HexPrefix(doc, i, 1) == Some(0);
    assert HexPrefix(doc, i, 2) == Some(0);
    assert HexPrefix(doc, i, 3) == Some(c as int / 16);
    assert HexPrefix(doc, i, 4) == Some(c as int);
  }

  // The decoder undoes the encoder on every character.
  lemma CharacterBack(doc: string, i: nat, c: char, out: string)
    requires Stands(doc, i, Escaped(c))
    ensures StringFrom(doc, i, out) == StringFrom(doc, i + |Escaped(c)|, out + [c])
  {
    var escaped := Escaped(c);
    assert doc[i] == escaped[0];
    if |escaped| == 2 {
      assert doc[i + 1] == escaped[1];
    } else if |escaped| == 6 {
      var digits := ['0', '0', HexDigit(c as int / 16), HexDigit(c as int % 16)];
      assert escaped == "\\u" + digits;
      StandsInParts(doc, i, "\\u", digits);
      assert doc[i + 1] == escaped[1];
      ControlEscapeBack(doc, i + 2, c);
    }
  }

  lemma {:induction false} StringBack(text: string, k: nat, doc: string, i: nat)
    requires k <= |text| && Stands(doc, i, EscapedFrom(text, k))
    ensures StringFrom(doc, i, text[..k]) == Some((text, i + |EscapedFrom(text, k)|))
    decreases |text| - k
  {
    hide Escaped, UnicodeEscape, ShortEscape;
    if k == |text| {
      assert doc[i] == EscapedFrom(text, k)[0];
      assert text[..k] == text;
    } else {
      var escaped, rest := Escaped(text[k]), EscapedFrom(text, k + 1);
      StandsInParts(doc, i, escaped, rest);
      CharacterBack(doc, i, text[k], text[..k]);
      assert text[..k] + [text[k]] == text[..k + 1];
      StringBack(text, k + 1, doc, i + |escaped|);
    }
  }

  lemma QuotedBack(text: string, doc: string, i: nat)
    requires Stands(doc, i, Quoted(text))
    ensures i < |doc| && doc[i] == '"'
    ensures StringFrom(doc, i + 1, "") == Some((text, i + |Quoted(text)|))
  {
    StandsInParts(doc, i, "\"", EscapedFrom(text, 0));
    assert doc[i] == "\""[0];
    StringBack(text, 0, doc, i + 1);
    assert text[..0] == "";
  }

  // ---- numbers -----------------------------------------------------------

  // What may follow a number inside a written document.
  predicate Delimited(doc: string, i: nat) {
    i == |doc| || (i < |doc| && (doc[i] in {',', ']', '}'} || IsSpace(doc[i])))
  }

  lemma {:induction false} DigitsEndBack(lexeme: string, k: nat, doc: string, i: nat)
    requires k <= |lexeme| && Stands(doc, i, lexeme) && Delimited(doc, i + |lexeme|)
    ensures DigitsEnd(doc, i + k) == i + DigitsEnd(lexeme, k)
    decreases |lexeme| - k
  {
    if k < |lexeme| {
      assert doc[i + k] == lexeme[k];
      if IsDigit(lexeme[k]) {
        DigitsEndBack(lexeme, k + 1, doc, i);
        assert DigitsEnd(doc, i + k) == DigitsEnd(doc, i + (k + 1));
      }
    }
  }

  lemma NumberBack(lexeme: string, doc: string, i: nat)
    requires IsNumberLexeme(lexeme) && Stands(doc, i, lexeme) && Delimited(doc, i + |lexeme|)
    ensures NumberEnd(doc, i) == Some(i + |lexeme|)
    ensures doc[i] == lexeme[0] && (doc[i] == '-' || IsDigit(doc[i]))
  {
    assert doc[i] == lexeme[0];
    var sign := if lexeme[0] == '-' then 1 else 0;
    DigitsEndBack(lexeme, sign, doc, i);
    var whole := DigitsEnd(lexeme, sign);
    FractionBack(lexeme, whole, doc, i);
    ExponentBack(lexeme, FractionEnd(lexeme, whole).value, doc, i);
  }

  lemma FractionBack(lexeme: string, k: nat, doc: string, i: nat)
    requires k <= |lexeme| && Stands(doc, i, lexeme) && Delimited(doc, i + |lexeme|)
    requires FractionEnd(lexeme, k).Some?
    ensures FractionEnd(doc, i + k) == Some(i + FractionEnd(lexeme, k).value)
  {
    if k < |lexeme| {
      assert doc[i + k] == lexeme[k];
      DigitsEndBack(lexeme, k + 1, doc, i);
    }
  }

  lemma ExponentBack(lexeme: string, k: nat, doc: string, i: nat)
    requires k <= |lexeme| && Stands(doc, i, lexeme) && Delimited(doc, i + |lexeme|)
    requires ExponentEnd(lexeme, k).Some?
    ensures ExponentEnd(doc, i + k) == Some(i + ExponentEnd(lexeme, k).value)
  {
    if k < |lexeme| {
      assert doc[i + k] == lexeme[k];
      if k + 1 < |lexeme| {
        assert doc[i + (k + 1)] == lexeme[k + 1];
        DigitsEndBack(lexeme, k + 1, doc, i);
      }
      if k + 2 <= |lexeme| {
        DigitsEndBack(lexeme, k + 2, doc, i);
      }
    }
  }

  // ---- values ------------------------------------------------------------

  predicate Starts(c: char) {
    c in {'n', 't', 'f', '"', '[', '{', '-'} || IsDigit(c)
  }

  lemma SpreadStarts(json: Json, ws: string)
    requires Spelled(json)
    ensures Spread(json, ws) != "" && Starts(Spread(json, ws)[0])
  {
    if json.Number? {
      NumberBack(json.lexeme, json.lexeme, 0);
    }
  }

  // A written value never starts with white space, so skipping stops there.
  lemma NothingToSkip(json: Json, ws: string, doc: string, i: nat)
    requires Spelled(json) && Stands(doc, i, Spread(json, ws))
    ensures i < |doc| && SkipSpace(doc, i) == i && Starts(doc[i]) && doc[i] == Spread(json, ws)[0]
    ensures !IsSpace(doc[i])
  {
    SpreadStarts(json, ws);
    assert doc[i] == Spread(json, ws)[0];
  }

  // White space is skipped whole.
  lemma {:induction false} PadSkipped(ws: string, k: nat, doc: string, i: nat)
    requires IsPad(ws) && Stands(doc, i, ws) && k <= |ws|
    ensures SkipSpace(doc, i + k) == SkipSpace(doc, i + |ws|)
    decreases |ws| - k
  {
    if k < |ws| {
      assert doc[i + k] == ws[k];
      assert ws[k] == ' ' || ws[k] == '\t' || ws[k] == '\n' || ws[k] == '\r';
      PadSkipped(ws, k + 1, doc, i);
      assert SkipSpace(doc, i + k) == SkipSpace(doc, i + (k + 1));
    }
  }

  // A mark behind white space is where skipping stops, and a number before it
  // ends.
  lemma MarkBehindPad(ws: string, doc: string, i: nat)
    requires IsPad(ws) && Stands(doc, i, ws) && i + |ws| < |doc| && !IsSpace(doc[i + |ws|])
    ensures SkipSpace(doc, i) == i + |ws|
    ensures doc[i + |ws|] in {',', ']', '}'} ==> Delimited(doc, i)
  {
    PadSkipped(ws, 0, doc, i);
    if ws != "" {
      assert doc[i + 0] == ws[0];
      assert ws[0] == ' ' || ws[0] == '\t' || ws[0] == '\n' || ws[0] == '\r';
    }
  }

  /**
   * The parser reads a written value, from wherever it stands, exactly when its
   * nesting still fits under the depth bound.
   */
  lemma {:induction false} ValueBack(json: Json, ws: string, doc: string, i: nat, depth: nat)
    requires Spelled(json) && IsPad(ws) && Stands(doc, i, Spread(json, ws))
    requires Delimited(doc, i + |Spread(json, ws)|)
    ensures ValueAt(doc, i, depth) ==
            if depth + Height(json) <= MAX_DEPTH then Some((Merged(json), i + |Spread(json, ws)|)) else None
    decreases json, 1, 0
  {
    NothingToSkip(json, ws, doc, i);
    if depth <= MAX_DEPTH {
      match json
      case Null =>
      case Bool(_) =>
      case Number(lexeme) =>
        NumberBack(lexeme, doc, i);
        assert doc[i..i + |lexeme|] == lexeme;
      case String(text) => QuotedBack(text, doc, i);
      case Array(elements) => ArrayBack(json, ws, doc, i, depth);
      case Object(members) => ObjectBack(json, ws, doc, i, depth);
    }
  }

  // How the rest of a written array lies in the document.
  lemma ElementsLayout(json: Json, ws: string, k: nat, doc: string, i: nat)
    requires json.Array? && k <= |json.elements| && Stands(doc, i, SpreadElements(json, ws, k))
    ensures k == |json.elements| ==> i < |doc| && doc[i] == ']' && |SpreadElements(json, ws, k)| == 1
    ensures k < |json.elements| ==>
              var start := if k == 0 then i else i + 1 + |ws|;
              var next := start + |Spread(json.elements[k], ws)|;
              && (k > 0 ==> i < |doc| && doc[i] == ',' && Stands(doc, i + 1, ws))
              && Stands(doc, start, Spread(json.elements[k], ws)) && Stands(doc, next, ws)
              && Stands(doc, next + |ws|, SpreadElements(json, ws, k + 1))
              && i + |SpreadElements(json, ws, k)| == next + |ws| + |SpreadElements(json, ws, k + 1)|
  {
    if k == |json.elements| {
      assert doc[i] == "]"[0];
    } else {
      var element, others := Spread(json.elements[k], ws), SpreadElements(json, ws, k + 1);
      var start := if k == 0 then i else i + 1 + |ws|;
      if k > 0 {
        StandsInParts(doc, i, ",", ws + (element + (ws + others)));
        StandsInParts(doc, i + 1, ws, element + (ws + others));
        assert doc[i] == ","[0];
      }
      StandsInParts(doc, start, element, ws + others);
      StandsInParts(doc, start + |element|, ws, others);
    }
  }

  // Behind a bracket the parser reads elements, unless the bracket closes at once.
  lemma ArrayOpens(doc: string, i: nat, depth: nat)
    requires i + 1 < |doc| && doc[i] == '[' && depth <= MAX_DEPTH && SkipSpace(doc, i + 1) < |doc|
    ensures var at := SkipSpace(doc, i + 1);
            ValueAt(doc, i, depth) ==
              if doc[at] == ']' then Some((Array([]), at + 1)) else ElementsAt(doc, at, depth, [])
  {
    hide StringFrom, NumberEnd, MembersAt, ElementsAt;
  }

  lemma {:induction false} ArrayBack(json: Json, ws: string, doc: string, i: nat, depth: nat)
    requires json.Array? && Spelled(json) && IsPad(ws) && Stands(doc, i, Spread(json, ws)) && depth <= MAX_DEPTH
    ensures ValueAt(doc, i, depth) ==
            if depth + Height(json) <= MAX_DEPTH then Some((Merged(json), i + |Spread(json, ws)|)) else None
    decreases json, 0, |json.elements| + 1
  {
    hide ValueAt, SpreadElements, ElementsAt, NumberEnd, IsPad, SkipSpace, MergedElements;
    StandsInParts(doc, i, "[", ws + SpreadElements(json, ws, 0));
    StandsInParts(doc, i + 1, ws, SpreadElements(json, ws, 0));
    assert doc[i] == "["[0];
    var at := i + 1 + |ws|;
    ElementsLayout(json, ws, 0, doc, at);
    ArrayOpensAt(json, ws, doc, at);
    MarkBehindPad(ws, doc, i + 1);
    ArrayOpens(doc, i, depth);
    assert MergedElements(json, 0) == [];
    if json.elements != [] {
      ElementsBack(json, ws, 0, doc, at, at, depth);
    }
  }

  lemma ArrayOpensAt(json: Json, ws: string, doc: string, i: nat)
    requires json.Array? && Spelled(json)
    requires json.elements == [] ==> i < |doc| && doc[i] == ']'
    requires json.elements != [] ==> Stands(doc, i, Spread(json.elements[0], ws))
    ensures i < |doc| && SkipSpace(doc, i) == i && !IsSpace(doc[i]) && (doc[i] == ']' <==> json.elements == [])
  {
    if json.elements != [] {
      NothingToSkip(json.elements[0], ws, doc, i);
    }
  }

  lemma ElementStep(doc: string, i: nat, depth: nat, read: seq<Json>, element: Json, next: nat)
    requires i <= |doc| && ValueAt(doc, SkipSpace(doc, i), depth + 1) == Some((element, next)) && next <= |doc|
    requires var mark := SkipSpace(doc, next); mark < |doc| && (doc[mark] == ',' || doc[mark] == ']')
    ensures var mark := SkipSpace(doc, next);
            ElementsAt(doc, i, depth, read) ==
              if doc[mark] == ',' then ElementsAt(doc, mark + 1, depth, read + [element])
              else Some((Array(read + [element]), mark + 1))
  {
  }

  // One written element is read, or refused for its depth.
  lemma {:induction false} ElementBack(json: Json, ws: string, k: nat, doc: string, i: nat, at: nat, depth: nat)
    requires json.Array? && Spelled(json) && IsPad(ws) && k < |json.elements| && depth <= MAX_DEPTH
    requires i <= at <= |doc| && SkipSpace(doc, i) == at && Stands(doc, at, Spread(json.elements[k], ws))
    requires var next := at + |Spread(json.elements[k], ws)|;
             Stands(doc, next, ws) && Stands(doc, next + |ws|, SpreadElements(json, ws, k + 1))
    ensures var mark := at + |Spread(json.elements[k], ws)| + |ws|;
            && mark < |doc|
            && ElementsAt(doc, i, depth, MergedElements(json, k)) ==
               if depth + 1 + Height(json.elements[k]) > MAX_DEPTH then None
               else if k + 1 == |json.elements| then Some((Merged(json), mark + 1))
               else ElementsAt(doc, mark + 1, depth, MergedElements(json, k + 1))
    decreases json, 0, 0
  {
    hide ValueAt, Spread, SpreadElements, Stands, Height, IsPad, SkipSpace;
    var element, next := json.elements[k], at + |Spread(json.elements[k], ws)|;
    ElementsLayout(json, ws, k + 1, doc, next + |ws|);
    MarkBehindPad(ws, doc, next);
    ValueBack(element, ws, doc, at, depth + 1);
    if depth + 1 + Height(element) <= MAX_DEPTH {
      ElementStep(doc, i, depth, MergedElements(json, k), Merged(element), next);
    }
  }

  lemma {:induction false} ElementsBack(json: Json, ws: string, k: nat, doc: string, i: nat, at: nat, depth: nat)
    requires json.Array? && Spelled(json) && IsPad(ws) && k < |json.elements| && depth <= MAX_DEPTH
    requires i <= at <= |doc| && SkipSpace(doc, i) == at && Stands(doc, at, Spread(json.elements[k], ws))
    requires var next := at + |Spread(json.elements[k], ws)|;
             Stands(doc, next, ws) && Stands(doc, next + |ws|, SpreadElements(json, ws, k + 1))
    ensures ElementsAt(doc, i, depth, MergedElements(json, k)) ==
            if depth + ElementsHeight(json, k) <= MAX_DEPTH
            then Some((Merged(json), at + |Spread(json.elements[k], ws)| + |ws| + |SpreadElements(json, ws, k + 1)|))
            else None
    decreases json, 0, |json.elements| - k
  {
    hide ElementsAt, Spread, Stands, Spelled, Height, IsPad, SkipSpace, Merged, MergedElements;
    var mark := at + |Spread(json.elements[k], ws)| + |ws|;
    ElementBack(json, ws, k, doc, i, at, depth);
    ElementsLayout(json, ws, k + 1, doc, mark);
    if k + 1 < |json.elements| && depth + 1 + Height(json.elements[k]) <= MAX_DEPTH {
      ElementBehindPad(json, ws, k + 1, doc, mark + 1);
      ElementsBack(json, ws, k + 1, doc, mark + 1, mark + 1 + |ws|, depth);
    }
  }

  lemma ElementBehindPad(json: Json, ws: string, k: nat, doc: string, i: nat)
    requires json.Array? && Spelled(json) && IsPad(ws) && k < |json.elements|
    requires Stands(doc, i, ws) && Stands(doc, i + |ws|, Spread(json.elements[k], ws))
    ensures SkipSpace(doc, i) == i + |ws|
  {
    hide Spread, Stands, IsPad, SkipSpace;
    NothingToSkip(json.elements[k], ws, doc, i + |ws|);
    MarkBehindPad(ws, doc, i);
  }

  // How the rest of a written object lies in the document.
  lemma MembersLayout(json: Json, ws: string, k: nat, doc: string, i: nat)
    requires json.Object? && k <= |json.members| && Stands(doc, i, SpreadMembers(json, ws, k))
    ensures k == |json.members| ==> i < |doc| && doc[i] == '}' && |SpreadMembers(json, ws, k)| == 1
    ensures k < |json.members| ==>
              var start := if k == 0 then i else i + 1 + |ws|;
              var next := start + |SpreadMember(json, ws, k)|;
              && (k > 0 ==> i < |doc| && doc[i] == ',' && Stands(doc, i + 1, ws))
              && Stands(doc, start, SpreadMember(json, ws, k)) && Stands(doc, next, ws)
              && Stands(doc, next + |ws|, SpreadMembers(json, ws, k + 1))
              && i + |SpreadMembers(json, ws, k)| == next + |ws| + |SpreadMembers(json, ws, k + 1)|
  {
    hide SpreadMember;
    if k == |json.members| {
      assert doc[i] == "}"[0];
    } else {
      var member, others := SpreadMember(json, ws, k), SpreadMembers(json, ws, k + 1);
      var start := if k == 0 then i else i + 1 + |ws|;
      if k > 0 {
        StandsInParts(doc, i, ",", ws + (member + (ws + others)));
        StandsInParts(doc, i + 1, ws, member + (ws + others));
        assert doc[i] == ","[0];
      }
      StandsInParts(doc, start, member, ws + others);
      StandsInParts(doc, start + |member|, ws, others);
    }
  }

  lemma ObjectOpens(doc: string, i: nat, depth: nat)
    requires i + 1 < |doc| && doc[i] == '{' && depth <= MAX_DEPTH && SkipSpace(doc, i + 1) < |doc|
    ensures var at := SkipSpace(doc, i + 1);
            ValueAt(doc, i, depth) ==
              if doc[at] == '}' then Some((Object([]), at + 1)) else MembersAt(doc, at, depth, [])
  {
    hide StringFrom, NumberEnd, MembersAt, ElementsAt;
  }

  lemma {:induction false} ObjectBack(json: Json, ws: string, doc: string, i: nat, depth: nat)
    requires json.Object? && Spelled(json) && IsPad(ws) && Stands(doc, i, Spread(json, ws)) && depth <= MAX_DEPTH
    ensures ValueAt(doc, i, depth) ==
            if depth + Height(json) <= MAX_DEPTH then Some((Merged(json), i + |Spread(json, ws)|)) else None
    decreases json, 0, |json.members| + 1
  {
    hide ValueAt, SpreadMembers, SpreadMember, MembersAt, NumberEnd, KeyAt, IsPad, SkipSpace, MergedMembers;
    StandsInParts(doc, i, "{", ws + SpreadMembers(json, ws, 0));
    StandsInParts(doc, i + 1, ws, SpreadMembers(json, ws, 0));
    assert doc[i] == "{"[0];
    var at := i + 1 + |ws|;
    MembersLayout(json, ws, 0, doc, at);
    ObjectOpensAt(json, ws, doc, at);
    MarkBehindPad(ws, doc, i + 1);
    ObjectOpens(doc, i, depth);
    NothingMerged(json);
    if json.members != [] {
      MembersBack(json, ws, 0, doc, at, at, depth);
    }
  }

  lemma NothingMerged(json: Json)
    requires json.Object?
    ensures MergedMembers(json, 0) == []
  {
  }

  lemma ObjectOpensAt(json: Json, ws: string, doc: string, i: nat)
    requires json.Object?
    requires json.members == [] ==> i < |doc| && doc[i] == '}'
    requires json.members != [] ==> Stands(doc, i, SpreadMember(json, ws, 0))
    ensures i < |doc| && SkipSpace(doc, i) == i && !IsSpace(doc[i]) && (doc[i] == '}' <==> json.members == [])
  {
    hide SpreadMember;
    if json.members != [] {
      MemberStarts(json, ws, 0, doc, i);
    }
  }

  lemma MemberStarts(json: Json, ws: string, k: nat, doc: string, i: nat)
    requires json.Object? && k < |json.members| && Stands(doc, i, SpreadMember(json, ws, k))
    ensures i < |doc| && doc[i] == '"' && SkipSpace(doc, i) == i
  {
    hide Spread;
    var key := Quoted(json.members[k].key);
    StandsInParts(doc, i, key, ws + (":" + (ws + Spread(json.members[k].value, ws))));
    assert doc[i] == key[0];
  }

  // The key of a written member, and where its value stands.
  lemma KeyBack(json: Json, ws: string, k: nat, doc: string, i: nat, at: nat)
    requires json.Object? && Spelled(json) && IsPad(ws) && k < |json.members|
    requires i <= at <= |doc| && SkipSpace(doc, i) == at && Stands(doc, at, SpreadMember(json, ws, k))
    ensures var member := json.members[k];
            var value := at + |Quoted(member.key)| + |ws| + 1 + |ws|;
            && KeyAt(doc, i) == Some((member.key, value))
            && Stands(doc, value, Spread(member.value, ws))
            && value + |Spread(member.value, ws)| == at + |SpreadMember(json, ws, k)|
  {
    hide Spread, IsPad, SkipSpace, Quoted;
    var member := json.members[k];
    var key, text := Quoted(member.key), Spread(member.value, ws);
    var colon := at + |key| + |ws|;
    StandsInParts(doc, at, key, ws + (":" + (ws + text)));
    StandsInParts(doc, at + |key|, ws, ":" + (ws + text));
    StandsInParts(doc, colon, ":", ws + text);
    StandsInParts(doc, colon + 1, ws, text);
    QuotedBack(member.key, doc, at);
    assert doc[colon] == ":"[0];
    MarkBehindPad(ws, doc, at + |key|);
    NothingToSkip(member.value, ws, doc, colon + 1 + |ws|);
    MarkBehindPad(ws, doc, colon + 1);
  }

  lemma MemberStep(doc: string, i: nat, depth: nat, read: seq<Member>, key: string, at: nat, value: Json, next: nat)
    requires i <= |doc| && KeyAt(doc, i) == Some((key, at)) && at <= |doc|
    requires ValueAt(doc, at, depth + 1) == Some((value, next)) && next <= |doc|
    requires var mark := SkipSpace(doc, next); mark < |doc| && (doc[mark] == ',' || doc[mark] == '}')
    ensures var mark := SkipSpace(doc, next);
            MembersAt(doc, i, depth, read) ==
              if doc[mark] == ',' then MembersAt(doc, mark + 1, depth, SetMember(read, key, value))
              else Some((Object(SetMember(read, key, value)), mark + 1))
  {
  }

  lemma ValueRefused(doc: string, i: nat, depth: nat, read: seq<Member>)
    requires i <= |doc| && KeyAt(doc, i).Some? && ValueAt(doc, KeyAt(doc, i).value.1, depth + 1).None?
    ensures MembersAt(doc, i, depth, read).None?
  {
  }

  // One written member is read, or refused for its depth.
  lemma {:induction false} MemberBack(json: Json, ws: string, k: nat, doc: string, i: nat, at: nat, depth: nat)
    requires json.Object? && Spelled(json) && IsPad(ws) && k < |json.members| && depth <= MAX_DEPTH
    requires i <= at <= |doc| && SkipSpace(doc, i) == at && Stands(doc, at, SpreadMember(json, ws, k))
    requires var next := at + |SpreadMember(json, ws, k)|;
             Stands(doc, next, ws) && Stands(doc, next + |ws|, SpreadMembers(json, ws, k + 1))
    ensures var mark := at + |SpreadMember(json, ws, k)| + |ws|;
            && mark < |doc|
            && MembersAt(doc, i, depth, MergedMembers(json, k)) ==
               if depth + 1 + Height(json.members[k].value) > MAX_DEPTH then None
               else if k + 1 == |json.members| then Some((Merged(json), mark + 1))
               else MembersAt(doc, mark + 1, depth, MergedMembers(json, k + 1))
    decreases json, 0, 0
  {
    hide MembersAt, KeyAt, ValueAt, Spread, SpreadMember, SpreadMembers, Stands, Height, IsPad, SkipSpace, SetMember;
    var member, next := json.members[k], at + |SpreadMember(json, ws, k)|;
    var value := at + |Quoted(member.key)| + |ws| + 1 + |ws|;
    MembersLayout(json, ws, k + 1, doc, next + |ws|);
    MarkBehindPad(ws, doc, next);
    KeyBack(json, ws, k, doc, i, at);
    ValueBack(member.value, ws, doc, value, depth + 1);
    if depth + 1 + Height(member.value) <= MAX_DEPTH {
      MemberStep(doc, i, depth, MergedMembers(json, k), member.key, value, Merged(member.value), next);
    } else {
      ValueRefused(doc, i, depth, MergedMembers(json, k));
    }
  }

  lemma {:induction false} MembersBack(json: Json, ws: string, k: nat, doc: string, i: nat, at: nat, depth: nat)
    requires json.Object? && Spelled(json) && IsPad(ws) && k < |json.members| && depth <= MAX_DEPTH
    requires i <= at <= |doc| && SkipSpace(doc, i) == at && Stands(doc, at, SpreadMember(json, ws, k))
    requires var next := at + |SpreadMember(json, ws, k)|;
             Stands(doc, next, ws) && Stands(doc, next + |ws|, SpreadMembers(json, ws, k + 1))
    ensures MembersAt(doc, i, depth, MergedMembers(json, k)) ==
            if depth + MembersHeight(json, k) <= MAX_DEPTH
            then Some((Merged(json), at + |SpreadMember(json, ws, k)| + |ws| + |SpreadMembers(json, ws, k + 1)|))
            else None
    decreases json, 0, |json.members| - k
  {
    hide MembersAt, SpreadMember, Stands, Spelled, Height, IsPad, SkipSpace, Merged, MergedMembers;
    var mark := at + |SpreadMember(json, ws, k)| + |ws|;
    MemberBack(json, ws, k, doc, i, at, depth);
    MembersLayout(json, ws, k + 1, doc, mark);
    if k + 1 < |json.members| && depth + 1 + Height(json.members[k].value) <= MAX_DEPTH {
      MemberStarts(json, ws, k + 1, doc, mark + 1 + |ws|);
      MarkBehindPad(ws, doc, mark + 1);
      MembersBack(json, ws, k + 1, doc, mark + 1, mark + 1 + |ws|, depth);
    }
  }

  /**
   * A written value, with any white space before, between and behind its
   * tokens, is read as itself when it nests at most 32 deep, the last of equal
   * keys winning in the place of the first, and refused when it nests deeper.
   */
  lemma ParseSpread(json: Json, ws: string)
    requires Spelled(json) && IsPad(ws)
    ensures Parse(ws + (Spread(json, ws) + ws)) == if Height(json) <= 32 then Some(Merged(json)) else None
  {
    hide Spread, ValueAt, SkipSpace, Stands, IsPad, Delimited;
    var text := Spread(json, ws);
    var doc := ws + (text + ws);
    StandsWhole(doc);
    StandsInParts(doc, 0, ws, text + ws);
    StandsInParts(doc, |ws|, text, ws);
    NothingToSkip(json, ws, doc, |ws|);
    MarkBehindPad(ws, doc, 0);
    PadAtEnd(ws, doc, |ws| + |text|);
    ValueBack(json, ws, doc, |ws|, 0);
  }

  lemma StandsWhole(doc: string)
    ensures Stands(doc, 0, doc)
  {
  }

  lemma PadAtEnd(ws: string, doc: string, i: nat)
    requires IsPad(ws) && Stands(doc, i, ws) && i + |ws| == |doc|
    ensures SkipSpace(doc, i) == |doc| && Delimited(doc, i)
  {
    PadSkipped(ws, 0, doc, i);
    if ws != "" {
      assert doc[i + 0] == ws[0];
      assert ws[0] == ' ' || ws[0] == '\t' || ws[0] == '\n' || ws[0] == '\r';
    }
  }

  // Skipping stops at anything but those four characters.
  lemma {:induction false} OnlyPadIsSkipped(doc: string, i: nat)
    requires i <= |doc|
    ensures IsPad(doc[i..SkipSpace(doc, i)])
    ensures SkipSpace(doc, i) < |doc| ==> !IsPad([doc[SkipSpace(doc, i)]])
    decreases |doc| - i
  {
    var at := SkipSpace(doc, i);
    if i < at {
      OnlyPadIsSkipped(doc, i + 1);
      assert doc[i..at] == [doc[i]] + doc[i + 1..at];
    } else if at < |doc| {
      assert [doc[at]][0] == doc[at];
    }
  }

  // ---- as the module prints it ---------------------------------------------------

  lemma {:induction false} SpreadIsDump(json: Json)
    ensures Spread(json, "") == Dump(json)
    decreases json, 1, 0
  {
    match json
    case Array(_) => ElementsAreDumped(json, 0);
    case Object(_) => MembersAreDumped(json, 0);
    case _ =>
  }

  lemma {:induction false} ElementsAreDumped(json: Json, i: nat)
    requires json.Array? && i <= |json.elements|
    ensures SpreadElements(json, "", i) == DumpElements(json, i)
    decreases json, 0, |json.elements| - i
  {
    if i < |json.elements| {
      SpreadIsDump(json.elements[i]);
      ElementsAreDumped(json, i + 1);
    }
  }

  lemma {:induction false} MembersAreDumped(json: Json, i: nat)
    requires json.Object? && i <= |json.members|
    ensures SpreadMembers(json, "", i) == DumpMembers(json, i)
    decreases json, 0, |json.members| - i
  {
    if i < |json.members| {
      SpreadIsDump(json.members[i].value);
      MembersAreDumped(json, i + 1);
    }
  }

  lemma SettingNextMember(members: seq<Member>, k: nat)
    requires UniqueKeys(members) && k < |members|
    ensures SetMember(members[..k], members[k].key, members[k].value) == members[..k + 1]
  {
    assert IndexOf(members[..k], members[k].key, 0) == k;
    assert Member(members[k].key, members[k].value) == members[k];
  }

  // Keys that do not repeat are left as they are.
  lemma {:induction false} NothingToMerge(json: Json)
    requires WellFormed(json)
    ensures Spelled(json) && Merged(json) == json
    decreases json, 1, 0
  {
    match json
    case Array(elements) =>
      forall k | 0 <= k < |elements| ensures Spelled(elements[k]) && Merged(elements[k]) == elements[k] {
        NothingToMerge(elements[k]);
      }
      assert MergedElements(json, |elements|) == elements;
    case Object(members) =>
      forall k | 0 <= k < |members| ensures Spelled(members[k].value) {
        NothingToMerge(members[k].value);
      }
      MembersAreKept(json, |members|);
      assert members[..|members|] == members;
    case _ =>
  }

  lemma {:induction false} MembersAreKept(json: Json, n: nat)
    requires json.Object? && WellFormed(json) && n <= |json.members|
    ensures MergedMembers(json, n) == json.members[..n]
    decreases json, 0, n
  {
    if n > 0 {
      MembersAreKept(json, n - 1);
      NothingToMerge(json.members[n - 1].value);
      SettingNextMember(json.members, n - 1);
    }
  }

  /**
   * The round trip: a printed value is read back as itself when it nests at
   * most 32 deep, and refused when it nests deeper.
   */
  lemma ParseDump(json: Json)
    requires WellFormed(json)
    ensures Parse(Dump(json)) == if Height(json) <= 32 then Some(json) else None
  {
    SpreadIsDump(json);
    NothingToMerge(json);
    ParseSpread(json, "");
    assert "" + (Dump(json) + "") == Dump(json);
  }
}
