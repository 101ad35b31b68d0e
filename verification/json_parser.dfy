/**
 * The parser object of the core module
 * (faucet-module/src/lez_faucet_module.cpp): a cursor over one document,
 * moved by each method, proved to read exactly what the grammar says.
 */
module JsonParsing {
  import opened Wrappers
  import opened Digits
  import opened JsonValues
  import opened JsonGrammar

  class JsonParser {
    const document: string
    var cursor: nat

    constructor (document: string)
      ensures this.document == document && cursor == 0
    {
      this.document := document;
      cursor := 0;
    }

    predicate Valid()
      reads this
    {
      cursor <= |document|
    }

    method Parse() returns (value: Option<Json>)
      requires Valid() && cursor == 0
      modifies this
      ensures value == JsonGrammar.Parse(document)
    {
      hide ValueAt;
      SkipWhitespace();
      value := ParseValue(0);
      if value.None? {
        return;
      }
      SkipWhitespace();
      if cursor != |document| {
        return None;
      }
    }

    method SkipWhitespace()
      requires Valid()
      modifies this
      ensures Valid() && cursor == SkipSpace(document, old(cursor))
    {
      while cursor < |document| && IsSpace(document[cursor])
        invariant Valid() && SkipSpace(document, cursor) == SkipSpace(document, old(cursor))
      {
        cursor := cursor + 1;
      }
    }

    method ConsumeLiteral(literal: string) returns (found: bool)
      requires Valid()
      modifies this
      ensures Valid() && found == Stands(document, old(cursor), literal)
      ensures cursor == if found then old(cursor) + |literal| else old(cursor)
    {
      found := Stands(document, cursor, literal);
      if found {
        cursor := cursor + |literal|;
      }
    }

    method ParseValue(depth: nat) returns (value: Option<Json>)
      requires Valid()
      modifies this
      ensures Valid()
      ensures var spec := ValueAt(document, old(cursor), depth);
              && value.Some? == spec.Some?
              && (value.Some? ==> (value.value, cursor) == spec.value)
      decreases |document| - cursor, 1
    {
      hide StringFrom, NumberEnd, MembersAt, ElementsAt;
      if depth > MAX_DEPTH || cursor == |document| {
        return None;
      }
      var head := document[cursor];
      if head == '{' {
        value := ParseObject(depth);
      } else if head == '[' {
        value := ParseArray(depth);
      } else if head == '"' {
        var text := ParseString();
        value := if text.None? then None else Some(String(text.value));
      } else if head == 't' {
        var found := ConsumeLiteral("true");
        value := if found then Some(Bool(true)) else None;
      } else if head == 'f' {
        var found := ConsumeLiteral("false");
        value := if found then Some(Bool(false)) else None;
      } else if head == 'n' {
        var found := ConsumeLiteral("null");
        value := if found then Some(Null) else None;
      } else {
        value := ParseNumber();
      }
    }

    method ParseObject(depth: nat) returns (value: Option<Json>)
      requires Valid() && depth <= MAX_DEPTH && cursor < |document| && document[cursor] == '{'
      modifies this
      ensures Valid()
      ensures var spec := ValueAt(document, old(cursor), depth);
              && value.Some? == spec.Some?
              && (value.Some? ==> (value.value, cursor) == spec.value)
      decreases |document| - cursor, 0
    {
      hide ValueAt, MembersAt, KeyAt;
      ghost var start := cursor;
      cursor := cursor + 1;
      SkipWhitespace();
      ghost var first := cursor;
      ObjectUnfolds(document, start, depth);
      if cursor < |document| && document[cursor] == '}' {
        cursor := cursor + 1;
        return Some(Object([]));
      }
      var members: seq<Member> := [];
      while true
        invariant Valid() && start < cursor
        invariant MembersAt(document, cursor, depth, members) == MembersAt(document, first, depth, [])
        decreases |document| - cursor
      {
        ghost var at := cursor;
        MembersUnfold(document, at, depth, members);
        var key := ParseKey();
        if key.None? {
          return None;
        }
        var item := ParseValue(depth + 1);
        if item.None? {
          return None;
        }
        members := SetMember(members, key.value, item.value);
        SkipWhitespace();
        if cursor == |document| {
          return None;
        }
        if document[cursor] == ',' {
          cursor := cursor + 1;
          continue;
        }
        if document[cursor] == '}' {
          cursor := cursor + 1;
          return Some(Object(members));
        }
        return None;
      }
    }

    // A member's key and the colon behind it.
    method ParseKey() returns (key: Option<string>)
      requires Valid()
      modifies this
      ensures Valid() && old(cursor) <= cursor
      ensures var spec := KeyAt(document, old(cursor));
              && key.Some? == spec.Some?
              && (key.Some? ==> (key.value, cursor) == spec.value)
    {
      hide StringFrom;
      SkipWhitespace();
      if cursor == |document| || document[cursor] != '"' {
        return None;
      }
      key := ParseString();
      if key.None? {
        return;
      }
      SkipWhitespace();
      if cursor == |document| || document[cursor] != ':' {
        return None;
      }
      cursor := cursor + 1;
      SkipWhitespace();
    }

    method ParseArray(depth: nat) returns (value: Option<Json>)
      requires Valid() && depth <= MAX_DEPTH && cursor < |document| && document[cursor] == '['
      modifies this
      ensures Valid()
      ensures var spec := ValueAt(document, old(cursor), depth);
              && value.Some? == spec.Some?
              && (value.Some? ==> (value.value, cursor) == spec.value)
      decreases |document| - cursor, 0
    {
      hide ValueAt, ElementsAt;
      ghost var start := cursor;
      cursor := cursor + 1;
      SkipWhitespace();
      ghost var first := cursor;
      ArrayUnfolds(document, start, depth);
      if cursor < |document| && document[cursor] == ']' {
        cursor := cursor + 1;
        return Some(Array([]));
      }
      var elements: seq<Json> := [];
      while true
        invariant Valid() && start < cursor
        invariant ElementsAt(document, cursor, depth, elements) == ElementsAt(document, first, depth, [])
        decreases |document| - cursor
      {
        ElementsUnfold(document, cursor, depth, elements);
        SkipWhitespace();
        var item := ParseValue(depth + 1);
        if item.None? {
          return None;
        }
        elements := elements + [item.value];
        SkipWhitespace();
        if cursor == |document| {
          return None;
        }
        if document[cursor] == ',' {
          cursor := cursor + 1;
          continue;
        }
        if document[cursor] == ']' {
          cursor := cursor + 1;
          return Some(Array(elements));
        }
        return None;
      }
    }

    method ParseString() returns (text: Option<string>)
      requires Valid() && cursor < |document|
      modifies this
      ensures Valid() && old(cursor) < cursor
      ensures var spec := StringFrom(document, old(cursor) + 1, "");
              && text.Some? == spec.Some?
              && (text.Some? ==> (text.value, cursor) == spec.value)
    {
      hide UnicodeEscape, Utf8;
      var out := "";
      cursor := cursor + 1;
      while cursor < |document|
        invariant Valid() && old(cursor) < cursor
        invariant StringFrom(document, cursor, out) == StringFrom(document, old(cursor) + 1, "")
        decreases |document| - cursor
      {
        var current := document[cursor];
        if current == '"' {
          cursor := cursor + 1;
          return Some(out);
        }
        if (current as int) < 0x20 {
          return None;
        }
        if current != '\\' {
          out := out + [current];
          cursor := cursor + 1;
          continue;
        }
        if cursor + 1 == |document| {
          return None;
        }
        var escape := document[cursor + 1];
        cursor := cursor + 2;
        if escape == 'u' {
          var code := ParseUnicodeEscape();
          if code.None? {
            return None;
          }
          out := out + Utf8(code.value);
        } else {
          var short := ShortEscape(escape);
          if short.None? {
            return None;
          }
          out := out + [short.value];
        }
      }
      return None;
    }

    // The four hex digits behind `\u`, joined with a low surrogate that follows.
    method ParseUnicodeEscape() returns (code: Option<nat>)
      requires Valid()
      modifies this
      ensures Valid() && old(cursor) <= cursor
      ensures var spec := UnicodeEscape(document, old(cursor));
              && code.Some? == spec.Some?
              && (code.Some? ==> (code.value, cursor) == spec.value)
    {
      hide HexPrefix;
      code := ParseHex4();
      if code.None? {
        return;
      }
      if HighSurrogate(code.value) && Stands(document, cursor, "\\u") {
        var mark := cursor;
        cursor := cursor + 2;
        var low := ParseHex4();
        if low.Some? && LowSurrogate(low.value) {
          code := Some(0x10000 + (code.value - 0xD800) * 0x400 + (low.value - 0xDC00));
        } else {
          cursor := mark;
        }
      }
    }

    method ParseHex4() returns (code: Option<nat>)
      requires Valid()
      modifies this
      ensures Valid() && code == Hex4(document, old(cursor))
      ensures cursor == if code.Some? then old(cursor) + 4 else old(cursor)
    {
      if cursor + 4 > |document| {
        return None;
      }
      var value := 0;
      var index := 0;
      while index < 4
        invariant index <= 4 && HexPrefix(document, cursor, index) == Some(value)
      {
        var digit := HexValue(document[cursor + index]);
        if digit.None? {
          HexFails(document, cursor, index + 1);
          return None;
        }
        value := value * 16 + digit.value;
        index := index + 1;
      }
      cursor := cursor + 4;
      return Some(value);
    }

    method ParseNumber() returns (value: Option<Json>)
      requires Valid()
      modifies this
      ensures Valid()
      ensures var end := NumberEnd(document, old(cursor));
              && value.Some? == end.Some?
              && (value.Some? ==> cursor == end.value && value.value == Number(document[old(cursor)..end.value]))
    {
      hide DigitsEnd, FractionEnd, ExponentEnd;
      var start := cursor;
      if cursor < |document| && document[cursor] == '-' {
        cursor := cursor + 1;
      }
      var parsed := ParseDigits();
      if parsed {
        parsed := ParseFraction();
      }
      if parsed {
        parsed := ParseExponent();
      }
      value := if parsed then Some(Number(document[start..cursor])) else None;
    }

    method ParseFraction() returns (parsed: bool)
      requires Valid()
      modifies this
      ensures Valid() && old(cursor) <= cursor
      ensures FractionEnd(document, old(cursor)) == if parsed then Some(cursor) else None
    {
      parsed := true;
      if cursor < |document| && document[cursor] == '.' {
        cursor := cursor + 1;
        parsed := ParseDigits();
      }
    }

    method ParseExponent() returns (parsed: bool)
      requires Valid()
      modifies this
      ensures Valid() && old(cursor) <= cursor
      ensures ExponentEnd(document, old(cursor)) == if parsed then Some(cursor) else None
    {
      parsed := true;
      if cursor < |document| && (document[cursor] == 'e' || document[cursor] == 'E') {
        cursor := cursor + 1;
        if cursor < |document| && (document[cursor] == '+' || document[cursor] == '-') {
          cursor := cursor + 1;
        }
        parsed := ParseDigits();
      }
    }

    method ParseDigits() returns (any: bool)
      requires Valid()
      modifies this
      ensures Valid() && cursor == DigitsEnd(document, old(cursor)) && any == (cursor != old(cursor))
    {
      var start := cursor;
      while cursor < |document| && IsDigit(document[cursor])
        invariant Valid() && start <= cursor && DigitsEnd(document, cursor) == DigitsEnd(document, start)
      {
        cursor := cursor + 1;
      }
      any := cursor != start;
    }
  }

  // ---- one step of each grammar rule ---------------------------------------

  lemma ObjectUnfolds(doc: string, i: nat, depth: nat)
    requires i < |doc| && doc[i] == '{' && depth <= MAX_DEPTH
    ensures var at := SkipSpace(doc, i + 1);
            ValueAt(doc, i, depth) ==
            if at < |doc| && doc[at] == '}' then Some((Object([]), at + 1)) else MembersAt(doc, at, depth, [])
  {
    hide StringFrom, NumberEnd, MembersAt, ElementsAt;
  }

  lemma ArrayUnfolds(doc: string, i: nat, depth: nat)
    requires i < |doc| && doc[i] == '[' && depth <= MAX_DEPTH
    ensures var at := SkipSpace(doc, i + 1);
            ValueAt(doc, i, depth) ==
            if at < |doc| && doc[at] == ']' then Some((Array([]), at + 1)) else ElementsAt(doc, at, depth, [])
  {
    hide StringFrom, NumberEnd, MembersAt, ElementsAt;
  }

  lemma MembersUnfold(doc: string, i: nat, depth: nat, members: seq<Member>)
    requires i <= |doc|
    ensures MembersAt(doc, i, depth, members) ==
            var key := KeyAt(doc, i);
            if key.None? then None
            else
              var value := ValueAt(doc, key.value.1, depth + 1);
              if value.None? then None
              else
                var read := SetMember(members, key.value.0, value.value.0);
                var at := SkipSpace(doc, value.value.1);
                if at == |doc| then None
                else if doc[at] == ',' then MembersAt(doc, at + 1, depth, read)
                else if doc[at] == '}' then Some((Object(read), at + 1))
                else None
  {
  }

  lemma ElementsUnfold(doc: string, i: nat, depth: nat, elements: seq<Json>)
    requires i <= |doc|
    ensures ElementsAt(doc, i, depth, elements) ==
            var element := ValueAt(doc, SkipSpace(doc, i), depth + 1);
            if element.None? then None
            else
              var read := elements + [element.value.0];
              var at := SkipSpace(doc, element.value.1);
              if at == |doc| then None
              else if doc[at] == ',' then ElementsAt(doc, at + 1, depth, read)
              else if doc[at] == ']' then Some((Array(read), at + 1))
              else None
  {
  }

  lemma {:induction false} HexFails(doc: string, i: nat, n: nat)
    requires 0 < n <= 4 && i + 4 <= |doc| && HexPrefix(doc, i, n).None?
    ensures HexPrefix(doc, i, 4).None?
    decreases 4 - n
  {
    if n < 4 {
      HexFails(doc, i, n + 1);
    }
  }
}
