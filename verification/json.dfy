/**
 * The JSON value and printer of the core module
 * (faucet-module/src/lez_faucet_module.cpp).
 *
 * A C++ std::string is a string here: a char below 256 stands for one byte.
 * Numbers keep their lexeme, as in the source.
 */
module JsonValues {
  import opened Wrappers

  datatype Member = Member(key: string, value: Json)

  datatype Json =
    | Null
    | Bool(flag: bool)
    | Number(lexeme: string)
    | String(text: string)
    | Array(elements: seq<Json>)
    | Object(members: seq<Member>)

  // ---- members -----------------------------------------------------------

  function IndexOf(members: seq<Member>, key: string, i: nat): (at: nat)
    requires i <= |members|
    ensures i <= at <= |members| && (at < |members| ==> members[at].key == key)
    ensures forall k | i <= k < at :: members[k].key != key
    decreases |members| - i
  {
    if i == |members| || members[i].key == key then i else IndexOf(members, key, i + 1)
  }

  // Null for anything that is not an object holding the key.
  function At(json: Json, key: string): Json {
    if !json.Object? then Null
    else
      var at := IndexOf(json.members, key, 0);
      if at < |json.members| then json.members[at].value else Null
  }

  // Replace in place, or append.
  function SetMember(members: seq<Member>, key: string, value: Json): seq<Member> {
    var at := IndexOf(members, key, 0);
    if at < |members| then members[at := Member(key, value)] else members + [Member(key, value)]
  }

  ghost predicate UniqueKeys(members: seq<Member>) {
    forall i, j | 0 <= i < j < |members| :: members[i].key != members[j].key
  }

  // Setting a member keeps keys unique, is read back, and disturbs no other key.
  lemma SetThenAt(members: seq<Member>, key: string, value: Json, other: string)
    requires UniqueKeys(members)
    ensures UniqueKeys(SetMember(members, key, value))
    ensures At(Object(SetMember(members, key, value)), key) == value
    ensures other != key ==> At(Object(SetMember(members, key, value)), other) == At(Object(members), other)
  {
    var updated := SetMember(members, key, value);
    UniqueAt(updated, IndexOf(members, key, 0));
    var at := IndexOf(members, other, 0);
    if other != key {
      if at < |members| {
        UniqueAt(updated, at);
      } else {
        assert IndexOf(updated, other, 0) == |updated|;
      }
    }
  }

  lemma UniqueAt(members: seq<Member>, k: nat)
    requires UniqueKeys(members) && k < |members|
    ensures IndexOf(members, members[k].key, 0) == k
    ensures At(Object(members), members[k].key) == members[k].value
  {
  }

  // ---- printing ----------------------------------------------------------

  function HexDigit(n: nat): char
    requires n < 16
  {
    if n < 10 then ('0' as int + n) as char else ('a' as int + n - 10) as char
  }

  // How one character of a string is written.
  function Escaped(c: char): (out: string)
    ensures |out| > 0
  {
    if c == '\\' then "\\\\"
    else if c == '"' then "\\\""
    else if c == '\n' then "\\n"
    else if c == '\r' then "\\r"
    else if c == '\t' then "\\t"
    else if c as int == 8 then "\\b"
    else if c as int == 12 then "\\f"
    else if c as int < 0x20 then ['\\', 'u', '0', '0', HexDigit(c as int / 16), HexDigit(c as int % 16)]
    else [c]
  }

  function EscapedFrom(text: string, i: nat): string
    requires i <= |text|
    decreases |text| - i
  {
    if i == |text| then "\"" else Escaped(text[i]) + EscapedFrom(text, i + 1)
  }

  function Quoted(text: string): string {
    "\"" + EscapedFrom(text, 0)
  }

  function Dump(json: Json): (out: string)
    decreases json, 1, 0
  {
    match json
    case Null => "null"
    case Bool(flag) => if flag then "true" else "false"
    case Number(lexeme) => lexeme
    case String(text) => Quoted(text)
    case Array(elements) => "[" + DumpElements(json, 0)
    case Object(members) => "{" + DumpMembers(json, 0)
  }

  // The elements from i on, each after the first behind a comma, and the bracket.
  function DumpElements(json: Json, i: nat): string
    requires json.Array? && i <= |json.elements|
    decreases json, 0, |json.elements| - i
  {
    if i == |json.elements| then "]"
    else if i == 0 then Dump(json.elements[i]) + DumpElements(json, i + 1)
    else "," + (Dump(json.elements[i]) + DumpElements(json, i + 1))
  }

  function DumpMembers(json: Json, i: nat): string
    requires json.Object? && i <= |json.members|
    decreases json, 0, |json.members| - i
  {
    if i == |json.members| then "}"
    else if i == 0 then DumpMember(json, i) + DumpMembers(json, i + 1)
    else "," + (DumpMember(json, i) + DumpMembers(json, i + 1))
  }

  function DumpMember(json: Json, i: nat): string
    requires json.Object? && i < |json.members|
    decreases json, 0, 0
  {
    Quoted(json.members[i].key) + (":" + Dump(json.members[i].value))
  }

  // ---- depth -------------------------------------------------------------

  const MAX_DEPTH: nat := 32

  // How many containers enclose the deepest value.
  function Height(json: Json): nat
    decreases json, 1, 0
  {
    match json
    case Array(elements) => ElementsHeight(json, 0)
    case Object(members) => MembersHeight(json, 0)
    case _ => 0
  }

  function Max(a: nat, b: nat): nat {
    if a < b then b else a
  }

  function ElementsHeight(json: Json, i: nat): nat
    requires json.Array? && i <= |json.elements|
    decreases json, 0, |json.elements| - i
  {
    if i == |json.elements| then 0
    else Max(1 + Height(json.elements[i]), ElementsHeight(json, i + 1))
  }

  function MembersHeight(json: Json, i: nat): nat
    requires json.Object? && i <= |json.members|
    decreases json, 0, |json.members| - i
  {
    if i == |json.members| then 0
    else Max(1 + Height(json.members[i].value), MembersHeight(json, i + 1))
  }
}
